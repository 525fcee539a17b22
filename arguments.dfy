/** The command line of neposync.

    main reads its arguments left to right. Eight flags name an action and
    are counted; -r, -f and -V set options; -h shows the usage text and ends
    the program with status 0 at once; -qa takes the next argument as its
    query and ends the program with status 1 when there is none or it starts
    with '-'; any other argument that does not start with '-' is the
    directory, and unknown dash arguments are ignored. After the loop, no
    action shows the usage text (status 0) and more than one ends the program
    with status 1; both happen before any store is opened.

    The argument list here is argv without the program name. */
module Arguments {
  import opened Common

  datatype Action =
    | NepomukToFiles | FilesToNepomuk | DisplayNepomuk | ClearNepomuk
    | AmarokToFiles | FilesToAmarok | DisplayAmarok | QueryAmarok

  /** One argument as main's loop reads it; the query text after -qa is read
      together with it. */
  datatype Word =
    | ActionFlag(action: Action)
    | QueryFlag(query: string)
    | QueryMissing
    | RecursiveFlag
    | ForceFlag
    | HelpFlag
    | VerboseFlag
    | Directory(path: string)
    | Ignored

  /** The action flags other than -qa, in their short and long spellings. */
  function ActionNamed(arg: string): Option<Action> {
    if arg == "-nf" || arg == "--nepomuk-to-files" then Some(NepomukToFiles)
    else if arg == "-fn" || arg == "--files-to-nepomuk" then Some(FilesToNepomuk)
    else if arg == "-dn" || arg == "--display-nepomuk" then Some(DisplayNepomuk)
    else if arg == "-cn" || arg == "--clear-nepomuk" then Some(ClearNepomuk)
    else if arg == "-af" || arg == "--amarok-to-files" then Some(AmarokToFiles)
    else if arg == "-fa" || arg == "--files-to-amarok" then Some(FilesToAmarok)
    else if arg == "-da" || arg == "--display-amarok" then Some(DisplayAmarok)
    else None
  }

  predicate IsQueryFlag(arg: string) {
    arg == "-qa" || arg == "--query-amarok"
  }

  predicate IsHelpFlag(arg: string) {
    arg == "-h" || arg == "--help"
  }

  predicate IsForceFlag(arg: string) {
    arg == "-f" || arg == "--force"
  }

  /** argv[i][0] == '-' (an empty argument does not start with '-'). */
  predicate StartsWithDash(arg: string) {
    |arg| > 0 && arg[0] == '-'
  }

  /** How an argument other than -qa is read. */
  function ClassifyArg(arg: string): (w: Word)
    ensures !w.QueryFlag? && w != QueryMissing
    ensures w == HelpFlag <==> IsHelpFlag(arg)
    ensures w == ForceFlag <==> IsForceFlag(arg)
    ensures w.ActionFlag? <==> ActionNamed(arg).Some?
  {
    if ActionNamed(arg).Some? then ActionFlag(ActionNamed(arg).value)
    else if arg == "-r" || arg == "--recursive" then RecursiveFlag
    else if IsForceFlag(arg) then ForceFlag
    else if IsHelpFlag(arg) then HelpFlag
    else if arg == "-V" || arg == "--verbose" then VerboseFlag
    else if !StartsWithDash(arg) then Directory(arg)
    else Ignored
  }

  /** The words main's loop reads; reading stops at a -qa without a query. */
  function Tokenize(args: seq<string>): seq<Word>
    decreases |args|
  {
    if args == [] then []
    else if IsQueryFlag(args[0]) then
      if |args| == 1 || StartsWithDash(args[1]) then [QueryMissing]
      else [QueryFlag(args[1])] + Tokenize(args[2..])
    else [ClassifyArg(args[0])] + Tokenize(args[1..])
  }

  /** Words that end the program inside the loop. */
  predicate IsStop(w: Word) {
    w == HelpFlag || w == QueryMissing
  }

  /** Words counted in nbActions. */
  predicate IsAction(w: Word) {
    w.ActionFlag? || w.QueryFlag?
  }

  function ActionOfWord(w: Word): Action
    requires IsAction(w)
  {
    if w.QueryFlag? then QueryAmarok else w.action
  }

  function FirstStop(ws: seq<Word>): (r: Option<Word>)
    ensures r.Some? ==> IsStop(r.value) && r.value in ws
  {
    if ws == [] then None
    else if IsStop(ws[0]) then Some(ws[0])
    else FirstStop(ws[1..])
  }

  function ActionCount(ws: seq<Word>): nat {
    if ws == [] then 0
    else ActionCount(ws[..|ws| - 1]) + (if IsAction(ws[|ws| - 1]) then 1 else 0)
  }

  function LastAction(ws: seq<Word>): Option<Action> {
    if ws == [] then None
    else if IsAction(ws[|ws| - 1]) then Some(ActionOfWord(ws[|ws| - 1]))
    else LastAction(ws[..|ws| - 1])
  }

  /** amarokQuery: the text of the last -qa, or empty. */
  function QueryText(ws: seq<Word>): string {
    if ws == [] then ""
    else if ws[|ws| - 1].QueryFlag? then ws[|ws| - 1].query
    else QueryText(ws[..|ws| - 1])
  }

  /** workingDirectory: the last directory argument, if any. */
  function LastDirectory(ws: seq<Word>): Option<string> {
    if ws == [] then None
    else if ws[|ws| - 1].Directory? then Some(ws[|ws| - 1].path)
    else LastDirectory(ws[..|ws| - 1])
  }

  datatype Options = Options(
    action: Action,
    query: string,
    force: bool,
    recursive: bool,
    verbose: bool,
    directory: Option<string>)

  /** What the argument handling decides: end the program (with the usage
      text, a missing query, or too many actions) or run one action. */
  datatype Invocation =
    | ShowUsage
    | MissingQueryError
    | TooManyActions
    | Run(options: Options)

  function ExitCode(inv: Invocation): int
    requires !inv.Run?
  {
    if inv == ShowUsage then 0 else 1
  }

  /** The decision main reaches from the words it read. */
  function Interpret(ws: seq<Word>): Invocation {
    match FirstStop(ws)
    case Some(HelpFlag) => ShowUsage
    case Some(_) => MissingQueryError
    case None =>
      var n := ActionCount(ws);
      if n == 0 then ShowUsage
      else if n > 1 then TooManyActions
      else Run(Options(LastAction(ws).GetOr(QueryAmarok), QueryText(ws), ForceFlag in ws,
                       RecursiveFlag in ws, VerboseFlag in ws, LastDirectory(ws)))
  }

  lemma AppendWord(ws: seq<Word>, w: Word)
    ensures ActionCount(ws + [w]) == ActionCount(ws) + (if IsAction(w) then 1 else 0)
    ensures LastAction(ws + [w]) == if IsAction(w) then Some(ActionOfWord(w)) else LastAction(ws)
    ensures QueryText(ws + [w]) == if w.QueryFlag? then w.query else QueryText(ws)
    ensures LastDirectory(ws + [w]) == if w.Directory? then Some(w.path) else LastDirectory(ws)
  {
    assert (ws + [w])[..|ws|] == ws;
  }

  lemma {:induction false} FirstStopAfterPlain(a: seq<Word>, b: seq<Word>)
    requires forall k :: 0 <= k < |a| ==> !IsStop(a[k])
    ensures FirstStop(a + b) == FirstStop(b)
    decreases |a|
  {
    if a == [] {
      assert a + b == b;
    } else {
      assert (a + b)[1..] == a[1..] + b;
      FirstStopAfterPlain(a[1..], b);
    }
  }

  /** The first stop word decides, whatever follows it. */
  lemma StopDecides(done: seq<Word>, w: Word, tail: seq<Word>)
    requires forall k :: 0 <= k < |done| ==> !IsStop(done[k])
    requires IsStop(w)
    ensures Interpret(done + ([w] + tail)) == if w == HelpFlag then ShowUsage else MissingQueryError
  {
    FirstStopAfterPlain(done, [w] + tail);
    assert ([w] + tail)[0] == w;
  }

  lemma TokenizeMissing(args: seq<string>, i: nat)
    requires i < |args| && IsQueryFlag(args[i])
    requires i + 1 == |args| || StartsWithDash(args[i + 1])
    ensures Tokenize(args[i..]) == [QueryMissing]
  {
    assert args[i..][0] == args[i];
    assert |args[i..]| > 1 ==> args[i..][1] == args[i + 1];
  }

  lemma TokenizeQuery(args: seq<string>, i: nat)
    requires i + 1 < |args| && IsQueryFlag(args[i]) && !StartsWithDash(args[i + 1])
    ensures Tokenize(args[i..]) == [QueryFlag(args[i + 1])] + Tokenize(args[i + 2..])
  {
    assert args[i..][0] == args[i] && args[i..][1] == args[i + 1];
    assert args[i..][2..] == args[i + 2..];
  }

  lemma TokenizePlainStep(args: seq<string>, i: nat)
    requires i < |args| && !IsQueryFlag(args[i])
    ensures Tokenize(args[i..]) == [ClassifyArg(args[i])] + Tokenize(args[i + 1..])
  {
    assert args[i..][0] == args[i];
    assert args[i..][1..] == args[i + 1..];
  }

  /** main's argument loop. */
  method ParseArguments(args: seq<string>) returns (inv: Invocation)
    ensures inv == Interpret(Tokenize(args))
  {
    var lastAction: Option<Action> := None;
    var amarokQuery := "";
    var forceCopy, recurseDirectories, isVerbose := false, false, false;
    var nbActions := 0;
    var workingDirectory: Option<string> := None;
    ghost var done: seq<Word> := [];
    var i := 0;
    assert done + Tokenize(args[i..]) == Tokenize(args) by {
      assert args[i..] == args;
    }
    while i < |args|
      invariant 0 <= i <= |args|
      invariant done + Tokenize(args[i..]) == Tokenize(args)
      invariant forall k :: 0 <= k < |done| ==> !IsStop(done[k])
      invariant nbActions == ActionCount(done) && lastAction == LastAction(done)
      invariant amarokQuery == QueryText(done) && workingDirectory == LastDirectory(done)
      invariant forceCopy == (ForceFlag in done) && recurseDirectories == (RecursiveFlag in done)
      invariant isVerbose == (VerboseFlag in done)
      decreases |args| - i
    {
      var arg := args[i];
      if IsQueryFlag(arg) {
        lastAction := Some(QueryAmarok);
        nbActions := nbActions + 1;
        if i + 1 == |args| || StartsWithDash(args[i + 1]) {
          TokenizeMissing(args, i);
          StopDecides(done, QueryMissing, []);
          assert [QueryMissing] + [] == [QueryMissing];
          return MissingQueryError;
        }
        amarokQuery := args[i + 1];
        TokenizeQuery(args, i);
        assert (done + [QueryFlag(args[i + 1])]) + Tokenize(args[i + 2..]) == done + Tokenize(args[i..]);
        AppendWord(done, QueryFlag(args[i + 1]));
        done := done + [QueryFlag(args[i + 1])];
        i := i + 2;
      } else {
        var w := ClassifyArg(arg);
        TokenizePlainStep(args, i);
        match w {
          case HelpFlag =>
            StopDecides(done, HelpFlag, Tokenize(args[i + 1..]));
            return ShowUsage;
          case ActionFlag(a) =>
            lastAction := Some(a);
            nbActions := nbActions + 1;
          case RecursiveFlag => recurseDirectories := true;
          case ForceFlag => forceCopy := true;
          case VerboseFlag => isVerbose := true;
          case Directory(d) => workingDirectory := Some(d);
          case _ =>
        }
        assert (done + [w]) + Tokenize(args[i + 1..]) == done + Tokenize(args[i..]);
        AppendWord(done, w);
        done := done + [w];
        i := i + 1;
      }
    }
    assert args[i..] == [];
    FirstStopAfterPlain(done, []);
    assert done + [] == done;
    if nbActions == 0 {
      inv := ShowUsage;
    } else if nbActions > 1 {
      inv := TooManyActions;
    } else {
      inv := Run(Options(lastAction.GetOr(QueryAmarok), amarokQuery, forceCopy, recurseDirectories,
                         isVerbose, workingDirectory));
    }
  }

  // ---------------------------------------------------------------------
  // Properties of the argument handling, stated over the raw arguments.

  /** The text read as a query never starts with '-'. */
  lemma {:induction false} QueryNeverDash(args: seq<string>, q: string)
    requires QueryFlag(q) in Tokenize(args)
    ensures !StartsWithDash(q) && q in args
    decreases |args|
  {
    if IsQueryFlag(args[0]) {
      if !(|args| == 1 || StartsWithDash(args[1])) && q != args[1] {
        QueryNeverDash(args[2..], q);
      }
    } else {
      QueryNeverDash(args[1..], q);
    }
  }

  /** A help word is read only from -h or --help. */
  lemma {:induction false} HelpWordFromHelpFlag(args: seq<string>)
    requires HelpFlag in Tokenize(args)
    ensures exists k :: 0 <= k < |args| && IsHelpFlag(args[k])
    decreases |args|
  {
    if IsQueryFlag(args[0]) {
      HelpWordFromHelpFlag(args[2..]);
      var k :| 0 <= k < |args[2..]| && IsHelpFlag(args[2..][k]);
      assert IsHelpFlag(args[k + 2]);
    } else if ClassifyArg(args[0]) == HelpFlag {
      assert IsHelpFlag(args[0]);
    } else {
      HelpWordFromHelpFlag(args[1..]);
      var k :| 0 <= k < |args[1..]| && IsHelpFlag(args[1..][k]);
      assert IsHelpFlag(args[k + 1]);
    }
  }

  /** A -qa in last position is always read as a missing query. */
  lemma {:induction false} TrailingQueryFlagIsMissing(args: seq<string>)
    requires |args| > 0 && IsQueryFlag(args[|args| - 1])
    ensures QueryMissing in Tokenize(args)
    decreases |args|
  {
    if IsQueryFlag(args[0]) {
      if !(|args| == 1 || StartsWithDash(args[1])) {
        assert |args| > 2;
        assert args[2..][|args[2..]| - 1] == args[|args| - 1];
        TrailingQueryFlagIsMissing(args[2..]);
      }
    } else {
      assert |args| > 1;
      assert args[1..][|args[1..]| - 1] == args[|args| - 1];
      TrailingQueryFlagIsMissing(args[1..]);
    }
  }

  lemma {:induction false} FirstStopIsMissing(ws: seq<Word>)
    requires QueryMissing in ws && HelpFlag !in ws
    ensures FirstStop(ws) == Some(QueryMissing)
    decreases |ws|
  {
    if ws[0] != QueryMissing {
      assert ws == [ws[0]] + ws[1..];
      FirstStopIsMissing(ws[1..]);
    }
  }

  /** -qa as the last argument ends the program with status 1, unless a help
      flag came earlier. */
  lemma QueryFlagNeedsQuery(args: seq<string>)
    requires |args| > 0 && IsQueryFlag(args[|args| - 1])
    requires forall k :: 0 <= k < |args| ==> !IsHelpFlag(args[k])
    ensures Interpret(Tokenize(args)) == MissingQueryError
    ensures ExitCode(Interpret(Tokenize(args))) == 1
  {
    TrailingQueryFlagIsMissing(args);
    if HelpFlag in Tokenize(args) {
      HelpWordFromHelpFlag(args);
    }
    FirstStopIsMissing(Tokenize(args));
  }

  /** The words read from arguments that hold no -qa: one per argument. */
  function Classified(args: seq<string>): (ws: seq<Word>)
    ensures |ws| == |args| && forall k :: 0 <= k < |args| ==> ws[k] == ClassifyArg(args[k])
  {
    seq(|args|, k requires 0 <= k < |args| => ClassifyArg(args[k]))
  }

  /** Up to the first -qa, the arguments are read one by one. */
  lemma {:induction false} TokenizePlainPrefix(args: seq<string>, i: nat)
    requires i <= |args|
    requires forall k :: 0 <= k < i ==> !IsQueryFlag(args[k])
    ensures Tokenize(args) == Classified(args[..i]) + Tokenize(args[i..])
    decreases i
  {
    if i == 0 {
      assert args[0..] == args;
      assert Classified(args[..0]) == [];
    } else {
      var before := Classified(args[..i - 1]);
      TokenizePlainPrefix(args, i - 1);
      TokenizePlainStep(args, i - 1);
      ClassifiedSnoc(args, i);
      Regroup(Tokenize(args), before, Tokenize(args[i - 1..]), ClassifyArg(args[i - 1]), Tokenize(args[i..]), Classified(args[..i]));
    }
  }

  lemma Regroup(all: seq<Word>, before: seq<Word>, from: seq<Word>, w: Word, rest: seq<Word>, upTo: seq<Word>)
    requires all == before + from && from == [w] + rest && upTo == before + [w]
    ensures all == upTo + rest
  {
    assert before + ([w] + rest) == (before + [w]) + rest;
  }

  lemma ClassifiedSnoc(args: seq<string>, i: nat)
    requires 0 < i <= |args|
    ensures Classified(args[..i]) == Classified(args[..i - 1]) + [ClassifyArg(args[i - 1])]
  {
    var a := Classified(args[..i]);
    var b := Classified(args[..i - 1]) + [ClassifyArg(args[i - 1])];
    assert |a| == |b|;
    forall k | 0 <= k < |a| ensures a[k] == b[k] {
      if k < i - 1 {
        assert args[..i][k] == args[..i - 1][k];
      }
    }
  }

  /** -qa followed by an argument starting with '-' ends the program with
      status 1, whatever comes after, when no help flag and no -qa came
      before it. */
  lemma QueryFollowedByDashRejected(args: seq<string>, i: nat)
    requires i + 1 < |args| && IsQueryFlag(args[i]) && StartsWithDash(args[i + 1])
    requires forall k :: 0 <= k < i ==> !IsHelpFlag(args[k]) && !IsQueryFlag(args[k])
    ensures Interpret(Tokenize(args)) == MissingQueryError
    ensures ExitCode(Interpret(Tokenize(args))) == 1
  {
    var done := Classified(args[..i]);
    TokenizePlainPrefix(args, i);
    TokenizeMissing(args, i);
    forall k | 0 <= k < |done| ensures !IsStop(done[k]) {
      assert done[k] == ClassifyArg(args[k]);
    }
    StopDecides(done, QueryMissing, []);
    assert [QueryMissing] + [] == [QueryMissing];
  }

  lemma {:induction false} NoActionWords(ws: seq<Word>)
    requires forall k :: 0 <= k < |ws| ==> !IsAction(ws[k])
    ensures ActionCount(ws) == 0
    decreases |ws|
  {
    if ws != [] {
      NoActionWords(ws[..|ws| - 1]);
    }
  }

  /** Words with no stop and no action show the usage text. */
  lemma PlainWordsShowUsage(ws: seq<Word>)
    requires forall k :: 0 <= k < |ws| ==> !IsStop(ws[k]) && !IsAction(ws[k])
    ensures Interpret(ws) == ShowUsage
  {
    NoActionWords(ws);
    FirstStopAfterPlain(ws, []);
    assert ws + [] == ws;
  }

  /** With no action flag, no -qa and no help flag, the usage text is shown
      and the program ends with status 0. */
  lemma NoActionShowsUsage(args: seq<string>)
    requires forall k :: 0 <= k < |args| ==> ActionNamed(args[k]).None? && !IsQueryFlag(args[k]) && !IsHelpFlag(args[k])
    ensures Interpret(Tokenize(args)) == ShowUsage
    ensures ExitCode(Interpret(Tokenize(args))) == 0
  {
    var ws := Tokenize(args);
    PlainTokenize(args);
    forall k | 0 <= k < |ws| ensures !IsStop(ws[k]) && !IsAction(ws[k]) {
      assert ws[k] == ClassifyArg(args[k]);
    }
    PlainWordsShowUsage(ws);
  }

  /** Without -qa every argument is read on its own. */
  lemma {:induction false} PlainTokenize(args: seq<string>)
    requires forall k :: 0 <= k < |args| ==> !IsQueryFlag(args[k])
    ensures |Tokenize(args)| == |args|
    ensures forall k :: 0 <= k < |args| ==> Tokenize(args)[k] == ClassifyArg(args[k])
    decreases |args|
  {
    if args != [] {
      PlainTokenize(args[1..]);
    }
  }

  lemma {:induction false} ActionCountPrefix(ws: seq<Word>, k: nat)
    requires k <= |ws|
    ensures ActionCount(ws[..k]) <= ActionCount(ws)
    decreases |ws| - k
  {
    if k < |ws| {
      ActionCountPrefix(ws, k + 1);
      assert ws[..k + 1][..k] == ws[..k];
    } else {
      assert ws[..k] == ws;
    }
  }

  lemma ActionCountStep(ws: seq<Word>, k: nat)
    requires k < |ws|
    ensures ActionCount(ws[..k + 1]) == ActionCount(ws[..k]) + (if IsAction(ws[k]) then 1 else 0)
  {
    assert ws[..k + 1][..k] == ws[..k];
  }

  /** Words with two actions and no stop are too many actions. */
  lemma TwoActionWords(ws: seq<Word>, i: nat, j: nat)
    requires i < j < |ws| && IsAction(ws[i]) && IsAction(ws[j])
    requires forall k :: 0 <= k < |ws| ==> !IsStop(ws[k])
    ensures Interpret(ws) == TooManyActions
  {
    ActionCountStep(ws, i);
    ActionCountStep(ws, j);
    ActionCountPrefix(ws[..j], i + 1);
    assert ws[..j][..i + 1] == ws[..i + 1];
    ActionCountPrefix(ws, j + 1);
    FirstStopAfterPlain(ws, []);
    assert ws + [] == ws;
  }

  /** Two action flags (other than -qa), with no help flag and no -qa
      anywhere, end the program with status 1 before any store is opened;
      giving the same action twice counts as two. */
  lemma TwoActionsRejected(args: seq<string>, i: nat, j: nat)
    requires i < j < |args|
    requires ActionNamed(args[i]).Some? && ActionNamed(args[j]).Some?
    requires forall k :: 0 <= k < |args| ==> !IsHelpFlag(args[k]) && !IsQueryFlag(args[k])
    ensures Interpret(Tokenize(args)) == TooManyActions
    ensures ExitCode(Interpret(Tokenize(args))) == 1
  {
    var ws := Tokenize(args);
    PlainTokenize(args);
    assert ws[i] == ClassifyArg(args[i]) && ws[j] == ClassifyArg(args[j]);
    forall k | 0 <= k < |ws| ensures !IsStop(ws[k]) {
      assert ws[k] == ClassifyArg(args[k]);
    }
    TwoActionWords(ws, i, j);
  }

  /** When an action runs, the force option is on exactly when -f or --force
      was given. */
  lemma {:induction false} ForceOption(args: seq<string>)
    requires Interpret(Tokenize(args)).Run?
    ensures Interpret(Tokenize(args)).options.force <==> exists k :: 0 <= k < |args| && IsForceFlag(args[k])
  {
    if QueryMissing in Tokenize(args) {
      StopFound(Tokenize(args), QueryMissing);
    }
    NoMissingForce(args);
  }

  /** A stop word anywhere is found by FirstStop. */
  lemma {:induction false} StopFound(ws: seq<Word>, w: Word)
    requires w in ws && IsStop(w)
    ensures FirstStop(ws).Some?
    decreases |ws|
  {
    if !IsStop(ws[0]) {
      assert ws == [ws[0]] + ws[1..];
      StopFound(ws[1..], w);
    }
  }

  lemma {:induction false} NoMissingForce(args: seq<string>)
    requires QueryMissing !in Tokenize(args)
    ensures ForceFlag in Tokenize(args) <==> exists k :: 0 <= k < |args| && IsForceFlag(args[k])
    decreases |args|
  {
    if args != [] {
      if IsQueryFlag(args[0]) {
        NoMissingForce(args[2..]);
        if exists k :: 0 <= k < |args[2..]| && IsForceFlag(args[2..][k]) {
          var k :| 0 <= k < |args[2..]| && IsForceFlag(args[2..][k]);
          assert IsForceFlag(args[k + 2]);
        }
        if exists k :: 0 <= k < |args| && IsForceFlag(args[k]) {
          var k :| 0 <= k < |args| && IsForceFlag(args[k]);
          assert k >= 2;
          assert IsForceFlag(args[2..][k - 2]);
        }
      } else {
        NoMissingForce(args[1..]);
        if exists k :: 0 <= k < |args[1..]| && IsForceFlag(args[1..][k]) {
          var k :| 0 <= k < |args[1..]| && IsForceFlag(args[1..][k]);
          assert IsForceFlag(args[k + 1]);
        }
        if exists k :: 1 <= k < |args| && IsForceFlag(args[k]) {
          var k :| 1 <= k < |args| && IsForceFlag(args[k]);
          assert IsForceFlag(args[1..][k - 1]);
        }
      }
    }
  }
}
