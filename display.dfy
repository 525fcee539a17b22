/** display-amarok: list the rated tracks of the working directory (or of
    the whole tree under it, with -r).

    main asks getAllRating for every path starting with "." followed by the
    directory, then keeps, unless recursive, the paths with exactly one more
    '/' than the directory. Written that way the filter also shows tracks of
    a sibling directory whose name extends the directory's ("/home/x" and
    "/home/xy"), and shows nothing of a directory given with a trailing '/'.
    Both are modelled as written and exhibited below; the corrected filter,
    which asks for the directory followed by one '/', is the one DisplayAmarok
    uses, and it shows exactly the rated tracks inside the directory. */
module Display {
  import opened Common
  import opened Amarok

  // ---------------------------------------------------------------------
  // As written

  /** The depth test of main on one path: one more '/' than the directory. */
  predicate OneLevelBelow(key: string, dir: string) {
    CountChar(key, '/') == CountChar(dir, '/') + 1
  }

  /** The entries kept from getAllRating's map by the depth test. */
  function Keep(ratings: map<string, int>, keys: set<string>, dir: string, recursive: bool): (m: map<string, int>)
    ensures forall u :: u in m <==> u in keys && u in ratings && (recursive || OneLevelBelow(u, dir))
    ensures forall u :: u in m ==> m[u] == ratings[u]
  {
    map u | u in keys && u in ratings && (recursive || OneLevelBelow(u, dir)) :: ratings[u]
  }

  /** What display-amarok shows as written: the prefix is "." and the
      directory, with no separator after it. */
  function ShownAsWritten(urls: map<string, int>, statistics: map<int, int>, dir: string, recursive: bool): (m: map<string, int>)
    ensures forall u :: u in m ==> ("." + dir) <= u && m[u] > 0 && m[u] == RatingOf(urls, statistics, u).rating
  {
    var ratings := PositiveRatings(urls, statistics, RowsUnder(urls, statistics, "." + dir));
    forall u | u in ratings
      ensures ("." + dir) <= u && ratings[u] > 0 && ratings[u] == RatingOf(urls, statistics, u).rating
    {
      AllRatingUnderPrefix(urls, statistics, "." + dir, map[], u);
      assert map[] + ratings == ratings;
    }
    Keep(ratings, ratings.Keys, dir, recursive)
  }

  lemma Slash()
    ensures CountChar("/", '/') == 1 && CountChar("./", '/') == 1
  {
    assert "/"[..0] == [];
    assert "./"[..1] == ".";
  }

  lemma SlashesInDirectory(a: string, b: string)
    requires '/' !in a && '/' !in b
    ensures CountChar("/" + a + "/" + b, '/') == 2
  {
    Slash();
    CountCharAppend("/" + a + "/", b, '/');
    CountCharAppend("/" + a, "/", '/');
    CountCharAppend("/", a, '/');
  }

  lemma SlashesInPath(a: string, b: string, c: string)
    requires '/' !in a && '/' !in b && '/' !in c
    ensures CountChar("./" + a + "/" + b + "/" + c, '/') == 3
  {
    Slash();
    CountCharAppend("./" + a + "/" + b + "/", c, '/');
    CountCharAppend("./" + a + "/" + b, "/", '/');
    CountCharAppend("./" + a + "/", b, '/');
    CountCharAppend("./" + a, "/", '/');
    CountCharAppend("./", a, '/');
  }

  /** With the directory "/home/x", a rated track of "/home/xy" is shown even
      without -r: it starts with "./home/x" and has three '/' like the
      direct children of "/home/x". */
  lemma AsWrittenShowsSiblingDirectory()
    ensures var urls := map["./home/xy/a.mp3" := 1];
            var statistics := map[1 := 8];
            "./home/xy/a.mp3" in ShownAsWritten(urls, statistics, "/home/x", false)
  {
    var urls := map["./home/xy/a.mp3" := 1];
    var statistics := map[1 := 8];
    var u := "./home/xy/a.mp3";
    assert u == ("." + "/home/x") + "y/a.mp3";
    AllRatingUnderPrefix(urls, statistics, "." + "/home/x", map[], u);
    assert u == "./" + "home" + "/" + "xy" + "/" + "a.mp3";
    SlashesInPath("home", "xy", "a.mp3");
    assert "/home/x" == "/" + "home" + "/" + "x";
    SlashesInDirectory("home", "x");
  }

  /** With the directory given as "/home/x/", no direct child is shown
      without -r: "./home/x/a.mp3" has three '/' where the test asks for
      four. */
  lemma AsWrittenHidesChildrenAfterTrailingSlash()
    ensures var urls := map["./home/x/a.mp3" := 1];
            var statistics := map[1 := 8];
            ShownAsWritten(urls, statistics, "/home/x/", false) == map[]
  {
    var urls := map["./home/x/a.mp3" := 1];
    var statistics := map[1 := 8];
    var u := "./home/x/a.mp3";
    var m := ShownAsWritten(urls, statistics, "/home/x/", false);
    forall k | k in m
      ensures k == u && OneLevelBelow(k, "/home/x/")
    {
      assert RatingOf(urls, statistics, k).rating > 0;
    }
    assert u == "./" + "home" + "/" + "x" + "/" + "a.mp3";
    SlashesInPath("home", "x", "a.mp3");
    assert "/home/x/" == "/" + "home" + "/" + "x" + "/";
    SlashesInDirectory("home", "x");
    CountCharAppend("/" + "home" + "/" + "x", "/", '/');
    assert !OneLevelBelow(u, "/home/x/");
    assert m.Keys == {};
  }

  // ---------------------------------------------------------------------
  // Corrected

  /** The directory without its trailing separators. */
  function Trimmed(dir: string): (t: string)
    ensures |t| <= |dir| && t == dir[..|t|]
    ensures t == [] || t[|t| - 1] != '/'
  {
    if |dir| > 0 && dir[|dir| - 1] == '/' then Trimmed(dir[..|dir| - 1]) else dir
  }

  /** The url prefix of the files inside the directory: "." then the
      directory then exactly one '/'. */
  function DirPrefix(dir: string): (p: string)
    ensures |p| > 0 && p[|p| - 1] == '/'
  {
    "." + Trimmed(dir) + "/"
  }

  /** What display-amarok shows once corrected. */
  function ShownCorrected(urls: map<string, int>, statistics: map<int, int>, dir: string, recursive: bool): map<string, int> {
    var ratings := PositiveRatings(urls, statistics, RowsUnder(urls, statistics, DirPrefix(dir)));
    Keep(ratings, ratings.Keys, Trimmed(dir), recursive)
  }

  /** Below the corrected prefix, the depth test holds exactly for the paths
      with no further '/'. */
  lemma DepthMeansDirectChild(u: string, dir: string)
    requires DirPrefix(dir) <= u
    ensures OneLevelBelow(u, Trimmed(dir)) <==> '/' !in u[|DirPrefix(dir)|..]
  {
    var t := Trimmed(dir);
    var p := DirPrefix(dir);
    var rest := u[|p|..];
    assert u == "." + t + "/" + rest;
    CountCharAppend("." + t + "/", rest, '/');
    CountCharAppend("." + t, "/", '/');
    CountCharAppend(".", t, '/');
  }

  /** The corrected display shows a track exactly when it is rated and inside
      the directory (and, without -r, directly inside it), with its
      rating. */
  lemma CorrectedShowsExactlyDirectory(urls: map<string, int>, statistics: map<int, int>, dir: string, recursive: bool, u: string)
    ensures var shown := ShownCorrected(urls, statistics, dir, recursive);
            var p := DirPrefix(dir);
            (u in shown <==>
              RatingOf(urls, statistics, u).rating > 0 && p <= u && (recursive || '/' !in u[|p|..]))
            && (u in shown ==> shown[u] == RatingOf(urls, statistics, u).rating)
  {
    var p := DirPrefix(dir);
    AllRatingUnderPrefix(urls, statistics, p, map[], u);
    var ratings := PositiveRatings(urls, statistics, RowsUnder(urls, statistics, p));
    assert map[] + ratings == ratings;
    if p <= u {
      DepthMeansDirectChild(u, dir);
    }
  }

  /** Keeping one more key extends the kept map by that key when it passes
      the test. */
  lemma KeepStep(ratings: map<string, int>, done: set<string>, u: string, dir: string, recursive: bool)
    requires u in ratings
    ensures Keep(ratings, done + {u}, dir, recursive) ==
      if recursive || OneLevelBelow(u, dir) then Keep(ratings, done, dir, recursive)[u := ratings[u]]
      else Keep(ratings, done, dir, recursive)
  {
  }

  lemma EmptyUnion(m: map<string, int>)
    ensures map[] + m == m
  {
  }

  /** display-amarok, corrected: the map of the lines printed, path to
      rating. */
  method DisplayAmarok(amarokDb: AmarokCollection, workingDirectory: string, recurseDirectories: bool)
    returns (shown: map<string, int>)
    ensures amarokDb.online ==> shown == ShownCorrected(amarokDb.urls, amarokDb.statistics, workingDirectory, recurseDirectories)
    ensures !amarokDb.online ==> shown == map[]
  {
    var dir := Trimmed(workingDirectory);
    var ok, ratings := amarokDb.GetAllRating(DirPrefix(workingDirectory), map[]);
    shown := map[];
    if !ok {
      // The map handed to getAllRating stays empty: nothing is printed.
      return;
    }
    EmptyUnion(PositiveRatings(amarokDb.urls, amarokDb.statistics,
                               RowsUnder(amarokDb.urls, amarokDb.statistics, DirPrefix(workingDirectory))));
    var pending := ratings.Keys;
    ghost var done: set<string> := {};
    while pending != {}
      invariant done + pending == ratings.Keys && done !! pending
      invariant shown == Keep(ratings, done, dir, recurseDirectories)
      decreases |pending|
    {
      var key :| key in pending;
      KeepStep(ratings, done, key, dir, recurseDirectories);
      if recurseDirectories || CountChar(key, '/') == CountChar(dir, '/') + 1 {
        shown := shown[key := ratings[key]];
      }
      assert (done + {key}) + (pending - {key}) == done + pending;
      pending := pending - {key};
      done := done + {key};
    }
    assert done == ratings.Keys;
  }
}
