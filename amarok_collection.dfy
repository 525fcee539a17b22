/** The Amarok collection database, seen as two tables.

    `urls` maps each track's relative path (rpath, "./home/...") to its url
    id; `statistics` maps a url id to the rating stored in its statistics row.
    A url id without a statistics row is a track Amarok knows but has never
    rated. `online` says whether the embedded MySQL server accepts queries at
    all; when it does not, every operation fails without touching the tables.
    The SQL text the program builds is not modelled, only what it selects and
    writes. */
module Amarok {
  import opened Common

  /** The (present, rating) pair getRating reports. */
  datatype RatingRead = RatingRead(present: bool, rating: int)

  /** Url ids are the primary key of `urls`: two paths never share one. */
  ghost predicate UniqueIds(urls: map<string, int>) {
    forall a, b :: a in urls && b in urls && a != b ==> urls[a] != urls[b]
  }

  /** What `SELECT s.rating FROM urls u LEFT OUTER JOIN statistics s ...`
      yields for one path: nothing, a NULL rating, or the stored rating. */
  function RatingOf(urls: map<string, int>, statistics: map<int, int>, url: string): RatingRead {
    if url !in urls then RatingRead(false, 0)
    else if urls[url] !in statistics then RatingRead(true, 0)
    else RatingRead(true, statistics[urls[url]])
  }

  /** Only a known url can carry a non-zero rating. */
  lemma NonZeroRatingIsKnown(urls: map<string, int>, statistics: map<int, int>, url: string)
    requires RatingOf(urls, statistics, url).rating != 0
    ensures RatingOf(urls, statistics, url).present && url in urls
  {
  }

  /** The statistics table after setRating(url, rating) on a known url: the
      row of that url's id is inserted or updated. */
  function WithRating(urls: map<string, int>, statistics: map<int, int>, url: string, rating: int): (s: map<int, int>)
    requires url in urls
    ensures s.Keys == statistics.Keys + {urls[url]}
  {
    statistics[urls[url] := rating]
  }

  /** After setRating, getRating gives (true, rating) for that url and the
      same as before for every other url. */
  lemma SetThenGetRating(urls: map<string, int>, statistics: map<int, int>, url: string, rating: int, other: string)
    requires UniqueIds(urls) && url in urls
    ensures RatingOf(urls, WithRating(urls, statistics, url, rating), url) == RatingRead(true, rating)
    ensures other != url ==>
      RatingOf(urls, WithRating(urls, statistics, url, rating), other) == RatingOf(urls, statistics, other)
  {
    if other != url && other in urls {
      assert urls[other] != urls[url];
    }
  }

  /** The paths the getAllRating query returns: under the prefix and with a
      statistics row. */
  function RowsUnder(urls: map<string, int>, statistics: map<int, int>, prefix: string): (rows: set<string>)
    ensures forall u :: u in rows ==> u in urls && prefix <= u && urls[u] in statistics
  {
    set u | u in urls && prefix <= u && urls[u] in statistics
  }

  /** The entries getAllRating adds for the given rows: those rated above 0. */
  function PositiveRatings(urls: map<string, int>, statistics: map<int, int>, rows: set<string>): (m: map<string, int>)
    requires forall u :: u in rows ==> u in urls && urls[u] in statistics
    ensures forall u :: u in m ==> u in rows && m[u] == statistics[urls[u]] && m[u] > 0
    ensures forall u :: u in rows && statistics[urls[u]] > 0 ==> u in m
  {
    map u | u in rows && statistics[urls[u]] > 0 :: statistics[urls[u]]
  }

  /** Handling one more row extends the map by that row when its rating is
      above 0. */
  lemma PositiveRatingsStep(urls: map<string, int>, statistics: map<int, int>, done: set<string>, u: string)
    requires forall v :: v in done ==> v in urls && urls[v] in statistics
    requires u in urls && urls[u] in statistics && u !in done
    ensures PositiveRatings(urls, statistics, done + {u}) ==
      if statistics[urls[u]] > 0 then PositiveRatings(urls, statistics, done)[u := statistics[urls[u]]]
      else PositiveRatings(urls, statistics, done)
  {
  }

  /** What getAllRating adds to its output map: only paths under the prefix,
      only ratings above 0, each the rating stored for that path; and every
      such path is added. */
  lemma AllRatingUnderPrefix(urls: map<string, int>, statistics: map<int, int>, prefix: string, ratings: map<string, int>, u: string)
    ensures var out := ratings + PositiveRatings(urls, statistics, RowsUnder(urls, statistics, prefix));
      && (u in out && u !in ratings ==> prefix <= u && out[u] > 0 && out[u] == RatingOf(urls, statistics, u).rating)
      && (prefix <= u && RatingOf(urls, statistics, u).rating > 0 ==> u in out && out[u] == RatingOf(urls, statistics, u).rating)
  {
  }

  lemma UnionUpdate(a: map<string, int>, b: map<string, int>, k: string, v: int)
    ensures (a + b)[k := v] == a + b[k := v]
  {
  }

  /** A result set as the MySQL client library hands it over: column names and
      rows, a NULL field being None. */
  datatype ResultSet = ResultSet(fields: seq<string>, rows: seq<seq<Option<string>>>)

  ghost predicate WellFormed(rs: ResultSet) {
    forall k :: 0 <= k < |rs.rows| ==> |rs.rows[k]| == |rs.fields|
  }

  /** A field as appended to a QString: a NULL field adds nothing. */
  function Cell(c: Option<string>): string {
    c.GetOr("")
  }

  function Cells(row: seq<Option<string>>): (r: seq<string>)
    ensures |r| == |row| && forall i :: 0 <= i < |row| ==> r[i] == Cell(row[i])
  {
    seq(|row|, i requires 0 <= i < |row| => Cell(row[i]))
  }

  /** Fields joined by ",", built left to right as query() does. */
  function Join(cells: seq<string>): string {
    if |cells| == 0 then ""
    else if |cells| == 1 then cells[0]
    else Join(cells[..|cells| - 1]) + "," + cells[|cells| - 1]
  }

  /** Cutting a line at every ",": the inverse of Join. */
  function Split(line: string): (r: seq<string>)
    ensures |r| > 0
  {
    if line == [] then [""]
    else
      var rest := Split(line[1..]);
      if line[0] == ',' then [""] + rest
      else [[line[0]] + rest[0]] + rest[1..]
  }

  lemma {:induction false} SplitConcat(a: string, b: string)
    ensures Split(a + "," + b) == Split(a) + Split(b)
    decreases |a|
  {
    if a == [] {
      assert a + "," + b == [','] + b;
      assert ([','] + b)[1..] == b;
    } else {
      assert (a + "," + b)[1..] == a[1..] + "," + b;
      SplitConcat(a[1..], b);
    }
  }

  lemma {:induction false} SplitNoComma(s: string)
    requires ',' !in s
    ensures Split(s) == [s]
    decreases |s|
  {
    if s != [] {
      SplitNoComma(s[1..]);
      assert s == [s[0]] + s[1..];
    }
  }

  /** Each line query() produces splits back into its fields, provided no
      field contains a comma. */
  lemma {:induction false} SplitJoin(cells: seq<string>)
    requires |cells| > 0
    requires forall i :: 0 <= i < |cells| ==> ',' !in cells[i]
    ensures Split(Join(cells)) == cells
    decreases |cells|
  {
    var n := |cells|;
    SplitNoComma(cells[n - 1]);
    if n > 1 {
      SplitJoin(cells[..n - 1]);
      SplitConcat(Join(cells[..n - 1]), cells[n - 1]);
      assert cells == cells[..n - 1] + [cells[n - 1]];
    }
  }

  class AmarokCollection {
    var urls: map<string, int>
    var statistics: map<int, int>
    var online: bool

    ghost predicate Valid()
      reads this
    {
      UniqueIds(urls)
    }

    /** A collection already connected (connect() itself is not modelled). */
    constructor (urls: map<string, int>, statistics: map<int, int>, online: bool)
      requires UniqueIds(urls)
      ensures Valid()
      ensures this.urls == urls && this.statistics == statistics && this.online == online
    {
      this.urls := urls;
      this.statistics := statistics;
      this.online := online;
    }

    /** getRating: outputs start as (false, 0) and stay so when the query
        fails or the path is unknown; a known path without a statistics row
        gives (true, 0); otherwise (true, stored rating). */
    method GetRating(url: string) returns (ok: bool, present: bool, rating: int)
      ensures ok == online
      ensures !ok ==> !present && rating == 0
      ensures ok ==> (present <==> url in urls)
      ensures ok && url !in urls ==> rating == 0
      ensures ok && url in urls && urls[url] !in statistics ==> rating == 0
      ensures ok && url in urls && urls[url] in statistics ==> rating == statistics[urls[url]]
      ensures ok ==> RatingRead(present, rating) == RatingOf(urls, statistics, url)
    {
      present := false;
      rating := 0;
      if !online {
        return false, present, rating;
      }
      if url in urls {
        present := true;
        if urls[url] in statistics {
          rating := statistics[urls[url]];
        }
      }
      ok := true;
    }

    /** setRating: the path must be in `urls`; then its statistics row is
        inserted when missing and updated otherwise. */
    method SetRating(url: string, rating: int) returns (ok: bool)
      requires Valid()
      modifies this`statistics
      ensures Valid()
      ensures ok <==> old(online) && url in urls
      ensures ok ==> statistics == WithRating(urls, old(statistics), url, rating)
      ensures !ok ==> statistics == old(statistics)
      ensures ok ==> RatingOf(urls, statistics, url) == RatingRead(true, rating)
      ensures forall other :: other != url ==> RatingOf(urls, statistics, other) == RatingOf(urls, old(statistics), other)
    {
      if !online || url !in urls {
        return false;
      }
      var id := urls[url];
      // Whether a statistics row exists decides between INSERT and UPDATE;
      // both leave `rating` as the row's value.
      if id !in statistics {
        statistics := statistics[id := rating];
      } else {
        statistics := statistics[id := rating];
      }
      forall other | other != url
        ensures RatingOf(urls, statistics, other) == RatingOf(urls, old(statistics), other)
      {
        SetThenGetRating(urls, old(statistics), url, rating, other);
      }
      SetThenGetRating(urls, old(statistics), url, rating, url);
      ok := true;
    }

    /** getAllRating: adds to `ratings` every path starting with `prefix`
        whose statistics row holds a rating above 0; other entries of
        `ratings` are kept. */
    method GetAllRating(prefix: string, ratings: map<string, int>) returns (ok: bool, out: map<string, int>)
      ensures ok == online
      ensures !ok ==> out == ratings
      ensures ok ==> out == ratings + PositiveRatings(urls, statistics, RowsUnder(urls, statistics, prefix))
    {
      if !online {
        return false, ratings;
      }
      var rows := RowsUnder(urls, statistics, prefix);
      var pending := rows;
      ghost var done: set<string> := {};
      out := ratings;
      while pending != {}
        invariant done + pending == rows && done !! pending
        invariant out == ratings + PositiveRatings(urls, statistics, done)
        decreases pending
      {
        var u :| u in pending;
        var rating := statistics[urls[u]];
        PositiveRatingsStep(urls, statistics, done, u);
        if rating > 0 {
          UnionUpdate(ratings, PositiveRatings(urls, statistics, done), u, rating);
          out := out[u := rating];
        }
        pending := pending - {u};
        done := done + {u};
      }
      ok := true;
    }

    /** query: on success, a header line of column names, then one line per
        row, each with its fields joined by ","; `result` keeps what it held
        before. `answer` is the result set the server produces for the query
        text, or None when it produces none. */
    method Query(answer: Option<ResultSet>, result: seq<string>) returns (ok: bool, out: seq<string>)
      requires answer.Some? ==> WellFormed(answer.value)
      ensures ok <==> online && answer.Some?
      ensures !ok ==> out == result
      ensures ok ==> |out| == |result| + |answer.value.rows| + 1
      ensures ok ==> out[..|result|] == result
      ensures ok ==> out[|result|] == Join(answer.value.fields)
      ensures ok ==> forall k :: 0 <= k < |answer.value.rows| ==>
                        out[|result| + 1 + k] == Join(Cells(answer.value.rows[k]))
    {
      if !online || answer.None? {
        return false, result;
      }
      var rs := answer.value;
      var numFields := |rs.fields|;
      var headers := "";
      for i := 0 to numFields
        invariant headers == Join(rs.fields[..i])
      {
        if i > 0 {
          headers := headers + ",";
        }
        headers := headers + rs.fields[i];
        assert rs.fields[..i + 1][..i] == rs.fields[..i];
      }
      assert rs.fields[..numFields] == rs.fields;
      out := result + [headers];
      for k := 0 to |rs.rows|
        invariant |out| == |result| + 1 + k
        invariant out[..|result|] == result
        invariant out[|result|] == Join(rs.fields)
        invariant forall j :: 0 <= j < k ==> out[|result| + 1 + j] == Join(Cells(rs.rows[j]))
      {
        var row := rs.rows[k];
        var line := "";
        for i := 0 to numFields
          invariant line == Join(Cells(row)[..i])
        {
          if i > 0 {
            line := line + ",";
          }
          line := line + Cell(row[i]);
          assert Cells(row)[..i + 1][..i] == Cells(row)[..i];
        }
        assert Cells(row)[..numFields] == Cells(row);
        out := out + [line];
      }
      ok := true;
    }
  }
}
