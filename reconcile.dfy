/** The per-file decisions of the six sync directions: given what the source
    store and the target store hold for one file, and the force option,
    what (if anything) is written to the target. */
module Reconcile {
  import opened Common
  import opened ID3Utilities
  import opened Keywords
  import opened Amarok

  // ---------------------------------------------------------------------
  // Optional ratings: Nepomuk <-> XMP, and ID3 -> Nepomuk

  /** A write to an optional rating: none, set to a value, or remove. */
  datatype RatingOp = NoOp | SetTo(value: nat) | Clear

  function ApplyOp(target: Option<nat>, op: RatingOp): Option<nat> {
    match op
    case NoOp => target
    case SetTo(v) => Some(v)
    case Clear => None
  }

  /** Copy an optional rating to an optional rating. A present source is
      written when the target is absent or different; an absent source clears
      a present target, and only under force. Used for Nepomuk to images,
      images to Nepomuk, and (with the ID3 rating read as absent when 0) MP3
      files to Nepomuk. */
  function MirrorRating(src: Option<nat>, dst: Option<nat>, force: bool): (op: RatingOp)
    ensures src.Some? ==> ApplyOp(dst, op) == src
    ensures src.None? && force ==> ApplyOp(dst, op) == None
    ensures src.None? && !force ==> op == NoOp
    ensures op != NoOp ==> ApplyOp(dst, op) != dst
    ensures op == Clear ==> src.None? && force && dst.Some?
  {
    match src
    case Some(r) => if dst.None? || dst.value != r then SetTo(r) else NoOp
    case None => if force && dst.Some? then Clear else NoOp
  }

  /** Once the write is done, the same decision writes nothing. */
  lemma MirrorIdempotent(src: Option<nat>, dst: Option<nat>, force: bool)
    ensures MirrorRating(src, ApplyOp(dst, MirrorRating(src, dst, force)), force) == NoOp
  {
  }

  /** The force option changes nothing when the source holds a rating. */
  lemma MirrorForceOnlyWhenSourceEmpty(src: Option<nat>, dst: Option<nat>)
    requires src.Some?
    ensures MirrorRating(src, dst, true) == MirrorRating(src, dst, false)
  {
  }

  /** A rating read as a plain number (getID3Rating's value, or Amarok's)
      seen as an optional rating: only a positive value counts. */
  function PositiveRating(rating: int): (r: Option<nat>)
    ensures r.Some? <==> rating > 0
    ensures r.Some? ==> r.value == rating
  {
    if rating > 0 then Some(rating as nat) else None
  }

  // ---------------------------------------------------------------------
  // Ratings written to MP3 files: Nepomuk -> files and Amarok -> files

  /** The value handed to setID3Rating, if any, given the source rating
      (absent when the source has none) and the file's current value. A
      source rating is written when it differs; with no source rating, force
      writes 0 to a file whose value is not 0. */
  function Id3Write(src: Option<nat>, id3: nat, force: bool): (v: Option<nat>)
    ensures src.Some? ==> (v.Some? <==> id3 != src.value) && (v.Some? ==> v.value == src.value)
    ensures src.None? ==> (v.Some? <==> force && id3 > 0) && (v.Some? ==> v.value == 0)
  {
    match src
    case Some(r) => if id3 != r then Some(r) else None
    case None => if force && id3 > 0 then Some(0) else None
  }

  /** The file after the write Id3Write decides (a failed write leaves it as
      it was). */
  function Id3After(f: Id3File, src: Option<nat>, force: bool): Id3File {
    match Id3Write(src, GetID3Rating(f), force)
    case None => f
    case Some(v) => SetID3Rating(f, v).1
  }

  /** A writable tagged file, once written, needs no second write, provided
      the source rating is on the 0..10 scale. */
  lemma Id3Idempotent(f: Id3File, src: Option<nat>, force: bool)
    requires f.hasId3v2 && !f.readOnly
    requires src.Some? ==> src.value <= CanonicalMax
    ensures Id3After(f, src, force).hasId3v2 && !Id3After(f, src, force).readOnly
    ensures Id3Write(src, GetID3Rating(Id3After(f, src, force)), force) == None
  {
    var v := Id3Write(src, GetID3Rating(f), force);
    if v.Some? {
      SetThenGet(f, v.value);
    }
  }

  /** A Nepomuk rating above the 0..10 scale is never stored as such: 11 is
      read back as 1, so it is written again on every run. */
  lemma Id3RatingAboveScale(f: Id3File)
    requires f.hasId3v2 && !f.readOnly
    ensures GetID3Rating(SetID3Rating(f, 11).1) == 1
    ensures Id3Write(Some(11), GetID3Rating(Id3After(f, Some(11), false)), false) == Some(11)
  {
    assert FromCanonical(11) == 281;
    assert NewPopm(11) == Popm("", 25, 0);
  }

  // ---------------------------------------------------------------------
  // Keywords: Nepomuk tags -> IPTC keywords

  /** The keyword list written to an image, if any: only when there are tags
      or force is on, and only when the sorted lists differ; the list written
      is the sorted tag labels. */
  function KeywordWrite(labels: seq<string>, keywords: seq<string>, force: bool): (r: Option<seq<string>>)
    ensures r.Some? <==> (labels != [] || force) && multiset(keywords) != multiset(labels)
    ensures r.Some? ==> Sorted(r.value) && multiset(r.value) == multiset(labels)
  {
    SortedDifferIffMultisetsDiffer(keywords, labels);
    SortSorted(labels);
    if (labels != [] || force) && Sort(keywords) != Sort(labels) then Some(Sort(labels)) else None
  }

  /** After writing, the keywords are left alone by the next run. */
  lemma KeywordIdempotent(labels: seq<string>, keywords: seq<string>, force: bool)
    ensures var after := KeywordWrite(labels, keywords, force).GetOr(keywords);
            KeywordWrite(labels, after, force) == None
  {
  }

  // ---------------------------------------------------------------------
  // Ratings written to Amarok: files -> Amarok

  /** The value handed to setRating, if any, given the file's ID3 rating and
      what getRating read. A positive ID3 rating is written only for a url
      Amarok knows and only when it differs; a zero ID3 rating under force
      writes that zero when Amarok holds a non-zero rating. */
  function AmarokWrite(id3: nat, seen: RatingRead, force: bool): (v: Option<int>)
    ensures v.Some? ==> v.value == id3 && v.value != seen.rating
    ensures id3 > 0 ==> (v.Some? <==> seen.present && id3 != seen.rating)
    ensures id3 == 0 ==> (v.Some? <==> force && seen.rating != 0)
  {
    if id3 > 0 then
      if !seen.present then None
      else if id3 != seen.rating then Some(id3) else None
    else if force then
      if seen.rating != 0 then Some(id3) else None
    else None
  }

  /** Every write goes to a url the collection knows, so setRating finds
      it. */
  lemma AmarokWriteKnownUrl(urls: map<string, int>, statistics: map<int, int>, url: string, id3: nat, force: bool)
    requires AmarokWrite(id3, RatingOf(urls, statistics, url), force).Some?
    ensures url in urls
  {
    var seen := RatingOf(urls, statistics, url);
    if id3 == 0 {
      NonZeroRatingIsKnown(urls, statistics, url);
    }
  }

  /** After the write, the same file asks for no further write. */
  lemma AmarokIdempotent(urls: map<string, int>, statistics: map<int, int>, url: string, id3: nat, force: bool)
    requires UniqueIds(urls)
    requires AmarokWrite(id3, RatingOf(urls, statistics, url), force).Some?
    ensures AmarokWrite(id3, RatingOf(urls, WithRating(urls, statistics, url, id3), url), force) == None
  {
    AmarokWriteKnownUrl(urls, statistics, url, id3, force);
    SetThenGetRating(urls, statistics, url, id3, url);
  }

  // ---------------------------------------------------------------------
  // Tags: IPTC keywords -> Nepomuk tags

  ghost predicate NoDuplicates(s: seq<string>) {
    forall i, j :: 0 <= i < j < |s| ==> s[i] != s[j]
  }

  /** The tags whose label is not listed, in tag order. With the keywords as
      the list it is what the remove loop collects; with the tags to remove as
      the list it is what removeProperty(hasTag, list) keeps. */
  function Without(tags: seq<string>, listed: seq<string>): (r: seq<string>)
    ensures forall t :: t in r <==> t in tags && t !in listed
  {
    if tags == [] then []
    else
      var t := tags[|tags| - 1];
      Without(tags[..|tags| - 1], listed) + (if t !in listed then [t] else [])
  }

  /** addTag: a statement already present is not added twice. */
  function AddTag(tags: seq<string>, t: string): (r: seq<string>)
    ensures forall x :: x in r <==> x in tags || x == t
  {
    if t in tags then tags else tags + [t]
  }

  /** The add loop: every keyword not among the original tags is added. */
  function AddMissing(tags: seq<string>, keywords: seq<string>, original: seq<string>): (r: seq<string>)
    ensures forall x :: x in r <==> x in tags || (x in keywords && x !in original)
  {
    if keywords == [] then tags
    else
      var k := keywords[|keywords| - 1];
      var init := AddMissing(tags, keywords[..|keywords| - 1], original);
      if k !in original then AddTag(init, k) else init
  }

  /** Removing tags never repeats a label. */
  lemma {:induction false} WithoutNoDuplicates(tags: seq<string>, removed: seq<string>)
    requires NoDuplicates(tags)
    ensures NoDuplicates(Without(tags, removed))
    decreases |tags|
  {
    if tags != [] {
      var init := tags[..|tags| - 1];
      assert NoDuplicates(init);
      WithoutNoDuplicates(init, removed);
    }
  }

  /** Adding the missing keywords never repeats a label. */
  lemma {:induction false} AddMissingNoDuplicates(tags: seq<string>, keywords: seq<string>, original: seq<string>)
    requires NoDuplicates(tags)
    ensures NoDuplicates(AddMissing(tags, keywords, original))
    decreases |keywords|
  {
    if keywords != [] {
      AddMissingNoDuplicates(tags, keywords[..|keywords| - 1], original);
    }
  }

  /** The tags after the files -> Nepomuk tag pass. */
  function ReconciledTags(tags: seq<string>, keywords: seq<string>): seq<string> {
    var removed := Without(tags, keywords);
    var kept := if removed != [] then Without(tags, removed) else tags;
    AddMissing(kept, keywords, tags)
  }

  /** Afterwards the tag labels are exactly the keywords, and no label is
      repeated that was not repeated before. */
  lemma ReconciledTagsAreKeywords(tags: seq<string>, keywords: seq<string>)
    ensures forall t :: t in ReconciledTags(tags, keywords) <==> t in keywords
    ensures NoDuplicates(tags) ==> NoDuplicates(ReconciledTags(tags, keywords))
  {
    if NoDuplicates(tags) {
      var removed := Without(tags, keywords);
      WithoutNoDuplicates(tags, removed);
      var kept := if removed != [] then Without(tags, removed) else tags;
      AddMissingNoDuplicates(kept, keywords, tags);
    }
  }

  lemma {:induction false} AddMissingNothing(tags: seq<string>, keywords: seq<string>, original: seq<string>)
    requires forall k :: k in keywords ==> k in original
    ensures AddMissing(tags, keywords, original) == tags
    decreases |keywords|
  {
    if keywords != [] {
      AddMissingNothing(tags, keywords[..|keywords| - 1], original);
    }
  }

  /** Nothing is left when every tag is listed. */
  lemma {:induction false} WithoutNone(tags: seq<string>, listed: seq<string>)
    requires forall t :: t in tags ==> t in listed
    ensures Without(tags, listed) == []
    decreases |tags|
  {
    if tags != [] {
      assert tags[|tags| - 1] in tags;
      WithoutNone(tags[..|tags| - 1], listed);
    }
  }

  /** A second pass with the same keywords changes nothing. */
  lemma ReconciledTagsIdempotent(tags: seq<string>, keywords: seq<string>)
    ensures ReconciledTags(ReconciledTags(tags, keywords), keywords) == ReconciledTags(tags, keywords)
  {
    var once := ReconciledTags(tags, keywords);
    WithoutNone(once, keywords);
    AddMissingNothing(once, keywords, once);
  }

  /** The files -> Nepomuk tag pass: collect the tags to remove, remove them
      in one call, then add each keyword the file did not have. */
  method ReconcileTags(fileTags: seq<string>, keywords: seq<string>) returns (tagsToRemove: seq<string>, tags: seq<string>)
    ensures tagsToRemove == Without(fileTags, keywords)
    ensures tags == ReconciledTags(fileTags, keywords)
  {
    tagsToRemove := [];
    var i := 0;
    while i < |fileTags|
      invariant 0 <= i <= |fileTags|
      invariant tagsToRemove == Without(fileTags[..i], keywords)
    {
      assert fileTags[..i + 1][..i] == fileTags[..i];
      if fileTags[i] !in keywords {
        tagsToRemove := tagsToRemove + [fileTags[i]];
      }
      i := i + 1;
    }
    assert fileTags[..i] == fileTags;
    tags := fileTags;
    if tagsToRemove != [] {
      tags := Without(fileTags, tagsToRemove);
    }
    ghost var kept := tags;
    var j := 0;
    while j < |keywords|
      invariant 0 <= j <= |keywords|
      invariant tags == AddMissing(kept, keywords[..j], fileTags)
    {
      assert keywords[..j + 1][..j] == keywords[..j];
      if keywords[j] !in fileTags {
        tags := AddTag(tags, keywords[j]);
      }
      j := j + 1;
    }
    assert keywords[..j] == keywords;
  }
}
