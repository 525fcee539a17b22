/** The action loops of main: each walks the directory entries in order and
    applies one sync direction to every file it handles. Each loop is a
    method proved equal to a fold of a per-file step function over the
    entries it has seen; the step functions are built from the decisions in
    module Reconcile, and their properties are proved below. */
module Driver {
  import opened Common
  import opened ID3Utilities
  import opened Keywords
  import opened Amarok
  import opened Stores
  import opened Reconcile

  // =====================================================================
  // Nepomuk -> files

  /** One file of the Nepomuk -> files loop. Images get the tag labels as
      keywords and the rating as XMP rating; MP3 files get the rating in
      their POPM frame. Nepomuk itself is only read. */
  function NfStep(w: World, e: Entry, force: bool): World {
    match Classify(e.suffix)
    case Image =>
      PutImage(w, e.path, NfImage(ResourceAt(w, e.path), ImageAt(w, e.path), force))
    case Audio =>
      PutMp3(w, e.path, Id3After(Mp3At(w, e.path), ResourceAt(w, e.path).rating, force))
    case OtherKind => w
  }

  /** An image's metadata after the Nepomuk -> files step. */
  function NfImage(res: NepomukResource, meta: ImageMeta, force: bool): ImageMeta {
    var meta1 := meta.(keywords := KeywordWrite(res.tags, meta.keywords, force).GetOr(meta.keywords));
    meta1.(xmpRating := ApplyOp(meta1.xmpRating, MirrorRating(res.rating, meta1.xmpRating, force)))
  }

  function NfRun(w: World, entries: seq<Entry>, force: bool): World {
    if entries == [] then w
    else NfStep(NfRun(w, entries[..|entries| - 1], force), entries[|entries| - 1], force)
  }

  method NepomukToFiles(w0: World, entries: seq<Entry>, force: bool) returns (w: World)
    ensures w == NfRun(w0, entries, force)
  {
    w := w0;
    var i := 0;
    while i < |entries|
      invariant 0 <= i <= |entries|
      invariant w == NfRun(w0, entries[..i], force)
    {
      var e := entries[i];
      assert entries[..i + 1][..i] == entries[..i];
      var kind := Classify(e.suffix);
      if kind == Image {
        w := NepomukToImage(w, e, force);
      } else if kind == Audio {
        w := NepomukToMp3(w, e, force);
      }
      i := i + 1;
    }
    assert entries[..i] == entries;
  }

  /** The image branch of the Nepomuk -> files loop: keywords first, then the
      XMP rating. */
  method NepomukToImage(w0: World, e: Entry, force: bool) returns (w: World)
    requires Classify(e.suffix) == Image
    ensures w == NfStep(w0, e, force)
  {
    var res := ResourceAt(w0, e.path);
    var meta := ImageAt(w0, e.path);
    if res.tags != [] || force {
      var oldKeywordsSorted := Sort(meta.keywords);
      var newKeywordsSorted := Sort(res.tags);
      if oldKeywordsSorted != newKeywordsSorted {
        meta := meta.(keywords := newKeywordsSorted);
      }
    }
    if res.rating.Some? {
      if meta.xmpRating.None? || meta.xmpRating.value != res.rating.value {
        meta := meta.(xmpRating := res.rating);
      }
    } else if force {
      if meta.xmpRating.Some? {
        meta := meta.(xmpRating := None);
      }
    }
    w := PutImage(w0, e.path, meta);
  }

  /** The MP3 branch of the Nepomuk -> files loop. */
  method NepomukToMp3(w0: World, e: Entry, force: bool) returns (w: World)
    requires Classify(e.suffix) == Audio
    ensures w == NfStep(w0, e, force)
  {
    var res := ResourceAt(w0, e.path);
    var file := Mp3At(w0, e.path);
    var id3rating := GetID3Rating(file);
    if res.rating.Some? {
      if id3rating != res.rating.value {
        file := SetID3Rating(file, res.rating.value).1;
      }
    } else if force {
      if id3rating > 0 {
        file := SetID3Rating(file, 0).1;
      }
    }
    w := PutMp3(w0, e.path, file);
  }

  /** Nepomuk -> files never writes to Nepomuk, and touches no image or MP3
      record other than those of the entries walked. */
  lemma {:induction false} NfRunFrame(w: World, entries: seq<Entry>, force: bool, p: string)
    requires forall k :: 0 <= k < |entries| ==> entries[k].path != p
    ensures NfRun(w, entries, force).nepomuk == w.nepomuk
    ensures ImageAt(NfRun(w, entries, force), p) == ImageAt(w, p)
    ensures Mp3At(NfRun(w, entries, force), p) == Mp3At(w, p)
    decreases |entries|
  {
    if entries != [] {
      NfRunFrame(w, entries[..|entries| - 1], force, p);
    }
  }

  /** What one image ends up holding: the sorted tag labels as keywords when
      there are tags (or force) and the keywords differ as a multiset, and the
      Nepomuk rating as XMP rating (removed under force when Nepomuk has
      none). */
  lemma NfImageEffect(w: World, e: Entry, force: bool)
    requires Classify(e.suffix) == Image
    ensures var res := ResourceAt(w, e.path);
            var before := ImageAt(w, e.path);
            var after := ImageAt(NfStep(w, e, force), e.path);
            (if (res.tags != [] || force) && multiset(before.keywords) != multiset(res.tags)
             then Sorted(after.keywords) && multiset(after.keywords) == multiset(res.tags)
             else after.keywords == before.keywords)
            && after.xmpRating == (if res.rating.Some? || force then res.rating else before.xmpRating)
  {
  }

  /** What one MP3 file ends up holding: when the write succeeds, exactly one
      POPM frame, read back as the Nepomuk rating (0 when cleared under
      force); the other frames are kept. */
  lemma NfAudioEffect(w: World, e: Entry, force: bool)
    requires Classify(e.suffix) == Audio
    requires var f := Mp3At(w, e.path); f.hasId3v2 && !f.readOnly
    requires var r := ResourceAt(w, e.path).rating; r.Some? ==> r.value <= CanonicalMax
    ensures var r := ResourceAt(w, e.path).rating;
            var before := Mp3At(w, e.path);
            var after := Mp3At(NfStep(w, e, force), e.path);
            OtherFrames(after.frames) == OtherFrames(before.frames)
            && (r.Some? ==> GetID3Rating(after) == r.value)
            && (r.None? && force ==> GetID3Rating(after) == 0)
            && (r.None? && !force ==> after == before)
  {
    var r := ResourceAt(w, e.path).rating;
    var f := Mp3At(w, e.path);
    var v := Id3Write(r, GetID3Rating(f), force);
    if v.Some? {
      SetThenGet(f, v.value);
    }
  }

  /** Repeating a file's step writes nothing new, for ratings on the 0..10
      scale. */
  lemma NfStepIdempotent(w: World, e: Entry, force: bool)
    requires var r := ResourceAt(w, e.path).rating; r.Some? ==> r.value <= CanonicalMax
    ensures NfStep(NfStep(w, e, force), e, force) == NfStep(w, e, force)
  {
    var w1 := NfStep(w, e, force);
    match Classify(e.suffix)
    case Image =>
      var res := ResourceAt(w, e.path);
      var meta := ImageAt(w, e.path);
      KeywordIdempotent(res.tags, meta.keywords, force);
      var meta1 := meta.(keywords := KeywordWrite(res.tags, meta.keywords, force).GetOr(meta.keywords));
      MirrorIdempotent(res.rating, meta1.xmpRating, force);
      assert NfImage(res, NfImage(res, meta, force), force) == NfImage(res, meta, force);
    case Audio =>
      var f := Mp3At(w, e.path);
      if f.hasId3v2 && !f.readOnly {
        Id3Idempotent(f, ResourceAt(w, e.path).rating, force);
      }
    case OtherKind =>
  }

  /** Nepomuk -> files never writes to Nepomuk. */
  lemma {:induction false} NfRunKeepsNepomuk(w: World, entries: seq<Entry>, force: bool)
    ensures NfRun(w, entries, force).nepomuk == w.nepomuk
    decreases |entries|
  {
    if entries != [] {
      NfRunKeepsNepomuk(w, entries[..|entries| - 1], force);
    }
  }

  /** The steps of two files with different paths can be taken in either
      order. */
  lemma NfStepsCommute(w: World, a: Entry, b: Entry, force: bool)
    requires a.path != b.path
    ensures NfStep(NfStep(w, a, force), b, force) == NfStep(NfStep(w, b, force), a, force)
  {
    NfStepElsewhere(w, a, b.path, force);
    NfStepElsewhere(w, b, a.path, force);
    var ma := NfImage(ResourceAt(w, a.path), ImageAt(w, a.path), force);
    var mb := NfImage(ResourceAt(w, b.path), ImageAt(w, b.path), force);
    var fa := Id3After(Mp3At(w, a.path), ResourceAt(w, a.path).rating, force);
    var fb := Id3After(Mp3At(w, b.path), ResourceAt(w, b.path).rating, force);
    match (Classify(a.suffix), Classify(b.suffix))
    case (Image, Image) => PutImagesCommute(w, a.path, ma, b.path, mb);
    case (Audio, Audio) => PutMp3sCommute(w, a.path, fa, b.path, fb);
    case (Image, Audio) => PutImageMp3Commute(w, a.path, ma, b.path, fb);
    case (Audio, Image) => PutImageMp3Commute(w, b.path, mb, a.path, fa);
    case _ =>
  }

  /** A file's step reads and writes nothing under another path. */
  lemma NfStepElsewhere(w: World, e: Entry, p: string, force: bool)
    requires p != e.path
    ensures var w' := NfStep(w, e, force);
            ResourceAt(w', p) == ResourceAt(w, p) && ImageAt(w', p) == ImageAt(w, p) && Mp3At(w', p) == Mp3At(w, p)
  {
  }

  lemma PutImagesCommute(w: World, p: string, m: ImageMeta, q: string, n: ImageMeta)
    requires p != q
    ensures PutImage(PutImage(w, p, m), q, n) == PutImage(PutImage(w, q, n), p, m)
  {
    assert w.images[p := m][q := n] == w.images[q := n][p := m];
  }

  lemma PutMp3sCommute(w: World, p: string, f: Id3File, q: string, g: Id3File)
    requires p != q
    ensures PutMp3(PutMp3(w, p, f), q, g) == PutMp3(PutMp3(w, q, g), p, f)
  {
    assert w.mp3s[p := f][q := g] == w.mp3s[q := g][p := f];
  }

  lemma PutImageMp3Commute(w: World, p: string, m: ImageMeta, q: string, g: Id3File)
    ensures PutImage(PutMp3(w, q, g), p, m) == PutMp3(PutImage(w, p, m), q, g)
  {
  }

  /** A walk over files with distinct paths leaves a world that each of its
      steps maps to itself. */
  lemma {:induction false} NfRunSettled(w: World, entries: seq<Entry>, force: bool, k: nat)
    requires k < |entries|
    requires forall i, j :: 0 <= i < j < |entries| ==> entries[i].path != entries[j].path
    requires forall i :: 0 <= i < |entries| ==> var r := ResourceAt(w, entries[i].path).rating;
               r.Some? ==> r.value <= CanonicalMax
    ensures NfStep(NfRun(w, entries, force), entries[k], force) == NfRun(w, entries, force)
    decreases |entries|
  {
    var init := entries[..|entries| - 1];
    var last := entries[|entries| - 1];
    var before := NfRun(w, init, force);
    NfRunKeepsNepomuk(w, init, force);
    if k == |entries| - 1 {
      NfStepIdempotent(before, last, force);
    } else {
      assert init[k] == entries[k];
      NfRunSettled(w, init, force, k);
      NfStepsCommute(before, last, entries[k], force);
    }
  }

  lemma {:induction false} NfRunStays(w: World, entries: seq<Entry>, force: bool)
    requires forall k :: 0 <= k < |entries| ==> NfStep(w, entries[k], force) == w
    ensures NfRun(w, entries, force) == w
    decreases |entries|
  {
    if entries != [] {
      NfRunStays(w, entries[..|entries| - 1], force);
    }
  }

  /** A second Nepomuk -> files run over the same files changes nothing, for
      files with distinct paths and Nepomuk ratings on the 0..10 scale. */
  lemma NfRunIdempotent(w: World, entries: seq<Entry>, force: bool)
    requires forall i, j :: 0 <= i < j < |entries| ==> entries[i].path != entries[j].path
    requires forall i :: 0 <= i < |entries| ==> var r := ResourceAt(w, entries[i].path).rating;
               r.Some? ==> r.value <= CanonicalMax
    ensures NfRun(NfRun(w, entries, force), entries, force) == NfRun(w, entries, force)
  {
    forall k | 0 <= k < |entries|
      ensures NfStep(NfRun(w, entries, force), entries[k], force) == NfRun(w, entries, force)
    {
      NfRunSettled(w, entries, force, k);
    }
    NfRunStays(NfRun(w, entries, force), entries, force);
  }

  // =====================================================================
  // Files -> Nepomuk

  /** One file of the files -> Nepomuk loop, which addresses Nepomuk by the
      absolute path. Images give their keywords as tags (when there are
      keywords or force) and their XMP rating; MP3 files give their POPM
      rating when it is positive. */
  function FnStep(w: World, e: Entry, force: bool): World {
    match Classify(e.suffix)
    case Image =>
      PutResource(w, e.absolutePath, FnImage(ImageAt(w, e.path), ResourceAt(w, e.absolutePath), force))
    case Audio =>
      PutResource(w, e.absolutePath, FnAudio(GetID3Rating(Mp3At(w, e.path)), ResourceAt(w, e.absolutePath), force))
    case OtherKind => w
  }

  /** An image's resource after the files -> Nepomuk step. */
  function FnImage(meta: ImageMeta, res: NepomukResource, force: bool): NepomukResource {
    var res1 := if meta.keywords != [] || force then res.(tags := ReconciledTags(res.tags, meta.keywords)) else res;
    res1.(rating := ApplyOp(res1.rating, MirrorRating(meta.xmpRating, res1.rating, force)))
  }

  /** An MP3 file's resource after the files -> Nepomuk step. */
  function FnAudio(id3rating: nat, res: NepomukResource, force: bool): NepomukResource {
    res.(rating := ApplyOp(res.rating, MirrorRating(PositiveRating(id3rating), res.rating, force)))
  }

  function FnRun(w: World, entries: seq<Entry>, force: bool): World {
    if entries == [] then w
    else FnStep(FnRun(w, entries[..|entries| - 1], force), entries[|entries| - 1], force)
  }

  method FilesToNepomuk(w0: World, entries: seq<Entry>, force: bool) returns (w: World)
    ensures w == FnRun(w0, entries, force)
  {
    w := w0;
    var i := 0;
    while i < |entries|
      invariant 0 <= i <= |entries|
      invariant w == FnRun(w0, entries[..i], force)
    {
      var e := entries[i];
      assert entries[..i + 1][..i] == entries[..i];
      var kind := Classify(e.suffix);
      if kind == Image {
        w := ImageToNepomuk(w, e, force);
      } else if kind == Audio {
        w := Mp3ToNepomuk(w, e, force);
      }
      i := i + 1;
    }
    assert entries[..i] == entries;
  }

  /** The image branch of the files -> Nepomuk loop: tags first, then the
      rating. */
  method ImageToNepomuk(w0: World, e: Entry, force: bool) returns (w: World)
    requires Classify(e.suffix) == Image
    ensures w == FnStep(w0, e, force)
  {
    var meta := ImageAt(w0, e.path);
    var res := ResourceAt(w0, e.absolutePath);
    if meta.keywords != [] || force {
      var tagsToRemove, tags := ReconcileTags(res.tags, meta.keywords);
      res := res.(tags := tags);
    }
    if meta.xmpRating.Some? {
      if res.rating.None? || meta.xmpRating.value != res.rating.value {
        res := res.(rating := meta.xmpRating);
      }
    } else if force {
      if res.rating.Some? {
        res := res.(rating := None);
      }
    }
    w := PutResource(w0, e.absolutePath, res);
  }

  /** The MP3 branch of the files -> Nepomuk loop. */
  method Mp3ToNepomuk(w0: World, e: Entry, force: bool) returns (w: World)
    requires Classify(e.suffix) == Audio
    ensures w == FnStep(w0, e, force)
  {
    var id3rating := GetID3Rating(Mp3At(w0, e.path));
    var res := ResourceAt(w0, e.absolutePath);
    if id3rating > 0 {
      if res.rating.None? || id3rating != res.rating.value {
        res := res.(rating := Some(id3rating));
      }
    } else if force {
      if res.rating.Some? {
        res := res.(rating := None);
      }
    }
    w := PutResource(w0, e.absolutePath, res);
  }

  /** Files -> Nepomuk never writes to a file, and touches no Nepomuk resource
      other than those of the entries walked. */
  lemma {:induction false} FnRunFrame(w: World, entries: seq<Entry>, force: bool, url: string)
    requires forall k :: 0 <= k < |entries| ==> entries[k].absolutePath != url
    ensures FnRun(w, entries, force).images == w.images
    ensures FnRun(w, entries, force).mp3s == w.mp3s
    ensures ResourceAt(FnRun(w, entries, force), url) == ResourceAt(w, url)
    decreases |entries|
  {
    if entries != [] {
      FnRunFrame(w, entries[..|entries| - 1], force, url);
    }
  }

  /** What one image's resource ends up holding: its tag labels are exactly
      the keywords (when there are keywords, or force), and its rating is the
      XMP rating (removed under force when there is none). */
  lemma FnImageEffect(w: World, e: Entry, force: bool)
    requires Classify(e.suffix) == Image
    ensures var meta := ImageAt(w, e.path);
            var before := ResourceAt(w, e.absolutePath);
            var after := ResourceAt(FnStep(w, e, force), e.absolutePath);
            (meta.keywords != [] || force ==> forall t :: t in after.tags <==> t in meta.keywords)
            && (meta.keywords == [] && !force ==> after.tags == before.tags)
            && after.rating == (if meta.xmpRating.Some? || force then meta.xmpRating else before.rating)
  {
    ReconciledTagsAreKeywords(ResourceAt(w, e.absolutePath).tags, ImageAt(w, e.path).keywords);
  }

  /** What one MP3 file's resource ends up holding: a positive POPM rating is
      copied; a zero one clears the rating only under force. */
  lemma FnAudioEffect(w: World, e: Entry, force: bool)
    requires Classify(e.suffix) == Audio
    ensures var id3rating := GetID3Rating(Mp3At(w, e.path));
            var before := ResourceAt(w, e.absolutePath);
            var after := ResourceAt(FnStep(w, e, force), e.absolutePath);
            after.tags == before.tags
            && after.rating == (if id3rating > 0 then Some(id3rating) else if force then None else before.rating)
  {
  }

  /** Repeating a file's step writes nothing new. */
  lemma FnStepIdempotent(w: World, e: Entry, force: bool)
    ensures FnStep(FnStep(w, e, force), e, force) == FnStep(w, e, force)
  {
    match Classify(e.suffix)
    case Image =>
      var meta := ImageAt(w, e.path);
      var res := ResourceAt(w, e.absolutePath);
      if meta.keywords != [] || force {
        ReconciledTagsIdempotent(res.tags, meta.keywords);
      }
      var res1 := if meta.keywords != [] || force then res.(tags := ReconciledTags(res.tags, meta.keywords)) else res;
      MirrorIdempotent(meta.xmpRating, res1.rating, force);
    case Audio =>
      var res := ResourceAt(w, e.absolutePath);
      MirrorIdempotent(PositiveRating(GetID3Rating(Mp3At(w, e.path))), res.rating, force);
    case OtherKind =>
  }

  /** The steps of two files with different absolute paths can be taken in
      either order. */
  lemma FnStepsCommute(w: World, a: Entry, b: Entry, force: bool)
    requires a.absolutePath != b.absolutePath
    ensures FnStep(FnStep(w, a, force), b, force) == FnStep(FnStep(w, b, force), a, force)
  {
    var ra := ResourceAt(w, a.absolutePath);
    var rb := ResourceAt(w, b.absolutePath);
    var na := if Classify(a.suffix) == Image then FnImage(ImageAt(w, a.path), ra, force)
              else FnAudio(GetID3Rating(Mp3At(w, a.path)), ra, force);
    var nb := if Classify(b.suffix) == Image then FnImage(ImageAt(w, b.path), rb, force)
              else FnAudio(GetID3Rating(Mp3At(w, b.path)), rb, force);
    if Classify(a.suffix) != OtherKind && Classify(b.suffix) != OtherKind {
      PutResourcesCommute(w, a.absolutePath, na, b.absolutePath, nb);
    }
  }

  lemma PutResourcesCommute(w: World, u: string, r: NepomukResource, v: string, s: NepomukResource)
    requires u != v
    ensures PutResource(PutResource(w, u, r), v, s) == PutResource(PutResource(w, v, s), u, r)
  {
    assert w.nepomuk[u := r][v := s] == w.nepomuk[v := s][u := r];
  }

  /** A walk over files with distinct absolute paths leaves a world that each
      of its steps maps to itself. */
  lemma {:induction false} FnRunSettled(w: World, entries: seq<Entry>, force: bool, k: nat)
    requires k < |entries|
    requires forall i, j :: 0 <= i < j < |entries| ==> entries[i].absolutePath != entries[j].absolutePath
    ensures FnStep(FnRun(w, entries, force), entries[k], force) == FnRun(w, entries, force)
    decreases |entries|
  {
    var init := entries[..|entries| - 1];
    var last := entries[|entries| - 1];
    var before := FnRun(w, init, force);
    if k == |entries| - 1 {
      FnStepIdempotent(before, last, force);
    } else {
      assert init[k] == entries[k];
      FnRunSettled(w, init, force, k);
      FnStepsCommute(before, last, entries[k], force);
    }
  }

  lemma {:induction false} FnRunStays(w: World, entries: seq<Entry>, force: bool)
    requires forall k :: 0 <= k < |entries| ==> FnStep(w, entries[k], force) == w
    ensures FnRun(w, entries, force) == w
    decreases |entries|
  {
    if entries != [] {
      FnRunStays(w, entries[..|entries| - 1], force);
    }
  }

  /** A second files -> Nepomuk run over the same files changes nothing, for
      files with distinct absolute paths. */
  lemma FnRunIdempotent(w: World, entries: seq<Entry>, force: bool)
    requires forall i, j :: 0 <= i < j < |entries| ==> entries[i].absolutePath != entries[j].absolutePath
    ensures FnRun(FnRun(w, entries, force), entries, force) == FnRun(w, entries, force)
  {
    forall k | 0 <= k < |entries|
      ensures FnStep(FnRun(w, entries, force), entries[k], force) == FnRun(w, entries, force)
    {
      FnRunSettled(w, entries, force, k);
    }
    FnRunStays(FnRun(w, entries, force), entries, force);
  }

  // =====================================================================
  // Clear Nepomuk

  /** One file of the clear-Nepomuk loop: an image's resource loses all its
      tags and its rating. MP3 files are not handled. */
  function ClearStep(w: World, e: Entry): World {
    if Classify(e.suffix) == Image then
      var res := ResourceAt(w, e.path);
      PutResource(w, e.path, res.(tags := Without(res.tags, res.tags), rating := None))
    else w
  }

  function ClearRun(w: World, entries: seq<Entry>): World {
    if entries == [] then w
    else ClearStep(ClearRun(w, entries[..|entries| - 1]), entries[|entries| - 1])
  }

  lemma WithoutSnoc(tags: seq<string>, x: string, removed: seq<string>)
    ensures Without(tags + [x], removed) == Without(tags, removed) + (if x !in removed then [x] else [])
  {
    assert (tags + [x])[..|tags|] == tags;
  }

  lemma {:induction false} WithoutAppend(tags: seq<string>, removed: seq<string>, t: string)
    ensures Without(Without(tags, removed), [t]) == Without(tags, removed + [t])
    decreases |tags|
  {
    if tags != [] {
      var init := tags[..|tags| - 1];
      var x := tags[|tags| - 1];
      assert tags == init + [x];
      var r := Without(init, removed);
      WithoutAppend(init, removed, t);
      WithoutSnoc(init, x, removed);
      WithoutSnoc(init, x, removed + [t]);
      if x in removed {
        assert Without(tags, removed) == r + [] == r;
        assert Without(tags, removed + [t]) == Without(init, removed + [t]) + [];
      } else {
        WithoutSnoc(r, x, [t]);
        assert Without(tags, removed) == r + [x];
        assert (x !in [t]) == (x !in removed + [t]);
      }
    }
  }

  method ClearNepomuk(w0: World, entries: seq<Entry>) returns (w: World)
    ensures w == ClearRun(w0, entries)
  {
    w := w0;
    var i := 0;
    while i < |entries|
      invariant 0 <= i <= |entries|
      invariant w == ClearRun(w0, entries[..i])
    {
      var e := entries[i];
      assert entries[..i + 1][..i] == entries[..i];
      if Classify(e.suffix) == Image {
        w := ClearImage(w, e);
      }
      i := i + 1;
    }
    assert entries[..i] == entries;
  }

  /** One image of the clear-Nepomuk loop: the tags, then the rating. */
  method ClearImage(w0: World, e: Entry) returns (w: World)
    requires Classify(e.suffix) == Image
    ensures w == ClearStep(w0, e)
  {
    var res := ResourceAt(w0, e.path);
    var tags := RemoveEachTag(res.tags);
    if res.rating.Some? {
      res := res.(rating := None);
    }
    w := PutResource(w0, e.path, res.(tags := tags));
  }

  /** The tag loop of clear-Nepomuk: each tag is removed by its own call. */
  method RemoveEachTag(fileTags: seq<string>) returns (tags: seq<string>)
    ensures tags == Without(fileTags, fileTags)
  {
    tags := fileTags;
    var k := 0;
    RemoveNothing(fileTags);
    assert fileTags[..0] == [];
    while k < |fileTags|
      invariant 0 <= k <= |fileTags|
      invariant tags == Without(fileTags, fileTags[..k])
    {
      RemoveOneMore(fileTags, k);
      tags := Without(tags, [fileTags[k]]);
      k := k + 1;
    }
    assert fileTags[..k] == fileTags;
  }

  lemma RemoveOneMore(fileTags: seq<string>, k: nat)
    requires k < |fileTags|
    ensures Without(Without(fileTags, fileTags[..k]), [fileTags[k]]) == Without(fileTags, fileTags[..k + 1])
  {
    SliceSnoc(fileTags, k);
    WithoutAppend(fileTags, fileTags[..k], fileTags[k]);
  }

  lemma SliceSnoc(s: seq<string>, k: nat)
    requires k < |s|
    ensures s[..k + 1] == s[..k] + [s[k]]
  {
  }

  lemma {:induction false} RemoveNothing(tags: seq<string>)
    ensures Without(tags, []) == tags
    decreases |tags|
  {
    if tags != [] {
      RemoveNothing(tags[..|tags| - 1]);
      assert tags == tags[..|tags| - 1] + [tags[|tags| - 1]];
    }
  }

  /** After clear-Nepomuk every image walked has neither tags nor a rating,
      whatever order the entries come in. */
  lemma {:induction false} ClearRunClears(w: World, entries: seq<Entry>, k: nat)
    requires k < |entries| && Classify(entries[k].suffix) == Image
    ensures ResourceAt(ClearRun(w, entries), entries[k].path) == NoResource
    decreases |entries|
  {
    var init := entries[..|entries| - 1];
    var last := entries[|entries| - 1];
    var before := ClearRun(w, init);
    if k < |entries| - 1 {
      assert init[k] == entries[k];
      ClearRunClears(w, init, k);
    }
    var res := ResourceAt(before, last.path);
    WithoutNone(res.tags, res.tags);
  }

  // =====================================================================
  // Amarok -> files and files -> Amarok

  /** What getRating leaves in its outputs, whose status main ignores: the
      defaults (absent, 0) when the collection is not reachable. */
  function Seen(online: bool, urls: map<string, int>, statistics: map<int, int>, url: string): (r: RatingRead)
    ensures !online ==> r == RatingRead(false, 0)
    ensures online ==> r == RatingOf(urls, statistics, url)
  {
    if online then RatingOf(urls, statistics, url) else RatingRead(false, 0)
  }

  /** Amarok addresses a track by "." followed by its absolute path. */
  function AmarokUrl(path: string): string {
    "." + path
  }

  /** One file of the Amarok -> files loop: a positive Amarok rating is
      written to the MP3 file when it differs; otherwise force clears a
      non-zero file rating. */
  function AfStep(w: World, online: bool, urls: map<string, int>, statistics: map<int, int>, e: Entry, force: bool): World {
    if Classify(e.suffix) == Audio then
      var amarokRating := Seen(online, urls, statistics, AmarokUrl(e.path)).rating;
      PutMp3(w, e.path, Id3After(Mp3At(w, e.path), PositiveRating(amarokRating), force))
    else w
  }

  function AfRun(w: World, online: bool, urls: map<string, int>, statistics: map<int, int>, entries: seq<Entry>, force: bool): World {
    if entries == [] then w
    else AfStep(AfRun(w, online, urls, statistics, entries[..|entries| - 1], force), online, urls, statistics, entries[|entries| - 1], force)
  }

  method AmarokToFiles(amarokDb: AmarokCollection, w0: World, entries: seq<Entry>, force: bool) returns (w: World)
    ensures w == AfRun(w0, amarokDb.online, amarokDb.urls, amarokDb.statistics, entries, force)
  {
    w := w0;
    var i := 0;
    while i < |entries|
      invariant 0 <= i <= |entries|
      invariant w == AfRun(w0, amarokDb.online, amarokDb.urls, amarokDb.statistics, entries[..i], force)
    {
      var e := entries[i];
      assert entries[..i + 1][..i] == entries[..i];
      if Classify(e.suffix) == Audio {
        var url := AmarokUrl(e.path);
        var _, urlPresent, amarokRating := amarokDb.GetRating(url);
        var file := Mp3At(w, e.path);
        var id3rating := GetID3Rating(file);
        if amarokRating > 0 {
          if id3rating != amarokRating {
            file := SetID3Rating(file, amarokRating).1;
          }
        } else if force {
          if id3rating != 0 {
            file := SetID3Rating(file, 0).1;
          }
        }
        w := PutMp3(w, e.path, file);
      }
      i := i + 1;
    }
    assert entries[..i] == entries;
  }

  /** Repeating a file's Amarok -> files step writes nothing new, for Amarok
      ratings on the 0..10 scale. */
  lemma AfStepIdempotent(w: World, online: bool, urls: map<string, int>, statistics: map<int, int>, e: Entry, force: bool)
    requires Seen(online, urls, statistics, AmarokUrl(e.path)).rating <= CanonicalMax
    ensures var once := AfStep(w, online, urls, statistics, e, force);
            AfStep(once, online, urls, statistics, e, force) == once
  {
    var f := Mp3At(w, e.path);
    if Classify(e.suffix) == Audio && f.hasId3v2 && !f.readOnly {
      Id3Idempotent(f, PositiveRating(Seen(online, urls, statistics, AmarokUrl(e.path)).rating), force);
    }
  }

  /** The steps of two files with different paths can be taken in either
      order. */
  lemma AfStepsCommute(w: World, online: bool, urls: map<string, int>, statistics: map<int, int>, a: Entry, b: Entry, force: bool)
    requires a.path != b.path
    ensures AfStep(AfStep(w, online, urls, statistics, a, force), online, urls, statistics, b, force)
         == AfStep(AfStep(w, online, urls, statistics, b, force), online, urls, statistics, a, force)
  {
    if Classify(a.suffix) == Audio && Classify(b.suffix) == Audio {
      var ra := PositiveRating(Seen(online, urls, statistics, AmarokUrl(a.path)).rating);
      var rb := PositiveRating(Seen(online, urls, statistics, AmarokUrl(b.path)).rating);
      var fa := Id3After(Mp3At(w, a.path), ra, force);
      var fb := Id3After(Mp3At(w, b.path), rb, force);
      var wa := PutMp3(w, a.path, fa);
      var wb := PutMp3(w, b.path, fb);
      assert AfStep(w, online, urls, statistics, a, force) == wa;
      assert AfStep(w, online, urls, statistics, b, force) == wb;
      assert Mp3At(wa, b.path) == Mp3At(w, b.path);
      assert Mp3At(wb, a.path) == Mp3At(w, a.path);
      assert AfStep(wa, online, urls, statistics, b, force) == PutMp3(wa, b.path, fb);
      assert AfStep(wb, online, urls, statistics, a, force) == PutMp3(wb, a.path, fa);
      PutMp3sCommute(w, a.path, fa, b.path, fb);
    }
  }

  /** Every rating stored in the collection is on the 0..10 scale. */
  ghost predicate RatingsOnScale(statistics: map<int, int>) {
    forall id :: id in statistics ==> statistics[id] <= CanonicalMax
  }

  lemma ScaledRatingSeen(online: bool, urls: map<string, int>, statistics: map<int, int>, url: string)
    requires RatingsOnScale(statistics)
    ensures Seen(online, urls, statistics, url).rating <= CanonicalMax
  {
    if online && url in urls && urls[url] in statistics {
      var id := urls[url];
      assert id in statistics ==> statistics[id] <= CanonicalMax;
    }
  }

  /** A walk over files with distinct paths leaves a world that each of its
      steps maps to itself. */
  lemma {:induction false} AfRunSettled(w: World, online: bool, urls: map<string, int>, statistics: map<int, int>,
                                        entries: seq<Entry>, force: bool, k: nat)
    requires k < |entries|
    requires forall i, j :: 0 <= i < j < |entries| ==> entries[i].path != entries[j].path
    requires RatingsOnScale(statistics)
    ensures var after := AfRun(w, online, urls, statistics, entries, force);
            AfStep(after, online, urls, statistics, entries[k], force) == after
    decreases |entries|
  {
    var init := entries[..|entries| - 1];
    var last := entries[|entries| - 1];
    var before := AfRun(w, online, urls, statistics, init, force);
    if k == |entries| - 1 {
      ScaledRatingSeen(online, urls, statistics, AmarokUrl(last.path));
      AfStepIdempotent(before, online, urls, statistics, last, force);
    } else {
      assert init[k] == entries[k];
      AfRunSettled(w, online, urls, statistics, init, force, k);
      AfStepsCommute(before, online, urls, statistics, last, entries[k], force);
    }
  }

  lemma {:induction false} AfRunStays(w: World, online: bool, urls: map<string, int>, statistics: map<int, int>,
                                      entries: seq<Entry>, force: bool)
    requires forall k :: 0 <= k < |entries| ==> AfStep(w, online, urls, statistics, entries[k], force) == w
    ensures AfRun(w, online, urls, statistics, entries, force) == w
    decreases |entries|
  {
    if entries != [] {
      AfRunStays(w, online, urls, statistics, entries[..|entries| - 1], force);
    }
  }

  /** A second Amarok -> files run over the same files changes nothing, for
      files with distinct paths and a collection rated on the 0..10 scale. */
  lemma AfRunIdempotent(w: World, online: bool, urls: map<string, int>, statistics: map<int, int>,
                        entries: seq<Entry>, force: bool)
    requires forall i, j :: 0 <= i < j < |entries| ==> entries[i].path != entries[j].path
    requires RatingsOnScale(statistics)
    ensures var once := AfRun(w, online, urls, statistics, entries, force);
            AfRun(once, online, urls, statistics, entries, force) == once
  {
    var once := AfRun(w, online, urls, statistics, entries, force);
    forall k | 0 <= k < |entries|
      ensures AfStep(once, online, urls, statistics, entries[k], force) == once
    {
      AfRunSettled(w, online, urls, statistics, entries, force, k);
    }
    AfRunStays(once, online, urls, statistics, entries, force);
  }

  /** One file of the files -> Amarok loop: the new statistics. */
  function FaStep(w: World, online: bool, urls: map<string, int>, statistics: map<int, int>, e: Entry, force: bool): map<int, int> {
    if Classify(e.suffix) == Audio && online then
      var url := AmarokUrl(e.path);
      var id3rating := GetID3Rating(Mp3At(w, e.path));
      match AmarokWrite(id3rating, RatingOf(urls, statistics, url), force)
      case None => statistics
      case Some(v) =>
        AmarokWriteKnownUrl(urls, statistics, url, id3rating, force);
        WithRating(urls, statistics, url, v)
    else statistics
  }

  function FaRun(w: World, online: bool, urls: map<string, int>, statistics: map<int, int>, entries: seq<Entry>, force: bool): map<int, int> {
    if entries == [] then statistics
    else FaStep(w, online, urls, FaRun(w, online, urls, statistics, entries[..|entries| - 1], force), entries[|entries| - 1], force)
  }

  method FilesToAmarok(amarokDb: AmarokCollection, w: World, entries: seq<Entry>, force: bool)
    requires amarokDb.Valid()
    modifies amarokDb`statistics
    ensures amarokDb.Valid()
    ensures amarokDb.statistics == FaRun(w, amarokDb.online, amarokDb.urls, old(amarokDb.statistics), entries, force)
  {
    var i := 0;
    while i < |entries|
      invariant 0 <= i <= |entries|
      invariant amarokDb.Valid()
      invariant amarokDb.statistics == FaRun(w, amarokDb.online, amarokDb.urls, old(amarokDb.statistics), entries[..i], force)
    {
      var e := entries[i];
      assert entries[..i + 1][..i] == entries[..i];
      if Classify(e.suffix) == Audio {
        var id3rating := GetID3Rating(Mp3At(w, e.path));
        var url := AmarokUrl(e.path);
        if id3rating > 0 {
          var _, urlPresent, amarokRating := amarokDb.GetRating(url);
          if urlPresent && id3rating != amarokRating {
            var _ := amarokDb.SetRating(url, id3rating);
          }
        } else if force {
          var _, urlPresent, amarokRating := amarokDb.GetRating(url);
          if amarokRating != 0 {
            var _ := amarokDb.SetRating(url, id3rating);
          }
        }
      }
      i := i + 1;
    }
    assert entries[..i] == entries;
  }

  /** Files -> Amarok changes no track's rating other than those of the
      entries walked. */
  lemma {:induction false} FaRunFrame(w: World, online: bool, urls: map<string, int>, statistics: map<int, int>,
                                      entries: seq<Entry>, force: bool, url: string)
    requires UniqueIds(urls)
    requires forall k :: 0 <= k < |entries| ==> AmarokUrl(entries[k].path) != url
    ensures RatingOf(urls, FaRun(w, online, urls, statistics, entries, force), url) == RatingOf(urls, statistics, url)
    decreases |entries|
  {
    if entries != [] {
      var init := entries[..|entries| - 1];
      var e := entries[|entries| - 1];
      var before := FaRun(w, online, urls, statistics, init, force);
      FaRunFrame(w, online, urls, statistics, init, force, url);
      if Classify(e.suffix) == Audio && online {
        var id3rating := GetID3Rating(Mp3At(w, e.path));
        var v := AmarokWrite(id3rating, RatingOf(urls, before, AmarokUrl(e.path)), force);
        if v.Some? {
          AmarokWriteKnownUrl(urls, before, AmarokUrl(e.path), id3rating, force);
          SetThenGetRating(urls, before, AmarokUrl(e.path), v.value, url);
        }
      }
    }
  }

  /** What one track ends up holding: a positive file rating for a known
      track; a zero file rating under force clears a non-zero one; nothing
      else is written, and an unknown track stays unknown. */
  lemma FaStepEffect(w: World, urls: map<string, int>, statistics: map<int, int>, e: Entry, force: bool)
    requires UniqueIds(urls) && Classify(e.suffix) == Audio
    ensures var url := AmarokUrl(e.path);
            var id3rating := GetID3Rating(Mp3At(w, e.path));
            var before := RatingOf(urls, statistics, url);
            var after := RatingOf(urls, FaStep(w, true, urls, statistics, e, force), url);
            after.present == before.present
            && (id3rating > 0 && before.present ==> after.rating == id3rating)
            && (id3rating == 0 && force ==> after.rating == 0)
            && (id3rating == 0 && !force ==> after == before)
  {
    var url := AmarokUrl(e.path);
    var id3rating := GetID3Rating(Mp3At(w, e.path));
    var v := AmarokWrite(id3rating, RatingOf(urls, statistics, url), force);
    if v.Some? {
      AmarokWriteKnownUrl(urls, statistics, url, id3rating, force);
      SetThenGetRating(urls, statistics, url, v.value, url);
    }
  }

  /** Repeating a file's files -> Amarok step writes nothing new. */
  lemma FaStepIdempotent(w: World, online: bool, urls: map<string, int>, statistics: map<int, int>, e: Entry, force: bool)
    requires UniqueIds(urls)
    ensures var once := FaStep(w, online, urls, statistics, e, force);
            FaStep(w, online, urls, once, e, force) == once
  {
    if Classify(e.suffix) == Audio && online {
      var url := AmarokUrl(e.path);
      var id3rating := GetID3Rating(Mp3At(w, e.path));
      if AmarokWrite(id3rating, RatingOf(urls, statistics, url), force).Some? {
        AmarokIdempotent(urls, statistics, url, id3rating, force);
      }
    }
  }

  /** The steps of two files with different paths can be taken in either
      order: each reads and writes only its own track's row. */
  lemma FaStepsCommute(w: World, online: bool, urls: map<string, int>, statistics: map<int, int>, a: Entry, b: Entry, force: bool)
    requires UniqueIds(urls) && a.path != b.path
    ensures FaStep(w, online, urls, FaStep(w, online, urls, statistics, a, force), b, force)
         == FaStep(w, online, urls, FaStep(w, online, urls, statistics, b, force), a, force)
  {
    var ua, ub := AmarokUrl(a.path), AmarokUrl(b.path);
    assert ua[1..] == a.path && ub[1..] == b.path;
    FaStepElsewhere(w, online, urls, statistics, a, ub, force);
    FaStepElsewhere(w, online, urls, statistics, b, ua, force);
    var sa := FaStep(w, online, urls, statistics, a, force);
    var sb := FaStep(w, online, urls, statistics, b, force);
    if sa != statistics && sb != statistics {
      assert ua in urls && ub in urls;
      assert urls[ua] != urls[ub];
      assert sa == statistics[urls[ua] := sa[urls[ua]]];
      assert sb == statistics[urls[ub] := sb[urls[ub]]];
      assert statistics[urls[ua] := sa[urls[ua]]][urls[ub] := sb[urls[ub]]]
          == statistics[urls[ub] := sb[urls[ub]]][urls[ua] := sa[urls[ua]]];
    }
  }

  /** A file's files -> Amarok step leaves every other track's rating as it
      was, and changes the statistics only at its own track's id. */
  lemma FaStepElsewhere(w: World, online: bool, urls: map<string, int>, statistics: map<int, int>, e: Entry, other: string, force: bool)
    requires UniqueIds(urls) && other != AmarokUrl(e.path)
    ensures var s := FaStep(w, online, urls, statistics, e, force);
            RatingOf(urls, s, other) == RatingOf(urls, statistics, other)
            && (s != statistics ==> AmarokUrl(e.path) in urls && s == statistics[urls[AmarokUrl(e.path)] := s[urls[AmarokUrl(e.path)]]])
  {
    var url := AmarokUrl(e.path);
    if Classify(e.suffix) == Audio && online {
      var id3rating := GetID3Rating(Mp3At(w, e.path));
      var v := AmarokWrite(id3rating, RatingOf(urls, statistics, url), force);
      if v.Some? {
        AmarokWriteKnownUrl(urls, statistics, url, id3rating, force);
        SetThenGetRating(urls, statistics, url, v.value, other);
      }
    }
  }

  /** A walk over files with distinct paths leaves statistics that each of
      its steps maps to themselves. */
  lemma {:induction false} FaRunSettled(w: World, online: bool, urls: map<string, int>, statistics: map<int, int>,
                                        entries: seq<Entry>, force: bool, k: nat)
    requires UniqueIds(urls) && k < |entries|
    requires forall i, j :: 0 <= i < j < |entries| ==> entries[i].path != entries[j].path
    ensures var after := FaRun(w, online, urls, statistics, entries, force);
            FaStep(w, online, urls, after, entries[k], force) == after
    decreases |entries|
  {
    var init := entries[..|entries| - 1];
    var last := entries[|entries| - 1];
    var before := FaRun(w, online, urls, statistics, init, force);
    if k == |entries| - 1 {
      FaStepIdempotent(w, online, urls, before, last, force);
    } else {
      assert init[k] == entries[k];
      FaRunSettled(w, online, urls, statistics, init, force, k);
      FaStepsCommute(w, online, urls, before, last, entries[k], force);
    }
  }

  lemma {:induction false} FaRunStays(w: World, online: bool, urls: map<string, int>, statistics: map<int, int>,
                                      entries: seq<Entry>, force: bool)
    requires forall k :: 0 <= k < |entries| ==> FaStep(w, online, urls, statistics, entries[k], force) == statistics
    ensures FaRun(w, online, urls, statistics, entries, force) == statistics
    decreases |entries|
  {
    if entries != [] {
      FaRunStays(w, online, urls, statistics, entries[..|entries| - 1], force);
    }
  }

  /** A second files -> Amarok run over the same files changes nothing, for
      files with distinct paths. */
  lemma FaRunIdempotent(w: World, online: bool, urls: map<string, int>, statistics: map<int, int>,
                        entries: seq<Entry>, force: bool)
    requires UniqueIds(urls)
    requires forall i, j :: 0 <= i < j < |entries| ==> entries[i].path != entries[j].path
    ensures var once := FaRun(w, online, urls, statistics, entries, force);
            FaRun(w, online, urls, once, entries, force) == once
  {
    var once := FaRun(w, online, urls, statistics, entries, force);
    forall k | 0 <= k < |entries|
      ensures FaStep(w, online, urls, once, entries[k], force) == once
    {
      FaRunSettled(w, online, urls, statistics, entries, force, k);
    }
    FaRunStays(w, online, urls, once, entries, force);
  }
}
