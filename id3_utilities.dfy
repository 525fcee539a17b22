/** Ratings embedded in MP3 files as ID3v2 POPM ("Popularimeter") frames.

    A POPM frame carries a rating byte on the 0..255 scale; the program's own
    scale is 0..10. The conversions round half away from zero. For the
    non-negative values that occur here that rounding is floor(x + 1/2), which
    the two conversion functions below compute exactly in integers. */
module ID3Utilities {

  /** What a rendered POPM frame can hold in its rating field. */
  type Byte = x: int | 0 <= x < 256

  /** The top of the native scale and of the canonical scale. */
  const NativeMax: int := 255
  const CanonicalMax: int := 10

  /** 0..255 -> 0..10, i.e. round(r * 10 / 255). */
  function ToCanonical(r: nat): (c: nat)
    ensures r <= NativeMax ==> c <= CanonicalMax
    ensures 510 * c <= 20 * r + 255 < 510 * c + 510
  {
    (20 * r + 255) / 510
  }

  /** 0..10 -> 0..255, i.e. round(c * 255 / 10). */
  function FromCanonical(c: nat): (r: nat)
    ensures c <= CanonicalMax ==> r <= NativeMax
    ensures 20 * r <= 510 * c + 10 < 20 * r + 20
  {
    (510 * c + 10) / 20
  }

  /** Going to the native scale and back returns the canonical value
      (for every canonical value, not only 0..10). */
  lemma CanonicalRoundTrip(c: nat)
    ensures ToCanonical(FromCanonical(c)) == c
  {
    var r := FromCanonical(c);
    // 20r is 510c or 510c + 10, so 20r + 255 lies in [510c + 255, 510c + 265].
    assert 510 * c <= 20 * r + 255 < 510 * c + 510;
  }

  /** Going to the canonical scale and back moves a native value by at most 13
      (half of a 25.5-wide canonical step, plus the second rounding). */
  lemma NativeRoundTripError(r: nat)
    ensures -13 <= FromCanonical(ToCanonical(r)) - r <= 13
  {
    var c := ToCanonical(r);
    var f := FromCanonical(c);
    assert 510 * c <= 20 * r + 255 < 510 * c + 510;
    assert 20 * f <= 510 * c + 10 < 20 * f + 20;
    assert 20 * (f - r) <= 265;
    assert 20 * (f - r) > -265;
  }

  lemma ToCanonicalMonotone(r1: nat, r2: nat)
    requires r1 <= r2
    ensures ToCanonical(r1) <= ToCanonical(r2)
  {
  }

  lemma FromCanonicalMonotone(c1: nat, c2: nat)
    requires c1 <= c2
    ensures FromCanonical(c1) <= FromCanonical(c2)
  {
  }

  lemma ScaleEndpoints()
    ensures ToCanonical(0) == 0 && ToCanonical(NativeMax) == CanonicalMax
    ensures FromCanonical(0) == 0 && FromCanonical(CanonicalMax) == NativeMax
  {
  }

  /** An ID3v2 frame: the POPM frames the program reads and replaces, and every
      other frame, which it carries along untouched. */
  datatype Frame =
    | Popm(email: string, rating: Byte, counter: nat)
    | OtherFrame(id: string, body: seq<int>)

  /** The part of an MP3 file this program sees: whether TagLib found an ID3v2
      tag, that tag's frame list, and whether saving the file would fail. */
  datatype Id3File = Id3File(hasId3v2: bool, frames: seq<Frame>, readOnly: bool)

  /** A path TagLib cannot open behaves as a file without an ID3v2 tag. */
  const Missing: Id3File := Id3File(false, [], false)

  /** The tag's frame list for the key "POPM", in frame order. */
  function PopmFrames(frames: seq<Frame>): (p: seq<Frame>)
    ensures forall i :: 0 <= i < |p| ==> p[i].Popm?
    ensures |p| <= |frames|
  {
    if frames == [] then []
    else PopmFrames(frames[..|frames| - 1])
         + (if frames[|frames| - 1].Popm? then [frames[|frames| - 1]] else [])
  }

  /** The frames that are not POPM frames, in frame order. */
  function OtherFrames(frames: seq<Frame>): (o: seq<Frame>)
    ensures forall i :: 0 <= i < |o| ==> o[i].OtherFrame?
  {
    if frames == [] then []
    else OtherFrames(frames[..|frames| - 1])
         + (if frames[|frames| - 1].OtherFrame? then [frames[|frames| - 1]] else [])
  }

  /** getID3Rating: 0 when the file has no ID3v2 tag or no POPM frame, otherwise
      the first POPM frame's rating converted to 0..10. Its status is always true
      and is not modelled as a value. */
  function GetID3Rating(f: Id3File): (c: nat)
    ensures c <= CanonicalMax
    ensures (!f.hasId3v2 || PopmFrames(f.frames) == []) ==> c == 0
  {
    if f.hasId3v2 && PopmFrames(f.frames) != [] then ToCanonical(PopmFrames(f.frames)[0].rating)
    else 0
  }

  /** The frame TagLib's default PopularimeterFrame renders once its rating is
      set: no e-mail, a play counter of 0, and the rating byte. */
  function NewPopm(c: nat): Frame {
    Popm("", FromCanonical(c) % 256, 0)
  }

  /** setID3Rating: fails (leaving the file as it was) without an ID3v2 tag or
      when the file cannot be saved; otherwise removes every POPM frame and
      appends one holding the converted rating. */
  function SetID3Rating(f: Id3File, c: nat): (r: (bool, Id3File))
    ensures r.0 <==> f.hasId3v2 && !f.readOnly
    ensures !r.0 ==> r.1 == f
    ensures r.0 ==> r.1.hasId3v2 && r.1.readOnly == f.readOnly
    ensures r.0 ==> PopmFrames(r.1.frames) == [NewPopm(c)]
    ensures r.0 ==> OtherFrames(r.1.frames) == OtherFrames(f.frames)
  {
    if f.hasId3v2 && !f.readOnly then
      var frames' := RemovePopm(f.frames) + [NewPopm(c)];
      PopmAppend(RemovePopm(f.frames), NewPopm(c));
      (true, f.(frames := frames'))
    else
      (false, f)
  }

  /** A successful setID3Rating of a canonical value is read back unchanged by
      getID3Rating: the byte written does not wrap and the scale round-trips. */
  lemma SetThenGet(f: Id3File, c: nat)
    requires f.hasId3v2 && !f.readOnly && c <= CanonicalMax
    ensures SetID3Rating(f, c).0 && GetID3Rating(SetID3Rating(f, c).1) == c
  {
    CanonicalRoundTrip(c);
    assert FromCanonical(c) % 256 == FromCanonical(c);
  }

  /** TagLib's removeFrames("POPM"). */
  function RemovePopm(frames: seq<Frame>): (r: seq<Frame>)
    ensures PopmFrames(r) == []
    ensures OtherFrames(r) == OtherFrames(frames)
  {
    if frames == [] then []
    else
      var init := frames[..|frames| - 1];
      var last := frames[|frames| - 1];
      var kept := if last.Popm? then [] else [last];
      PopmConcat(RemovePopm(init), kept);
      RemovePopm(init) + kept
  }

  lemma {:induction false} PopmConcat(a: seq<Frame>, b: seq<Frame>)
    ensures PopmFrames(a + b) == PopmFrames(a) + PopmFrames(b)
    ensures OtherFrames(a + b) == OtherFrames(a) + OtherFrames(b)
    decreases |b|
  {
    if b == [] {
      assert a + b == a;
    } else {
      var b' := b[..|b| - 1];
      assert (a + b)[..|a + b| - 1] == a + b';
      PopmConcat(a, b');
    }
  }

  lemma PopmAppend(frames: seq<Frame>, f: Frame)
    ensures PopmFrames(frames + [f]) == PopmFrames(frames) + (if f.Popm? then [f] else [])
    ensures OtherFrames(frames + [f]) == OtherFrames(frames) + (if f.OtherFrame? then [f] else [])
  {
    assert (frames + [f])[..|frames|] == frames;
  }

  /** Only the first POPM frame counts: whatever comes after it, and whatever
      non-POPM frames come before it, the rating read is that frame's. */
  lemma {:induction false} FirstPopmDecides(pre: seq<Frame>, p: Frame, post: seq<Frame>, readOnly: bool)
    requires PopmFrames(pre) == [] && p.Popm?
    ensures GetID3Rating(Id3File(true, pre + [p] + post, readOnly)) == ToCanonical(p.rating)
  {
    PopmConcat(pre + [p], post);
    PopmAppend(pre, p);
  }
}
