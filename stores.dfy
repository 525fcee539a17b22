/** The stores main reads and writes, as in-memory maps, and the directory
    entries it walks.

    Nepomuk keeps, per file URL, an optional rating and a set of tags (by
    label). KExiv2 gives, per image, its IPTC keyword list and its XMP
    rating (the string value of Xmp.xmp.Rating, modelled as the number it
    parses to, or absent). TagLib gives, per MP3 file, its ID3v2 tag. */
module Stores {
  import opened Common
  import opened ID3Utilities

  /** One file the directory walk yields: `path` is the name the walk
      returns (working directory joined with the relative name),
      `absolutePath` its absolute form, `suffix` the text after the last dot
      of the file name. */
  datatype Entry = Entry(path: string, absolutePath: string, suffix: string)

  /** How main treats a file, decided by its suffix alone. */
  datatype Kind = Image | Audio | OtherKind

  /** ASCII lower-casing of one character. */
  function Lower(c: char): (l: char)
    ensures 'A' <= c <= 'Z' ==> l as int == c as int + 32
    ensures !('A' <= c <= 'Z') ==> l == c
  {
    if 'A' <= c <= 'Z' then (c as int + 32) as char else c
  }

  /** A string lower-cased character by character. */
  function LowerAll(s: string): (l: string)
    ensures |l| == |s| && forall i :: 0 <= i < |s| ==> l[i] == Lower(s[i])
  {
    seq(|s|, i requires 0 <= i < |s| => Lower(s[i]))
  }

  /** QString::compare(other, Qt::CaseInsensitive) == 0, over ASCII. */
  predicate SameIgnoringCase(a: string, b: string) {
    |a| == |b| && forall i :: 0 <= i < |a| ==> Lower(a[i]) == Lower(b[i])
  }

  /** jpg and jpeg are images, mp3 is audio, in any letter case. */
  function Classify(suffix: string): Kind {
    if SameIgnoringCase(suffix, "jpg") || SameIgnoringCase(suffix, "jpeg") then Image
    else if SameIgnoringCase(suffix, "mp3") then Audio
    else OtherKind
  }

  /** Changing the letter case of a suffix never changes how the file is
      treated. */
  lemma ClassifyIgnoresCase(s: string, t: string)
    requires SameIgnoringCase(s, t)
    ensures Classify(s) == Classify(t)
  {
    assert SameIgnoringCase(s, "jpg") <==> SameIgnoringCase(t, "jpg");
    assert SameIgnoringCase(s, "jpeg") <==> SameIgnoringCase(t, "jpeg");
    assert SameIgnoringCase(s, "mp3") <==> SameIgnoringCase(t, "mp3");
  }

  /** Against a lower-case word, the case-insensitive comparison is equality
      of the lower-cased string with that word. */
  lemma SameAsLowerWord(s: string, word: string)
    requires forall i :: 0 <= i < |word| ==> Lower(word[i]) == word[i]
    ensures SameIgnoringCase(s, word) <==> LowerAll(s) == word
  {
    if LowerAll(s) == word {
      assert forall i :: 0 <= i < |s| ==> Lower(s[i]) == LowerAll(s)[i];
    }
  }

  /** Exactly jpg and jpeg are images and exactly mp3 is audio, once
      lower-cased; every other suffix is left alone. */
  lemma ClassifiedSuffixes(s: string)
    ensures Classify(s) == Image <==> LowerAll(s) == "jpg" || LowerAll(s) == "jpeg"
    ensures Classify(s) == Audio <==> LowerAll(s) == "mp3"
    ensures Classify(s) == OtherKind <==> LowerAll(s) !in {"jpg", "jpeg", "mp3"}
  {
    SameAsLowerWord(s, "jpg");
    SameAsLowerWord(s, "jpeg");
    SameAsLowerWord(s, "mp3");
  }

  /** A Nepomuk resource: the rating property if present, and the labels of
      its tags. */
  datatype NepomukResource = NepomukResource(rating: Option<nat>, tags: seq<string>)

  const NoResource: NepomukResource := NepomukResource(None, [])

  /** What KExiv2 reads from an image. */
  datatype ImageMeta = ImageMeta(keywords: seq<string>, xmpRating: Option<nat>)

  const NoImageMeta: ImageMeta := ImageMeta([], None)

  /** All three stores. A key that is absent reads as the empty record. */
  datatype World = World(
    nepomuk: map<string, NepomukResource>,
    images: map<string, ImageMeta>,
    mp3s: map<string, Id3File>)

  function ResourceAt(w: World, url: string): NepomukResource {
    if url in w.nepomuk then w.nepomuk[url] else NoResource
  }

  function ImageAt(w: World, path: string): ImageMeta {
    if path in w.images then w.images[path] else NoImageMeta
  }

  function Mp3At(w: World, path: string): Id3File {
    if path in w.mp3s then w.mp3s[path] else Missing
  }

  /** Writing a record: nothing happens when the record read back would be
      the same, so no key is ever added for a file that was not changed. */
  function PutResource(w: World, url: string, r: NepomukResource): (w': World)
    ensures ResourceAt(w', url) == r
    ensures forall u :: u != url ==> ResourceAt(w', u) == ResourceAt(w, u)
    ensures w'.images == w.images && w'.mp3s == w.mp3s
    ensures r == ResourceAt(w, url) ==> w' == w
  {
    if r == ResourceAt(w, url) then w else w.(nepomuk := w.nepomuk[url := r])
  }

  function PutImage(w: World, path: string, m: ImageMeta): (w': World)
    ensures ImageAt(w', path) == m
    ensures forall p :: p != path ==> ImageAt(w', p) == ImageAt(w, p)
    ensures w'.nepomuk == w.nepomuk && w'.mp3s == w.mp3s
    ensures m == ImageAt(w, path) ==> w' == w
  {
    if m == ImageAt(w, path) then w else w.(images := w.images[path := m])
  }

  function PutMp3(w: World, path: string, f: Id3File): (w': World)
    ensures Mp3At(w', path) == f
    ensures forall p :: p != path ==> Mp3At(w', p) == Mp3At(w, p)
    ensures w'.nepomuk == w.nepomuk && w'.images == w.images
    ensures f == Mp3At(w, path) ==> w' == w
  {
    if f == Mp3At(w, path) then w else w.(mp3s := w.mp3s[path := f])
  }
}
