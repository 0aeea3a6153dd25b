/**
 * Which picture the profile page shows: the first entry of the user's
 * directory listing, provided some entry of the listing has the extension
 * `jpg` or `png`; otherwise, or when reading fails, the bundled default image.
 * The listing and the bytes each entry reads to are given, in the platform's
 * listing order.
 */
module ProfilePicture {
  import opened Optional
  import opened FileStore
  import opened JavaString

  /** One element of the directory listing: its name and, when it can be read, its bytes. */
  datatype Entry = Entry(name: string, content: Option<seq<byte>>)

  /** The picture served: the Base64 encoding of the bundled default image, or of a file's bytes. */
  datatype Picture = DefaultImage | EncodedFile(bytes: seq<byte>)

  const ImageExtensions: seq<string> := ["jpg", "png"]

  /** The position of the last `c` in `s`, or -1. */
  function LastIndexOf(s: string, c: char): (r: int)
    ensures -1 <= r < |s|
    ensures r >= 0 ==> s[r] == c
    ensures forall j :: r < j < |s| ==> s[j] != c
  {
    if |s| == 0 then -1
    else if s[|s| - 1] == c then |s| - 1
    else LastIndexOf(s[..|s| - 1], c)
  }

  function Max(a: int, b: int): int {
    if a < b then b else a
  }

  /**
   * `FilenameUtils.getExtension`: the text after the last dot, or the empty
   * string when there is no dot or a separator (`/` or `\`) follows it.
   */
  function Extension(name: string): (e: string)
    ensures |e| < |name| || e == ""
    ensures forall i :: 0 <= i < |e| ==> e[i] != '.' && e[i] != '/' && e[i] != '\\'
  {
    var dot := LastIndexOf(name, '.');
    var separator := Max(LastIndexOf(name, '/'), LastIndexOf(name, '\\'));
    if dot == -1 || separator > dot then "" else name[dot + 1..]
  }

  /** `FilenameUtils.isExtension(name, List.of("jpg", "png"))` */
  function IsImage(name: string): (b: bool)
    ensures b ==> EndsWith(name, ".jpg") || EndsWith(name, ".png")
  {
    if Extension(name) in ImageExtensions then
      ExtensionIsSuffix(name);
      true
    else
      false
  }

  /** A non-empty extension is what follows the dot the name ends with. */
  lemma ExtensionIsSuffix(name: string)
    requires Extension(name) != ""
    ensures EndsWith(name, "." + Extension(name))
  {
    var dot := LastIndexOf(name, '.');
    assert dot != -1;
    var ext := name[dot + 1..];
    assert Extension(name) == ext;
    assert |name| - |ext| - 1 == dot;
    assert name[dot..] == [name[dot]] + ext;
    assert [name[dot]] == ".";
  }

  /** A name ending with a dot and a text free of dots and separators has that text as its extension. */
  lemma SuffixIsExtension(name: string, ext: string)
    requires '.' !in ext && '/' !in ext && '\\' !in ext
    requires EndsWith(name, "." + ext)
    ensures Extension(name) == ext
  {
    var k := |name| - |ext| - 1;
    assert name[k..] == "." + ext;
    assert name[k] == '.';
    forall j | k < j < |name|
      ensures name[j] != '.' && name[j] != '/' && name[j] != '\\'
    {
      assert name[j] == ext[j - k - 1];
    }
    assert LastIndexOf(name, '.') == k;
    assert name[k + 1..] == ext;
  }

  /** A name counts as an image exactly when it ends with `.jpg` or `.png` (case matters). */
  lemma IsImageIffImageSuffix(name: string)
    ensures IsImage(name) <==> EndsWith(name, ".jpg") || EndsWith(name, ".png")
  {
    assert ".jpg" == "." + "jpg" && ".png" == "." + "png";
    if IsImage(name) {
      ExtensionIsSuffix(name);
    } else if EndsWith(name, ".jpg") {
      SuffixIsExtension(name, "jpg");
    } else if EndsWith(name, ".png") {
      SuffixIsExtension(name, "png");
    }
  }

  /** The first position at or after `from` whose entry's name is accepted: `filter(accept).findFirst()`. */
  function FindFirst(listing: seq<Entry>, from: nat, accept: string -> bool): (r: Option<nat>)
    requires from <= |listing|
    ensures r.Some? ==> from <= r.value < |listing| && accept(listing[r.value].name)
    ensures r.Some? ==> forall j :: from <= j < r.value ==> !accept(listing[j].name)
    ensures r.None? ==> forall j :: from <= j < |listing| ==> !accept(listing[j].name)
    decreases |listing| - from
  {
    if from == |listing| then None
    else if accept(listing[from].name) then Some(from)
    else FindFirst(listing, from + 1, accept)
  }

  predicate HasImage(listing: seq<Entry>) {
    exists i :: 0 <= i < |listing| && IsImage(listing[i].name)
  }

  /** Reading an entry and encoding it; a failed read falls back to the default image. */
  function Read(entry: Entry): (p: Picture)
    ensures p == DefaultImage <==> entry.content.None?
    ensures p.EncodedFile? ==> p.bytes == entry.content.value
  {
    match entry.content
    case Some(bytes) => EncodedFile(bytes)
    case None => DefaultImage
  }

  /**
   * getProfilePictureAsBase64 over a listing (`None` when listFiles returns
   * null). When some entry is an image, the entry read is the listing's first
   * one, whichever entry matched.
   */
  function ProfilePictureAsBase64(listing: Option<seq<Entry>>): (r: Picture)
    ensures r != DefaultImage <==>
              listing.Some? && HasImage(listing.value) && listing.value[0].content.Some?
    ensures r.EncodedFile? ==> r.bytes == listing.value[0].content.value
  {
    match listing
    case None => DefaultImage
    case Some(files) =>
      if |files| > 0 then
        match FindFirst(files, 0, IsImage)
        case Some(_) => Read(files[0])
        case None => DefaultImage
      else
        DefaultImage
  }

  /** The picture of the first image of the listing: what the filter selects. */
  function FirstImagePicture(listing: Option<seq<Entry>>): (r: Picture)
    ensures r != DefaultImage ==> listing.Some? && HasImage(listing.value)
  {
    match listing
    case None => DefaultImage
    case Some(files) =>
      match FindFirst(files, 0, IsImage)
      case Some(i) => Read(files[i])
      case None => DefaultImage
  }

  /** With a single readable image in the directory, the page shows exactly that image's bytes. */
  lemma SingleImageRoundTrip(name: string, bytes: seq<byte>)
    requires IsImage(name)
    ensures ProfilePictureAsBase64(Some([Entry(name, Some(bytes))])) == EncodedFile(bytes)
  {
    assert IsImage([Entry(name, Some(bytes))][0].name);
  }

  /** When the listing starts with an image, the entry read is the one the filter selected. */
  lemma ReadsSelectedImageWhenFirst(listing: seq<Entry>)
    requires |listing| > 0 && IsImage(listing[0].name)
    ensures ProfilePictureAsBase64(Some(listing)) == FirstImagePicture(Some(listing))
  {
  }

  /** A directory holding at most one entry shows what the filter selected. */
  lemma ReadsSelectedImageWhenAlone(listing: seq<Entry>)
    requires |listing| <= 1
    ensures ProfilePictureAsBase64(Some(listing)) == FirstImagePicture(Some(listing))
  {
    if |listing| == 1 && IsImage(listing[0].name) {
      ReadsSelectedImageWhenFirst(listing);
    }
  }

  /**
   * When the listing starts with a readable file that is not an image, that
   * file is served, although the filter selected a later one.
   */
  lemma ReadsFirstEntryNotSelectedImage()
    ensures var listing := [Entry("a", Some([1])), Entry("b.png", Some([2]))];
            && ProfilePictureAsBase64(Some(listing)) == EncodedFile([1])
            && FirstImagePicture(Some(listing)) == EncodedFile([2])
  {
    var listing := [Entry("a", Some([1])), Entry("b.png", Some([2]))];
    assert !IsImage("a");
    IsImageIffImageSuffix("b.png");
    assert "b.png"[5 - 4..] == ".png";
    assert IsImage(listing[1].name);
    assert FindFirst(listing, 0, IsImage) == Some(1);
  }
}
