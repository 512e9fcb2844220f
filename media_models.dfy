/** Uploaded media files of a tenant and the classification of a file by its extension. */
module MediaModels {
  import opened Text

  /** A file field: its stored name ("" when no file is set) and the size the storage reports. */
  datatype FieldFile = FieldFile(name: string, size: nat)

  datatype MediaFile = MediaFile(
    id: nat,
    tenant: nat,
    file: FieldFile,
    originalName: string,
    mediaType: string,
    fileSize: nat,
    altText: string,
    description: string)

  function MediaKey(f: MediaFile): nat { f.id }

  /** The keys of `MEDIA_TYPES`. */
  const MediaTypes: seq<string> := ["image", "document", "video", "other"]

  const ImageExtensions: seq<string> := ["jpg", "jpeg", "png", "gif", "webp"]
  const DocumentExtensions: seq<string> := ["pdf", "doc", "docx", "txt"]
  const VideoExtensions: seq<string> := ["mp4", "avi", "mov", "webm"]

  /** A file field is truthy when it has a name. */
  predicate HasFile(f: FieldFile) { f.name != "" }

  /** `file.name.split('.')[-1].lower()`. */
  function Extension(name: string): string
  {
    Lower(LastField(name, '.'))
  }

  /** `MediaFile.get_file_type`. */
  function FileType(f: FieldFile): (r: string)
    ensures r in MediaTypes
    ensures r == "image" <==> HasFile(f) && Extension(f.name) in ImageExtensions
    ensures r == "document" <==> HasFile(f) && Extension(f.name) in DocumentExtensions
    ensures r == "video" <==> HasFile(f) && Extension(f.name) in VideoExtensions
    ensures r == "other" <==> !HasFile(f) || Extension(f.name) !in ImageExtensions + DocumentExtensions + VideoExtensions
  {
    if HasFile(f) then
      var ext := Extension(f.name);
      if ext in ImageExtensions then "image"
      else if ext in DocumentExtensions then "document"
      else if ext in VideoExtensions then "video"
      else "other"
    else "other"
  }

  /** The extension is the lower-cased text after the last dot, or the whole name when it has no dot. */
  lemma ExtensionIsLastDotField(name: string)
    ensures '.' !in Extension(name)
    ensures '.' in name ==> exists k :: 0 <= k < |name| && name[k] == '.' && Extension(name) == Lower(name[k + 1..])
    ensures '.' !in name ==> Extension(name) == Lower(name)
  {
    var raw := LastField(name, '.');
    LastFieldIsSuffix(name, '.');
    forall k | 0 <= k < |raw| ensures Lower(raw)[k] != '.' {
      assert raw[k] != '.';
    }
    if '.' in name {
      var k := |name| - |raw| - 1;
      assert name[k + 1..] == raw;
    }
  }

  /** Splitting a name with exactly one dot. */
  lemma SplitAtOnlyDot(stem: string, ext: string)
    requires '.' !in stem && '.' !in ext
    ensures Extension(stem + "." + ext) == Lower(ext)
  {
    JoinThenSplit([stem, ext], '.');
    assert Join([stem, ext], '.') == stem + "." + ext;
  }

  /** Upper-case extensions classify like lower-case ones. */
  lemma UpperCaseImage()
    ensures FileType(FieldFile("FOTO.JPG", 10)) == "image"
  {
    SplitAtOnlyDot("FOTO", "JPG");
    assert Lower("JPG") == "jpg";
  }

  lemma MixedCaseDocument()
    ensures FileType(FieldFile("plan.Docx", 10)) == "document"
  {
    SplitAtOnlyDot("plan", "Docx");
    assert "plan" + "." + "Docx" == "plan.Docx";
    assert Lower("Docx") == "docx";
  }

  lemma MixedCaseVideo()
    ensures FileType(FieldFile("tour.WebM", 10)) == "video"
  {
    SplitAtOnlyDot("tour", "WebM");
    assert "tour" + "." + "WebM" == "tour.WebM";
    assert Lower("WebM") == "webm";
  }

  /** Only the text after the last dot counts: `tar.gz` is not a known extension. */
  lemma DoubleExtensionIsOther()
    ensures FileType(FieldFile("x.tar.gz", 10)) == "other"
  {
    JoinThenSplit(["x", "tar", "gz"], '.');
    assert Join(["x", "tar", "gz"], '.') == "x.tar.gz";
    assert Lower("gz") == "gz";
  }

  /** A field without a file is "other", whatever else the record says. */
  lemma NoFileIsOther(size: nat)
    ensures FileType(FieldFile("", size)) == "other"
  {
  }
}
