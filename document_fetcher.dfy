/**
  DocumentFetcher (services/document_fetcher.py): loading a web page or a
  file into documents. The web loader, the PDF loader and the per-page OCR are
  inputs: what each returned, or the message of the exception it raised.
 */
module DocumentFetcher {
  import opened Common
  import Documents

  /** A LangChain `Document`: page content and metadata. */
  datatype LcDocument = LcDocument(pageContent: string, metadata: map<string, string>)

  const FetchErrorPrefix: string := "Error fetching document: "
  const NoWebContent: string := "No content found. Please check if the provided URL is correct."
  const DocxErrorPrefix: string := "Error loading .docx file: "
  const NoDocxContent: string := "No content found in the .docx file."
  /** The AttributeError raised by `Docs.from_web`, which the Docs class lacks. */
  const NoFromWeb: string := "type object 'Docs' has no attribute 'from_web'"
  /** The AttributeError raised by `Docs.from_file`, which the Docs class lacks. */
  const NoFromFile: string := "type object 'Docs' has no attribute 'from_file'"

  /** `os.path.basename(p)`: what follows the last '/'. */
  function Basename(p: string): (b: string)
    ensures '/' !in b
  {
    var k := RFind(p, '/');
    var b := p[k + 1..];
    assert forall i | 0 <= i < |b| :: b[i] != '/' by {
      forall i | 0 <= i < |b| ensures b[i] != '/' {
        assert b[i] == p[k + 1 + i];
      }
    }
    b
  }

  predicate HasNonDot(s: string) {
    exists k :: 0 <= k < |s| && s[k] != '.'
  }

  /** `os.path.splitext(name)[0]` for a name without '/': the name without its
      last extension, where dots that only lead the name do not start one. */
  function SplitextRoot(name: string): (root: string)
    ensures root <= name
  {
    var dot := RFind(name, '.');
    if dot > 0 && HasNonDot(name[..dot]) then name[..dot] else name
  }

  /** The title `load_pdf` gives a file: its base name without the last
      extension, so it opens the base name and holds no '/'. */
  function PdfTitle(path: string): (t: string)
    ensures t <= Basename(path)
    ensures '/' !in t
  {
    var b := Basename(path);
    var t := SplitextRoot(b);
    assert forall i | 0 <= i < |t| :: t[i] != '/' by {
      forall i | 0 <= i < |t| ensures t[i] != '/' {
        assert t[i] == b[i];
      }
    }
    t
  }

  /** The base name is what follows the last '/'. */
  lemma {:induction false} BasenameAfterSlash(dir: string, name: string)
    requires '/' !in name
    ensures Basename(dir + "/" + name) == name
  {
    RFindLast(dir, '/', name);
    assert (dir + "/" + name)[|dir| + 1..] == name;
  }

  /** Exactly the last extension is stripped: "report.v2.pdf" gives "report.v2". */
  lemma {:induction false} SplitextStripsLastExtension(stem: string, ext: string)
    requires '.' !in ext && '/' !in ext
    requires HasNonDot(stem)
    ensures SplitextRoot(stem + "." + ext) == stem
  {
    RFindLast(stem, '.', ext);
    var name := stem + "." + ext;
    assert name[..|stem|] == stem;
  }

  /** A name with no extension, or whose only dots lead it (".env"), is kept whole. */
  lemma {:induction false} SplitextKeepsPlainName(name: string)
    requires '.' !in name || (|name| > 0 && name[0] == '.' && '.' !in name[1..])
    ensures SplitextRoot(name) == name
  {
    if '.' in name {
      RFindLast([], '.', name[1..]);
      assert name == [] + ['.'] + name[1..];
    }
  }

  /** The PDF title of "dir/stem.ext" is "stem". */
  lemma PdfTitleOfPath(dir: string, stem: string, ext: string)
    requires '/' !in stem && '.' !in ext && '/' !in ext
    requires HasNonDot(stem)
    ensures PdfTitle(dir + "/" + stem + "." + ext) == stem
  {
    assert dir + "/" + stem + "." + ext == dir + "/" + (stem + "." + ext);
    BasenameAfterSlash(dir, stem + "." + ext);
    SplitextStripsLastExtension(stem, ext);
  }

  /** The metadata `load_pdf` attaches to every document it returns. */
  function PdfMetadata(path: string): (m: map<string, string>)
    ensures m.Keys == {"source", "title"} && m["source"] == path && m["title"] == PdfTitle(path)
  {
    map["source" := path, "title" := PdfTitle(path)]
  }

  /** The page texts one after the other. */
  function Concat(pages: seq<string>): string {
    if pages == [] then "" else Concat(pages[..|pages| - 1]) + pages[|pages| - 1]
  }

  /** Every page's text sits in the concatenation right after the pages before it. */
  lemma {:induction false} ConcatPageAt(pages: seq<string>, i: int)
    requires 0 <= i < |pages|
    ensures Concat(pages[..i]) + pages[i] <= Concat(pages)
    decreases |pages|
  {
    if i < |pages| - 1 {
      var init := pages[..|pages| - 1];
      assert init[..i] == pages[..i];
      ConcatPageAt(init, i);
    } else {
      assert pages[..i] == pages[..|pages| - 1];
    }
  }

  predicate AllRead(pages: seq<Option<string>>) {
    forall i :: 0 <= i < |pages| ==> pages[i].Some?
  }

  function PageTexts(pages: seq<Option<string>>): (ts: seq<string>)
    requires AllRead(pages)
    ensures |ts| == |pages| && forall i :: 0 <= i < |pages| ==> ts[i] == pages[i].value
  {
    seq(|pages|, i requires 0 <= i < |pages| && AllRead(pages) => pages[i].value)
  }

  /** `extract_text_with_ocr(file_path)`: `ocr` is `None` when converting the
      PDF to images fails, and page `i` is `None` when OCR of that page raises.
      The texts of all pages concatenated in page order, or "" on any error. */
  method ExtractTextWithOcr(ocr: Option<seq<Option<string>>>) returns (text: string)
    ensures ocr.None? || !AllRead(ocr.value) ==> text == ""
    ensures ocr.Some? && AllRead(ocr.value) ==> text == Concat(PageTexts(ocr.value))
  {
    if ocr.None? {
      return "";
    }
    var images := ocr.value;
    text := "";
    for i := 0 to |images|
      invariant AllRead(images[..i])
      invariant text == Concat(PageTexts(images[..i]))
    {
      if images[i].None? {
        return "";
      }
      assert PageTexts(images[..i + 1]) == PageTexts(images[..i]) + [images[i].value];
      text := text + images[i].value;
    }
    assert images[..|images|] == images;
  }

  /** `load_pdf(file_path)`: `loaded` is what the PDF loader's
      `load_and_split` returned (the texts of the split chunks), or the
      message of what it raised. One document per returned chunk, same text
      and order, titled after the file;
      OCR only when the loader found nothing, and then one document unless
      the OCR text is blank; never raises. */
  method LoadPdf(path: string, loaded: Result<seq<string>, string>, ocr: Option<seq<Option<string>>>)
    returns (docs: seq<LcDocument>)
    ensures loaded.Err? ==> docs == []
    ensures loaded.Ok? && loaded.value != [] ==>
      |docs| == |loaded.value|
      && forall i :: 0 <= i < |docs| ==> docs[i] == LcDocument(loaded.value[i], PdfMetadata(path))
    ensures loaded == Ok([]) ==>
      var text := if ocr.Some? && AllRead(ocr.value) then Concat(PageTexts(ocr.value)) else "";
      docs == if IsBlank(text) then [] else [LcDocument(text, PdfMetadata(path))]
  {
    if loaded.Err? {
      return [];
    }
    var documents := loaded.value;
    if documents != [] {
      var title := SplitextRoot(Basename(path));
      docs := seq(|documents|, i requires 0 <= i < |documents| =>
        LcDocument(documents[i], map["source" := path, "title" := title]));
    } else {
      var ocrText := ExtractTextWithOcr(ocr);
      if !IsBlank(ocrText) {
        var title := SplitextRoot(Basename(path));
        docs := [LcDocument(ocrText, map["source" := path, "title" := title])];
      } else {
        docs := [];
      }
    }
  }

  /** `fetch(title, url)` as written: `loaded` is what the web loader returned
      (the pages' texts) or raised. Every path ends in an exception wrapped
      with the same prefix; with content found, the call to the missing
      `Docs.from_web` is what raises. */
  function Fetch(title: string, url: string, loaded: Result<seq<string>, string>): (r: Result<Documents.Docs, string>)
    ensures r.Err? && StartsWith(r.error, FetchErrorPrefix)
    ensures loaded.Err? ==> r.error == FetchErrorPrefix + loaded.error
    ensures loaded == Ok([]) ==> r.error == FetchErrorPrefix + NoWebContent
    ensures loaded.Ok? && loaded.value != [] ==> r.error == FetchErrorPrefix + NoFromWeb
  {
    var failure :=
      if loaded.Err? then loaded.error
      else if loaded.value == [] then NoWebContent
      else NoFromWeb;
    assert (FetchErrorPrefix + failure)[..|FetchErrorPrefix|] == FetchErrorPrefix;
    Err(FetchErrorPrefix + failure)
  }

  /** A page that loads fine still cannot be fetched. */
  lemma FetchNeverSucceeds(title: string, url: string, content: string)
    ensures Fetch(title, url, Ok([content])) == Err(FetchErrorPrefix + NoFromWeb)
  {
  }

  /** `fetch` as evidently intended: the Docs record of the first page's text,
      with the given title and URL; failures wrapped as before. */
  function FetchIntended(title: string, url: string, loaded: Result<seq<string>, string>, now: int)
    : (r: Result<Documents.Docs, string>)
    ensures loaded.Ok? && loaded.value != [] <==> r.Ok?
    ensures r.Ok? ==> r.value.Metadata() == map["title" := title, "url" := url]
                      && r.value.content == loaded.value[0]
    ensures r.Err? ==> StartsWith(r.error, FetchErrorPrefix)
  {
    if loaded.Ok? && loaded.value != [] then Ok(Documents.NewDocs(title, url, loaded.value[0], now))
    else
      var failure := if loaded.Err? then loaded.error else NoWebContent;
      assert (FetchErrorPrefix + failure)[..|FetchErrorPrefix|] == FetchErrorPrefix;
      Err(FetchErrorPrefix + failure)
  }

  /** `load_docx(file_path)` as written: `loaded` is what the (PDF) loader
      returned or raised; with content found, the missing `Docs.from_file`
      raises. Every path ends in an exception wrapped with the same prefix. */
  function LoadDocx(path: string, loaded: Result<seq<string>, string>): (r: Result<Documents.Docs, string>)
    ensures r.Err? && StartsWith(r.error, DocxErrorPrefix)
    ensures loaded.Err? ==> r.error == DocxErrorPrefix + loaded.error
    ensures loaded == Ok([]) ==> r.error == DocxErrorPrefix + NoDocxContent
    ensures loaded.Ok? && loaded.value != [] ==> r.error == DocxErrorPrefix + NoFromFile
  {
    var failure :=
      if loaded.Err? then loaded.error
      else if loaded.value == [] then NoDocxContent
      else NoFromFile;
    assert (DocxErrorPrefix + failure)[..|DocxErrorPrefix|] == DocxErrorPrefix;
    Err(DocxErrorPrefix + failure)
  }
}
