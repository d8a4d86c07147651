/** The deterministic parts of the retrieve-then-generate run: where the
    answer is saved and what the file holds, which files of the input folder
    are loaded by which loader, and the vector-store selector that guards the
    run. */
module Rag {
  import opened Wrappers
  import opened FileSystem

  // ---------------------------------------------------------------------
  // Answer file name and body (save_response_to_file)
  // ---------------------------------------------------------------------

  /** `str.isalnum`, restricted to ASCII letters and digits. */
  predicate IsAlnum(c: char) {
    ('a' <= c <= 'z') || ('A' <= c <= 'Z') || ('0' <= c <= '9')
  }

  /** The characters a file name keeps as they are: alphanumerics and " _-". */
  predicate Kept(c: char) {
    IsAlnum(c) || c == ' ' || c == '_' || c == '-'
  }

  function SanitizeChar(c: char): char {
    if Kept(c) then c else '_'
  }

  /** The question with every character outside the kept set replaced by '_'. */
  function SanitizedStem(question: string): (stem: string)
    ensures |stem| == |question|
    ensures forall i :: 0 <= i < |stem| ==> Kept(stem[i])
    ensures forall i :: 0 <= i < |stem| && Kept(question[i]) ==> stem[i] == question[i]
    ensures forall i :: 0 <= i < |stem| && !Kept(question[i]) ==> stem[i] == '_'
  {
    if question == [] then [] else [SanitizeChar(question[0])] + SanitizedStem(question[1..])
  }

  const AnswerExtension := ".md"

  /** The file name the answer to `question` is saved under. */
  function SanitizedFileName(question: string): (name: string)
    ensures |name| == |question| + 3
    ensures name[|question|..] == ".md"
    ensures forall i :: 0 <= i < |question| ==> Kept(name[i])
    ensures forall i :: 0 <= i < |question| ==> name[i] == SanitizeChar(question[i])
  {
    SanitizedStem(question) + AnswerExtension
  }

  /** A stem is left alone by sanitising exactly when all of it is kept. */
  lemma {:induction false} StemFixedPoint(s: string)
    ensures SanitizedStem(s) == s <==> forall i :: 0 <= i < |s| ==> Kept(s[i])
  {
    if forall i :: 0 <= i < |s| ==> Kept(s[i]) {
      var t := SanitizedStem(s);
      assert forall i :: 0 <= i < |s| ==> t[i] == s[i];
    }
  }

  /** Sanitising twice is sanitising once. */
  lemma {:induction false} StemIdempotent(question: string)
    ensures SanitizedStem(SanitizedStem(question)) == SanitizedStem(question)
  {
    StemFixedPoint(SanitizedStem(question));
  }

  /** Distinct questions can share a file name: the later save overwrites. */
  lemma FileNamesCollide()
    ensures "Is it?" != "Is it!"
    ensures SanitizedFileName("Is it?") == SanitizedFileName("Is it!") == "Is it_.md"
  {
  }

  const ResponseHeader := "# Wikipedia page\n"

  /** The saved file: the fixed header line, then the answer verbatim. */
  function ResponseBody(answer: string): (body: string)
    ensures |body| == |ResponseHeader| + |answer|
    ensures body[..|ResponseHeader|] == ResponseHeader
    ensures body[|ResponseHeader|..] == answer
  {
    ResponseHeader + answer
  }

  /** The answer is recovered from the file by dropping the header line. */
  function AnswerOf(body: string): string
    requires |body| >= |ResponseHeader|
  {
    body[|ResponseHeader|..]
  }

  lemma ResponseBodyRoundTrip(answer: string)
    ensures AnswerOf(ResponseBody(answer)) == answer
  {
  }

  /** Two different answers never give the same file content. */
  lemma ResponseBodyInjective(a: string, b: string)
    requires ResponseBody(a) == ResponseBody(b)
    ensures a == b
  {
    ResponseBodyRoundTrip(a);
    ResponseBodyRoundTrip(b);
  }

  /** Where the answer to `question` is saved under `outputDir`. */
  function ResponsePath(outputDir: string, question: string): (path: string)
    ensures path == Join(outputDir, SanitizedFileName(question))
    ensures |path| == |outputDir| + |question| + 4
  {
    Join(outputDir, SanitizedFileName(question))
  }

  /** The file map after saving `answer` for `question` under `outputDir`. */
  function SavedFiles(files: map<string, string>, outputDir: string, question: string, answer: string): map<string, string>
  {
    files[ResponsePath(outputDir, question) := ResponseBody(answer)]
  }

  /** Saving the same question twice writes one path, holding the second answer. */
  lemma SaveTwiceOverwrites(files: map<string, string>, outputDir: string, question: string, first: string, second: string)
    ensures SavedFiles(SavedFiles(files, outputDir, question, first), outputDir, question, second)
         == SavedFiles(files, outputDir, question, second)
    ensures SavedFiles(files, outputDir, question, second)[ResponsePath(outputDir, question)] == ResponseBody(second)
  {
  }

  /** Creates the output folder, writes the answer file, returns its path. */
  method SaveResponseToFile(fs: FileStore, outputDir: string, question: string, answer: string) returns (path: string)
    modifies fs
    ensures path == ResponsePath(outputDir, question)
    ensures fs.dirs == old(fs.dirs) + {outputDir}
    ensures fs.files == SavedFiles(old(fs.files), outputDir, question, answer)
  {
    fs.MakeDir(outputDir);
    var name := SanitizedStem(question) + AnswerExtension;
    path := Join(outputDir, name);
    fs.Write(path, ResponseHeader + answer);
  }

  // ---------------------------------------------------------------------
  // Loading the input folder (load_documents_from_folder)
  // ---------------------------------------------------------------------

  /** A unit of loaded text with the path it came from. */
  datatype Document = Document(text: string, source: string)

  /** A loader maps a file path to the documents it reads from that file. */
  type Loader = string -> seq<Document>

  datatype Format = Pdf | Html | Unsupported

  /** `str.endswith`: case-sensitive suffix test. */
  predicate EndsWith(s: string, suffix: string) {
    |suffix| <= |s| && s[|s| - |suffix|..] == suffix
  }

  /** The loader a file name is dispatched to; ".pdf" is tested first. */
  function FormatOf(filename: string): (f: Format)
    ensures f == Pdf <==> EndsWith(filename, ".pdf")
    ensures f == Html <==> EndsWith(filename, ".html")
    ensures f == Unsupported <==> !EndsWith(filename, ".pdf") && !EndsWith(filename, ".html")
  {
    if EndsWith(filename, ".pdf") then
      // The two suffixes end in different letters, so no name has both.
      assert filename[|filename| - 1] == ".pdf"[3] != ".html"[4];
      Pdf
    else if EndsWith(filename, ".html") then Html
    else Unsupported
  }

  /** The notice printed for a file no loader takes. */
  function UnsupportedNotice(filename: string): string {
    "Unsupported format: " + filename
  }

  /** Documents one directory entry contributes. */
  function DocumentsOf(folder: string, filename: string, pdf: Loader, html: Loader): seq<Document> {
    match FormatOf(filename)
    case Pdf => pdf(Join(folder, filename))
    case Html => html(Join(folder, filename))
    case Unsupported => []
  }

  /** Notices one directory entry contributes. */
  function NoticesOf(filename: string): seq<string> {
    if FormatOf(filename) == Unsupported then [UnsupportedNotice(filename)] else []
  }

  /** Documents of a listing, entry after entry in listing order. */
  function LoadedDocuments(folder: string, listing: seq<string>, pdf: Loader, html: Loader): seq<Document>
    decreases |listing|
  {
    if listing == [] then []
    else LoadedDocuments(folder, listing[..|listing| - 1], pdf, html)
         + DocumentsOf(folder, listing[|listing| - 1], pdf, html)
  }

  /** Notices of a listing, entry after entry in listing order. */
  function Notices(listing: seq<string>): seq<string>
    decreases |listing|
  {
    if listing == [] then []
    else Notices(listing[..|listing| - 1]) + NoticesOf(listing[|listing| - 1])
  }

  /** Loading a listing in two parts loads each part, in order. */
  lemma {:induction false} LoadedDocumentsAppend(folder: string, a: seq<string>, b: seq<string>, pdf: Loader, html: Loader)
    ensures LoadedDocuments(folder, a + b, pdf, html)
         == LoadedDocuments(folder, a, pdf, html) + LoadedDocuments(folder, b, pdf, html)
    decreases |b|
  {
    if b == [] {
      assert a + b == a;
    } else {
      var b', last := b[..|b| - 1], b[|b| - 1];
      assert (a + b)[..|a + b| - 1] == a + b';
      assert (a + b)[|a + b| - 1] == last;
      calc {
        LoadedDocuments(folder, a + b, pdf, html);
        LoadedDocuments(folder, a + b', pdf, html) + DocumentsOf(folder, last, pdf, html);
        { LoadedDocumentsAppend(folder, a, b', pdf, html); }
        LoadedDocuments(folder, a, pdf, html) + LoadedDocuments(folder, b', pdf, html) + DocumentsOf(folder, last, pdf, html);
        LoadedDocuments(folder, a, pdf, html) + (LoadedDocuments(folder, b', pdf, html) + DocumentsOf(folder, last, pdf, html));
        LoadedDocuments(folder, a, pdf, html) + LoadedDocuments(folder, b, pdf, html);
      }
    }
  }

  /** Notices of a listing in two parts are those of each part, in order. */
  lemma {:induction false} NoticesAppend(a: seq<string>, b: seq<string>)
    ensures Notices(a + b) == Notices(a) + Notices(b)
    decreases |b|
  {
    if b == [] {
      assert a + b == a;
    } else {
      var b', last := b[..|b| - 1], b[|b| - 1];
      assert (a + b)[..|a + b| - 1] == a + b';
      assert (a + b)[|a + b| - 1] == last;
      NoticesAppend(a, b');
    }
  }

  /** The first entry's documents and notices come first. */
  lemma LoadedDocumentsCons(folder: string, name: string, rest: seq<string>, pdf: Loader, html: Loader)
    ensures LoadedDocuments(folder, [name] + rest, pdf, html)
         == DocumentsOf(folder, name, pdf, html) + LoadedDocuments(folder, rest, pdf, html)
    ensures Notices([name] + rest) == NoticesOf(name) + Notices(rest)
  {
    LoadedDocumentsAppend(folder, [name], rest, pdf, html);
    NoticesAppend([name], rest);
    assert LoadedDocuments(folder, [name], pdf, html) == DocumentsOf(folder, name, pdf, html);
    assert Notices([name]) == NoticesOf(name);
  }

  /** Per-entry document counts, summed over the listing. */
  function DocumentCount(folder: string, listing: seq<string>, pdf: Loader, html: Loader): nat {
    if listing == [] then 0
    else |DocumentsOf(folder, listing[0], pdf, html)| + DocumentCount(folder, listing[1..], pdf, html)
  }

  /** Number of entries of the listing that no loader takes. */
  function UnsupportedCount(listing: seq<string>): nat {
    if listing == [] then 0
    else (if FormatOf(listing[0]) == Unsupported then 1 else 0) + UnsupportedCount(listing[1..])
  }

  /** The load yields the sum of the per-file document counts and one notice
      per unsupported entry. */
  lemma {:induction false} LoadCounts(folder: string, listing: seq<string>, pdf: Loader, html: Loader)
    ensures |LoadedDocuments(folder, listing, pdf, html)| == DocumentCount(folder, listing, pdf, html)
    ensures |Notices(listing)| == UnsupportedCount(listing)
  {
    if listing != [] {
      var name, rest := listing[0], listing[1..];
      assert [name] + rest == listing;
      LoadedDocumentsCons(folder, name, rest, pdf, html);
      LoadCounts(folder, rest, pdf, html);
      assert |NoticesOf(name)| == if FormatOf(name) == Unsupported then 1 else 0;
    }
  }

  /** A listing of unsupported names only loads nothing and reports each name once. */
  lemma {:induction false} UnsupportedOnly(folder: string, listing: seq<string>, pdf: Loader, html: Loader)
    requires forall i :: 0 <= i < |listing| ==> FormatOf(listing[i]) == Unsupported
    ensures LoadedDocuments(folder, listing, pdf, html) == []
    ensures |Notices(listing)| == |listing|
    ensures forall i :: 0 <= i < |listing| ==> Notices(listing)[i] == UnsupportedNotice(listing[i])
    decreases |listing|
  {
    if listing != [] {
      var init := listing[..|listing| - 1];
      UnsupportedOnly(folder, init, pdf, html);
    }
  }

  /** Suffix matching is case-sensitive: upper-case extensions are not loaded. */
  lemma ExtensionCaseSensitive()
    ensures FormatOf("X.PDF") == Unsupported && FormatOf("X.HTML") == Unsupported
    ensures FormatOf("X.pdf") == Pdf && FormatOf("X.html") == Html
  {
  }

  /** Walks the listing, extending the document list in place and printing a
      notice for every entry no loader takes. */
  method LoadDocumentsFromFolder(folder: string, listing: seq<string>, pdf: Loader, html: Loader)
    returns (documents: seq<Document>, notices: seq<string>)
    ensures documents == LoadedDocuments(folder, listing, pdf, html)
    ensures notices == Notices(listing)
  {
    documents, notices := [], [];
    var i := 0;
    while i < |listing|
      invariant 0 <= i <= |listing|
      invariant documents == LoadedDocuments(folder, listing[..i], pdf, html)
      invariant notices == Notices(listing[..i])
    {
      var filename := listing[i];
      var filePath := Join(folder, filename);
      if EndsWith(filename, ".pdf") {
        documents := documents + pdf(filePath);
      } else if EndsWith(filename, ".html") {
        documents := documents + html(filePath);
      } else {
        notices := notices + [UnsupportedNotice(filename)];
      }
      assert listing[..i + 1][..i] == listing[..i];
      i := i + 1;
    }
    assert listing[..i] == listing;
  }

  // ---------------------------------------------------------------------
  // Vector-store selection (main)
  // ---------------------------------------------------------------------

  /** The one vector store the run can build. */
  datatype VectorStore = InMemoryVectorStore

  /** Only "InMemory" selects a store; any other name is a ValueError. */
  function SelectVectorStore(kind: string): (r: Result<VectorStore>)
    ensures r.Ok? <==> kind == "InMemory"
    ensures r.Err? ==> r.error == "Unknown vector store type: " + kind
  {
    if kind == "InMemory" then Ok(InMemoryVectorStore)
    else Err("Unknown vector store type: " + kind)
  }

  /** The start of the run: select the store, then load the folder. An
      unknown store aborts before any file is loaded or any notice printed. */
  method PrepareDocuments(kind: string, folder: string, listing: seq<string>, pdf: Loader, html: Loader)
    returns (r: Result<seq<Document>>, notices: seq<string>)
    ensures kind != "InMemory" ==> r == Err("Unknown vector store type: " + kind) && notices == []
    ensures kind == "InMemory" ==> r == Ok(LoadedDocuments(folder, listing, pdf, html)) && notices == Notices(listing)
  {
    var store := SelectVectorStore(kind);
    if store.Err? {
      return Err(store.error), [];
    }
    var documents;
    documents, notices := LoadDocumentsFromFolder(folder, listing, pdf, html);
    r := Ok(documents);
  }
}
