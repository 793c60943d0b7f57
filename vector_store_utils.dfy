/** Incremental ingestion of a workspace's uploaded files into its persisted vector store
    (lib/vectorStoreUtils.js): initializeVectorStore loads the store or seeds a new one with a
    placeholder document, and processFiles embeds only the files the store's docstore does not
    already name, reporting which files were processed and which were skipped.

    The vector store is an append-only sequence of documents (the docstore mirrors the index one
    entry per vector). The PDF loader, the text splitter, the embedding provider and the disk writes
    of the store are collaborators whose outcome the model takes as given functions that may fail. */
module VectorStoreUtils {

  import opened Wrappers
  import opened Text
  import opened Seqs

  /** Chunk size and overlap of every RecursiveCharacterTextSplitter the ingestion creates. */
  const ChunkSize: nat := 1000
  const ChunkOverlap: nat := 200

  /** Extensions (after toLowerCase) that pass processFiles' first filter; only ".pdf" has a loader. */
  const SupportedExtensions: seq<string> := [".pdf", ".doc", ".docx"]

  /** A document of the store: its text and its metadata.source, when the metadata has one. */
  datatype Doc = Doc(pageContent: string, source: Option<string>)

  /** `doc.metadata && doc.metadata.source` in JavaScript: a source that is present and non-empty. */
  predicate HasSource(d: Doc)
  {
    d.source.Some? && d.source.value != ""
  }

  /** The collaborators of the ingestion, as functions of what they are given.
      loadPdf: PDFLoader on a file path, the text of each page, or a failure.
      splitText: RecursiveCharacterTextSplitter with a chunk size and overlap, or a failure.
      embedOk: whether the embedding provider embeds a batch of documents (addDocuments / fromDocuments).
      saveOk: whether HNSWLib's save of a store holding these documents succeeds.
      loadStoreOk: whether HNSWLib's load of a workspace's existing store succeeds. */
  datatype Services = Services(
    loadPdf: string -> Option<seq<string>>,
    splitText: (string, nat, nat) -> Option<seq<string>>,
    embedOk: seq<Doc> -> bool,
    saveOk: seq<Doc> -> bool,
    loadStoreOk: string -> bool)

  /** The metadata.source values occurring in docs. */
  function SourcesOf(docs: seq<Doc>): set<Option<string>>
  {
    set d | d in docs :: d.source
  }

  /** splitDocuments: every document is split into chunks, each chunk carrying the metadata of the
      document it comes from; a failure of the splitter on any document fails the whole call. */
  function SplitDocuments(svc: Services, docs: seq<Doc>): (r: Option<seq<Doc>>)
    ensures r.Some? ==> SourcesOf(r.value) <= SourcesOf(docs)
    decreases |docs|
  {
    if docs == [] then Some([])
    else
      match svc.splitText(docs[0].pageContent, ChunkSize, ChunkOverlap)
      case None => None
      case Some(texts) =>
        match SplitDocuments(svc, docs[1..])
        case None => None
        case Some(rest) =>
          var chunks := seq(|texts|, i requires 0 <= i < |texts| => Doc(texts[i], docs[0].source));
          assert SourcesOf(chunks) <= {docs[0].source};
          assert SourcesOf(chunks + rest) == SourcesOf(chunks) + SourcesOf(rest);
          Some(chunks + rest)
  }

  /** The documents seeding a new store: the workspace name as content, with empty metadata. */
  function PlaceholderDocs(svc: Services, workspace: string): Option<seq<Doc>>
  {
    SplitDocuments(svc, [Doc(workspace, None)])
  }

  /** Where processFiles finds an uploaded file (the process's working directory left out). */
  function UploadPath(workspace: string, name: string): string
  {
    "public/uploads/" + workspace + "/" + name
  }

  /** PDFLoader.load: one document per page, each with metadata.source set to the loaded path. */
  function LoadPdfDocs(svc: Services, path: string): (r: Option<seq<Doc>>)
    ensures r.Some? ==> SourcesOf(r.value) <= {Some(path)}
  {
    match svc.loadPdf(path)
    case None => None
    case Some(pages) => Some(seq(|pages|, i requires 0 <= i < |pages| => Doc(pages[i], Some(path))))
  }

  /** The names processFiles treats as already ingested: the basename of every non-empty
      metadata.source in the docstore. */
  function SourceNames(docs: seq<Doc>): set<string>
  {
    set d | d in docs && HasSource(d) :: Basename(d.source.value)
  }

  lemma SourceNamesConcat(a: seq<Doc>, b: seq<Doc>)
    ensures SourceNames(a + b) == SourceNames(a) + SourceNames(b)
  {
    assert forall d :: d in a + b <==> d in a || d in b;
  }

  /** The placeholder seeding a new store names no file, so it never causes a file to be skipped. */
  lemma PlaceholderNamesNothing(svc: Services, workspace: string, docs: seq<Doc>)
    requires PlaceholderDocs(svc, workspace).Some?
    ensures SourceNames(PlaceholderDocs(svc, workspace).value) == {}
    ensures SourceNames(docs + PlaceholderDocs(svc, workspace).value) == SourceNames(docs)
  {
    var init := PlaceholderDocs(svc, workspace).value;
    assert SourcesOf([Doc(workspace, None)]) == {None};
    forall d | d in init ensures !HasSource(d) {
      assert d.source in SourcesOf(init);
    }
    SourceNamesConcat(docs, init);
  }

  /** Why processFiles skips a file. */
  datatype SkipReason =
    | AlreadyProcessed  // its name is in the docstore
    | UnsupportedType   // its extension is not .pdf, .doc or .docx
    | NoLoader          // .doc or .docx: accepted by the filter, but only PDF has a loader
    | LoadFailed        // the PDF loader failed
    | SplitFailed       // the splitter failed
    | AddFailed         // embedding the chunks into the store failed

  datatype Verdict = Processed(chunks: seq<Doc>) | Skipped(reason: SkipReason)

  /** What one iteration of processFiles' loop decides for the file `name`, given the set `seen`
      of names read from the docstore before the loop. */
  function Examine(svc: Services, workspace: string, seen: set<string>, name: string): (v: Verdict)
    ensures name in seen ==> v == Skipped(AlreadyProcessed)
    ensures v.Processed? ==> name !in seen && ToLower(Extname(name)) == ".pdf"
    ensures v.Processed? ==> svc.embedOk(v.chunks)
    ensures ToLower(Extname(name)) in {".doc", ".docx"} && name !in seen ==> v == Skipped(NoLoader)
  {
    var ext := ToLower(Extname(name));
    if name in seen then Skipped(AlreadyProcessed)
    else if ext !in SupportedExtensions then Skipped(UnsupportedType)
    else if ext != ".pdf" then Skipped(NoLoader)
    else IngestPdf(svc, UploadPath(workspace, name))
  }

  /** The try block of processFiles' loop for a PDF at `path`: load, split, add. */
  function IngestPdf(svc: Services, path: string): (v: Verdict)
    ensures v.Processed? ==> svc.embedOk(v.chunks)
    ensures v.Processed? || v.reason in {LoadFailed, SplitFailed, AddFailed}
  {
    match LoadPdfDocs(svc, path)
    case None => Skipped(LoadFailed)
    case Some(pages) =>
      match SplitDocuments(svc, pages)
      case None => Skipped(SplitFailed)
      case Some(chunks) => if svc.embedOk(chunks) then Processed(chunks) else Skipped(AddFailed)
  }

  /** The chunks of a processed file all carry the file's upload path as their source. */
  lemma ProcessedChunksSourced(svc: Services, workspace: string, seen: set<string>, name: string)
    requires Examine(svc, workspace, seen, name).Processed?
    ensures SourcesOf(Examine(svc, workspace, seen, name).chunks) <= {Some(UploadPath(workspace, name))}
  {
  }

  function IsProcessed(svc: Services, workspace: string, seen: set<string>): string -> bool
  {
    name => Examine(svc, workspace, seen, name).Processed?
  }

  /** processedFiles of a call with docstore names `seen`. */
  function ProcessedNames(svc: Services, workspace: string, seen: set<string>, files: seq<string>): seq<string>
  {
    Filter(IsProcessed(svc, workspace, seen), files)
  }

  /** skippedFiles of a call with docstore names `seen`. */
  function SkippedNames(svc: Services, workspace: string, seen: set<string>, files: seq<string>): seq<string>
  {
    Reject(IsProcessed(svc, workspace, seen), files)
  }

  /** The chunks one file adds to the store: its chunks when processed, nothing otherwise. */
  function Contribution(svc: Services, workspace: string, seen: set<string>, name: string): seq<Doc>
  {
    var v := Examine(svc, workspace, seen, name);
    if v.Processed? then v.chunks else []
  }

  function Contributions(svc: Services, workspace: string, seen: set<string>): string -> seq<Doc>
  {
    name => Contribution(svc, workspace, seen, name)
  }

  /** The documents the loop adds to the store, file after file. */
  function AddedDocs(svc: Services, workspace: string, seen: set<string>, files: seq<string>): seq<Doc>
  {
    FlatMap(Contributions(svc, workspace, seen), files)
  }

  lemma AddedDocsConcat(svc: Services, workspace: string, seen: set<string>, a: seq<string>, b: seq<string>)
    ensures AddedDocs(svc, workspace, seen, a + b) == AddedDocs(svc, workspace, seen, a) + AddedDocs(svc, workspace, seen, b)
  {
    FlatMapConcat(Contributions(svc, workspace, seen), a, b);
  }

  lemma AddedDocsSnoc(svc: Services, workspace: string, seen: set<string>, a: seq<string>, f: string)
    ensures AddedDocs(svc, workspace, seen, a + [f]) ==
            AddedDocs(svc, workspace, seen, a) + Contribution(svc, workspace, seen, f)
  {
    AddedDocsConcat(svc, workspace, seen, a, [f]);
    AddedDocsSingle(svc, workspace, seen, f);
  }

  /** A batch of one file adds that file's chunks. */
  lemma AddedDocsSingle(svc: Services, workspace: string, seen: set<string>, f: string)
    ensures AddedDocs(svc, workspace, seen, [f]) == Contribution(svc, workspace, seen, f)
  {
    FlatMapSingle(Contributions(svc, workspace, seen), f);
  }

  /** One file more at the end of the batch lands in exactly one of the two lists. */
  lemma NamesSnoc(svc: Services, workspace: string, seen: set<string>, a: seq<string>, f: string)
    ensures ProcessedNames(svc, workspace, seen, a + [f]) ==
            ProcessedNames(svc, workspace, seen, a) + (if Examine(svc, workspace, seen, f).Processed? then [f] else [])
    ensures SkippedNames(svc, workspace, seen, a + [f]) ==
            SkippedNames(svc, workspace, seen, a) + (if Examine(svc, workspace, seen, f).Processed? then [] else [f])
  {
    FilterSnoc(IsProcessed(svc, workspace, seen), a, f);
    RejectSnoc(IsProcessed(svc, workspace, seen), a, f);
  }

  /** The store after one file more holds what it held plus that file's chunks. */
  lemma AddedAfter(svc: Services, workspace: string, seen: set<string>, docs0: seq<Doc>, done: seq<string>, name: string)
    ensures docs0 + AddedDocs(svc, workspace, seen, done + [name]) ==
            (docs0 + AddedDocs(svc, workspace, seen, done)) + Contribution(svc, workspace, seen, name)
  {
    AddedDocsSnoc(svc, workspace, seen, done, name);
  }

  /** A file's fate does not depend on the other files of the batch: the outcome of a batch is the
      outcome of its parts, so a file that fails neither stops the loop nor changes what happens to
      the files after it. */
  lemma BatchIsSumOfParts(svc: Services, workspace: string, seen: set<string>, a: seq<string>, b: seq<string>)
    ensures ProcessedNames(svc, workspace, seen, a + b) == ProcessedNames(svc, workspace, seen, a) + ProcessedNames(svc, workspace, seen, b)
    ensures SkippedNames(svc, workspace, seen, a + b) == SkippedNames(svc, workspace, seen, a) + SkippedNames(svc, workspace, seen, b)
    ensures AddedDocs(svc, workspace, seen, a + b) == AddedDocs(svc, workspace, seen, a) + AddedDocs(svc, workspace, seen, b)
  {
    FilterConcat(IsProcessed(svc, workspace, seen), a, b);
    RejectConcat(IsProcessed(svc, workspace, seen), a, b);
    AddedDocsConcat(svc, workspace, seen, a, b);
  }

  /** A file that is skipped, for whatever reason, between two parts of a batch contributes nothing
      and leaves the outcome of the rest as if it were absent. */
  lemma FailingFileIsolated(svc: Services, workspace: string, seen: set<string>, a: seq<string>, bad: string, b: seq<string>)
    requires Examine(svc, workspace, seen, bad).Skipped?
    ensures ProcessedNames(svc, workspace, seen, a + [bad] + b) == ProcessedNames(svc, workspace, seen, a + b)
    ensures AddedDocs(svc, workspace, seen, a + [bad] + b) == AddedDocs(svc, workspace, seen, a + b)
    ensures SkippedNames(svc, workspace, seen, a + [bad] + b) ==
            SkippedNames(svc, workspace, seen, a) + [bad] + SkippedNames(svc, workspace, seen, b)
  {
    var p := IsProcessed(svc, workspace, seen);
    SkippedAlone(svc, workspace, seen, bad);
    FilterConcat(p, a + [bad], b);
    FilterConcat(p, a, [bad]);
    FilterConcat(p, a, b);
    assert ProcessedNames(svc, workspace, seen, a + [bad]) == ProcessedNames(svc, workspace, seen, a);
    RejectConcat(p, a + [bad], b);
    RejectConcat(p, a, [bad]);
    assert SkippedNames(svc, workspace, seen, a + [bad]) == SkippedNames(svc, workspace, seen, a) + [bad];
    AddedDocsConcat(svc, workspace, seen, a + [bad], b);
    AddedDocsConcat(svc, workspace, seen, a, [bad]);
    AddedDocsConcat(svc, workspace, seen, a, b);
    assert AddedDocs(svc, workspace, seen, a + [bad]) == AddedDocs(svc, workspace, seen, a);
  }

  lemma SkippedAlone(svc: Services, workspace: string, seen: set<string>, bad: string)
    requires Examine(svc, workspace, seen, bad).Skipped?
    ensures ProcessedNames(svc, workspace, seen, [bad]) == []
    ensures SkippedNames(svc, workspace, seen, [bad]) == [bad]
    ensures AddedDocs(svc, workspace, seen, [bad]) == []
  {
    var p := IsProcessed(svc, workspace, seen);
    assert !p(bad);
    assert [bad][1..] == [];
    AddedDocsSingle(svc, workspace, seen, bad);
  }

  /** The docstore names are read once, before the loop: a file listed twice in one batch is
      processed, and its chunks added, twice. */
  lemma DuplicateInBatchProcessedTwice(svc: Services, workspace: string, seen: set<string>, f: string)
    requires Examine(svc, workspace, seen, f).Processed?
    ensures ProcessedNames(svc, workspace, seen, [f, f]) == [f, f]
    ensures AddedDocs(svc, workspace, seen, [f, f]) ==
            Examine(svc, workspace, seen, f).chunks + Examine(svc, workspace, seen, f).chunks
  {
    BatchIsSumOfParts(svc, workspace, seen, [f], [f]);
    assert [f] + [f] == [f, f];
  }

  /** Every input file lands in exactly one of the two lists, and each list keeps input order. */
  lemma ClassificationPartitions(svc: Services, workspace: string, seen: set<string>, files: seq<string>)
    ensures Interleaving(files, ProcessedNames(svc, workspace, seen, files), SkippedNames(svc, workspace, seen, files))
    ensures multiset(ProcessedNames(svc, workspace, seen, files)) + multiset(SkippedNames(svc, workspace, seen, files)) == multiset(files)
  {
    FilterSplitInterleaves(IsProcessed(svc, workspace, seen), files);
    FilterSplitMultiset(IsProcessed(svc, workspace, seen), files);
  }

  /** A name is reported processed exactly when it is not in the docstore, its lower-cased extension
      is ".pdf", and loading, splitting and embedding it all succeed. */
  lemma ProcessedExactly(svc: Services, workspace: string, seen: set<string>, files: seq<string>, name: string)
    ensures name in ProcessedNames(svc, workspace, seen, files) <==>
      && name in files
      && name !in seen
      && ToLower(Extname(name)) == ".pdf"
      && LoadPdfDocs(svc, UploadPath(workspace, name)).Some?
      && SplitDocuments(svc, LoadPdfDocs(svc, UploadPath(workspace, name)).value).Some?
      && svc.embedOk(SplitDocuments(svc, LoadPdfDocs(svc, UploadPath(workspace, name)).value).value)
  {
    FilterMembership(IsProcessed(svc, workspace, seen), files, name);
  }

  /** A plain file name: what a directory listing of the upload folder yields. */
  predicate PlainName(name: string)
  {
    name != "" && forall i :: 0 <= i < |name| ==> name[i] != '/'
  }

  /** A processed file whose chunks are not empty is named by the documents added for it. */
  lemma {:induction false} ProcessedFilesRecorded(svc: Services, workspace: string, seen: set<string>, files: seq<string>, f: string)
    requires PlainName(f) && f in files
    requires Examine(svc, workspace, seen, f).Processed? && Examine(svc, workspace, seen, f).chunks != []
    ensures f in SourceNames(AddedDocs(svc, workspace, seen, files))
    decreases |files|
  {
    if files[0] == f {
      var c := Examine(svc, workspace, seen, f).chunks;
      ProcessedChunksSourced(svc, workspace, seen, f);
      assert c[0] in c;
      assert c[0].source in SourcesOf(c);
      BasenameOfJoin("public/uploads/" + workspace, f);
      assert f in SourceNames(c);
      SourceNamesConcat(c, AddedDocs(svc, workspace, seen, files[1..]));
    } else {
      var v := Examine(svc, workspace, seen, files[0]);
      ProcessedFilesRecorded(svc, workspace, seen, files[1..], f);
      SourceNamesConcat(if v.Processed? then v.chunks else [], AddedDocs(svc, workspace, seen, files[1..]));
    }
  }

  /** A PDF that loads and embeds but splits into no chunk is reported processed, yet nothing names
      it afterwards: every later call processes it again. */
  lemma ChunklessPdfProcessedAgain(svc: Services, workspace: string, docs: seq<Doc>, f: string)
    requires Examine(svc, workspace, SourceNames(docs), f) == Processed([])
    ensures ProcessedNames(svc, workspace, SourceNames(docs), [f]) == [f]
    ensures var after := docs + AddedDocs(svc, workspace, SourceNames(docs), [f]);
            Examine(svc, workspace, SourceNames(after), f) == Processed([])
  {
    AddedDocsSingle(svc, workspace, SourceNames(docs), f);
    assert docs + [] == docs;
  }

  // ---------------------------------------------------------------------------------------------
  // State: the store directory on disk and the in-memory vector store.

  /** What a workspace's store directory holds once hnswlib.index exists: the documents the index
      and docstore.json were saved with, and whether docstore.json is readable as JSON. */
  datatype StoreFiles = StoreFiles(docs: seq<Doc>, docstoreParses: bool)

  /** The directory vector_stores/: for each workspace whose hnswlib.index exists, its files. */
  class StoreDir {
    var stores: map<string, StoreFiles>

    constructor (stores: map<string, StoreFiles>)
      ensures this.stores == stores
    {
      this.stores := stores;
    }
  }

  /** An in-memory HNSWLib store; its docstore has one document per indexed vector. */
  class VectorStore {
    var docs: seq<Doc>

    /** HNSWLib.fromDocuments / HNSWLib.load after their embedding or reading succeeded. */
    constructor (docs: seq<Doc>)
      ensures this.docs == docs
    {
      this.docs := docs;
    }

    /** addDocuments: embeds the batch and appends it; on an embedding failure nothing is added. */
    method AddDocuments(svc: Services, batch: seq<Doc>) returns (ok: bool)
      modifies this
      ensures ok == svc.embedOk(batch)
      ensures docs == if ok then old(docs) + batch else old(docs)
    {
      ok := svc.embedOk(batch);
      if ok {
        docs := docs + batch;
      }
    }
  }

  datatype IngestError =
    | LoadStoreFailed      // HNSWLib.load of the existing store threw
    | SeedSplitFailed      // splitting the placeholder of a new store threw
    | SeedEmbedFailed      // embedding the placeholder of a new store threw
    | SeedSaveFailed       // saving the new store threw
    | DocstoreParseFailed  // 'Error parsing docstore.'
    | SaveFailed           // 'Error saving vector store.'

  datatype Outcome = Outcome(processedFiles: seq<string>, skippedFiles: seq<string>)

  /** The documents of the store initializeVectorStore returns. */
  function Initialized(stores: map<string, StoreFiles>, workspace: string, svc: Services): Result<seq<Doc>, IngestError>
  {
    if workspace in stores then
      if svc.loadStoreOk(workspace) then Success(stores[workspace].docs) else Failure(LoadStoreFailed)
    else
      match PlaceholderDocs(svc, workspace)
      case None => Failure(SeedSplitFailed)
      case Some(init) =>
        if !svc.embedOk(init) then Failure(SeedEmbedFailed)
        else if !svc.saveOk(init) then Failure(SeedSaveFailed)
        else Success(init)
  }

  /** The store directory after initializeVectorStore: a newly seeded store has been saved, and
      nothing else is written: an existing store is only loaded, and a failed seeding saves nothing. */
  function StoresAfterInit(stores: map<string, StoreFiles>, workspace: string, svc: Services): (r: map<string, StoreFiles>)
    ensures Initialized(stores, workspace, svc).Success? ==>
      workspace in r && r[workspace].docs == Initialized(stores, workspace, svc).value
    ensures forall w :: w in stores ==> w in r && r[w] == stores[w]
    ensures workspace in stores || Initialized(stores, workspace, svc).Failure? ==> r == stores
    ensures r.Keys <= stores.Keys + {workspace}
  {
    if workspace !in stores && Initialized(stores, workspace, svc).Success? then
      stores[workspace := StoreFiles(Initialized(stores, workspace, svc).value, true)]
    else stores
  }

  /** processFiles as a function of the store directory it starts from: its result and the store
      directory it leaves. */
  function Ingest(stores: map<string, StoreFiles>, workspace: string, svc: Services, files: seq<string>)
    : (Result<Outcome, IngestError>, map<string, StoreFiles>)
  {
    var stores1 := StoresAfterInit(stores, workspace, svc);
    match Initialized(stores, workspace, svc)
    case Failure(e) => (Failure(e), stores1)
    case Success(docs0) =>
      if !stores1[workspace].docstoreParses then (Failure(DocstoreParseFailed), stores1)
      else
        var seen := SourceNames(docs0);
        var outcome := Outcome(ProcessedNames(svc, workspace, seen, files), SkippedNames(svc, workspace, seen, files));
        var docs1 := docs0 + AddedDocs(svc, workspace, seen, files);
        if outcome.processedFiles == [] then (Success(outcome), stores1)
        else if !svc.saveOk(docs1) then (Failure(SaveFailed), stores1)
        else (Success(outcome), stores1[workspace := StoreFiles(docs1, true)])
  }

  /** What a successful call reports: every input file in exactly one list, each in input order;
      only .pdf files absent from the docstore among the processed; every file the docstore names
      among the skipped. */
  lemma IngestReports(stores: map<string, StoreFiles>, workspace: string, svc: Services, files: seq<string>)
    requires Ingest(stores, workspace, svc, files).0.Success?
    ensures var o := Ingest(stores, workspace, svc, files).0.value;
      var seen := SourceNames(StoresAfterInit(stores, workspace, svc)[workspace].docs);
      && Interleaving(files, o.processedFiles, o.skippedFiles)
      && (forall i :: 0 <= i < |o.processedFiles| ==>
            o.processedFiles[i] !in seen && ToLower(Extname(o.processedFiles[i])) == ".pdf")
      && (forall i :: 0 <= i < |files| && files[i] in seen ==> files[i] in o.skippedFiles)
  {
    var seen := SourceNames(StoresAfterInit(stores, workspace, svc)[workspace].docs);
    var o := Ingest(stores, workspace, svc, files).0.value;
    assert o == Outcome(ProcessedNames(svc, workspace, seen, files), SkippedNames(svc, workspace, seen, files));
    ClassificationPartitions(svc, workspace, seen, files);
    forall i | 0 <= i < |o.processedFiles|
      ensures o.processedFiles[i] !in seen && ToLower(Extname(o.processedFiles[i])) == ".pdf"
    {
      FilterMembership(IsProcessed(svc, workspace, seen), files, o.processedFiles[i]);
    }
    forall i | 0 <= i < |files| && files[i] in seen ensures files[i] in o.skippedFiles {
      RejectMembership(IsProcessed(svc, workspace, seen), files, files[i]);
    }
  }

  /** What a successful call leaves: nothing written when no file was processed; otherwise the
      store saved, grown by exactly the chunks of the processed files. */
  lemma IngestSavesOnlyWhenProcessed(stores: map<string, StoreFiles>, workspace: string, svc: Services, files: seq<string>)
    requires Ingest(stores, workspace, svc, files).0.Success?
    ensures var (r, after) := Ingest(stores, workspace, svc, files);
      var before := StoresAfterInit(stores, workspace, svc);
      var seen := SourceNames(before[workspace].docs);
      && (r.value.processedFiles == [] ==>
            after == before && AddedDocs(svc, workspace, seen, files) == [])
      && (r.value.processedFiles != [] ==>
            after == before[workspace := StoreFiles(before[workspace].docs + AddedDocs(svc, workspace, seen, files), true)])
  {
    var before := StoresAfterInit(stores, workspace, svc);
    var seen := SourceNames(before[workspace].docs);
    if ProcessedNames(svc, workspace, seen, files) == [] {
      NothingAddedWithoutProcessed(svc, workspace, seen, files);
    }
  }

  lemma {:induction false} NothingAddedWithoutProcessed(svc: Services, workspace: string, seen: set<string>, files: seq<string>)
    requires ProcessedNames(svc, workspace, seen, files) == []
    ensures AddedDocs(svc, workspace, seen, files) == []
    decreases |files|
  {
    if files != [] {
      assert !IsProcessed(svc, workspace, seen)(files[0]);
      NothingAddedWithoutProcessed(svc, workspace, seen, files[1..]);
    }
  }

  /** A save failure after files were added makes the whole call fail instead of reporting them. */
  lemma SaveFailureThrows(stores: map<string, StoreFiles>, workspace: string, svc: Services, files: seq<string>)
    requires Initialized(stores, workspace, svc).Success?
    requires StoresAfterInit(stores, workspace, svc)[workspace].docstoreParses
    requires var seen := SourceNames(Initialized(stores, workspace, svc).value);
      ProcessedNames(svc, workspace, seen, files) != [] &&
      !svc.saveOk(Initialized(stores, workspace, svc).value + AddedDocs(svc, workspace, seen, files))
    ensures Ingest(stores, workspace, svc, files) == (Failure(SaveFailed), StoresAfterInit(stores, workspace, svc))
  {
  }

  /** An unreadable docstore aborts the call before any file is examined, and nothing is written. */
  lemma UnreadableDocstoreAborts(stores: map<string, StoreFiles>, workspace: string, svc: Services, files: seq<string>)
    requires workspace in stores && svc.loadStoreOk(workspace) && !stores[workspace].docstoreParses
    ensures Ingest(stores, workspace, svc, files) == (Failure(DocstoreParseFailed), stores)
  {
  }

  /** Ingestion is idempotent: after a successful call, the same call again (with the store loading)
      skips every file and leaves the store as it is, provided the files are plain names and every
      processed file yielded at least one chunk. */
  lemma IngestTwiceSkipsAll(stores: map<string, StoreFiles>, workspace: string, svc: Services, files: seq<string>)
    requires Ingest(stores, workspace, svc, files).0.Success?
    requires svc.loadStoreOk(workspace)
    requires forall i :: 0 <= i < |files| ==> PlainName(files[i])
    requires var seen := SourceNames(StoresAfterInit(stores, workspace, svc)[workspace].docs);
      forall i :: 0 <= i < |files| && Examine(svc, workspace, seen, files[i]).Processed? ==>
        Examine(svc, workspace, seen, files[i]).chunks != []
    ensures var after := Ingest(stores, workspace, svc, files).1;
      Ingest(after, workspace, svc, files) == (Success(Outcome([], files)), after)
  {
    IngestSavesOnlyWhenProcessed(stores, workspace, svc, files);
    var before := StoresAfterInit(stores, workspace, svc);
    var docs0 := before[workspace].docs;
    var seen := SourceNames(docs0);
    var added := AddedDocs(svc, workspace, seen, files);
    var after := Ingest(stores, workspace, svc, files).1;
    assert after[workspace].docs == docs0 + added;
    assert after[workspace].docstoreParses;
    SourceNamesConcat(docs0, added);
    var seen2 := SourceNames(docs0 + added);
    forall i | 0 <= i < |files| ensures !IsProcessed(svc, workspace, seen2)(files[i]) {
      var f := files[i];
      if f !in seen2 {
        if Examine(svc, workspace, seen, f).Processed? {
          ProcessedFilesRecorded(svc, workspace, seen, files, f);
        }
        assert Examine(svc, workspace, seen2, f) == Examine(svc, workspace, seen, f);
      }
    }
    FilterNone(IsProcessed(svc, workspace, seen2), files);
    RejectAll(IsProcessed(svc, workspace, seen2), files);
    assert StoresAfterInit(after, workspace, svc) == after;
  }

  // ---------------------------------------------------------------------------------------------
  // The imperative operations.

  /** The docstore loop of processFiles: collects the basename of every non-empty metadata.source. */
  method CollectProcessedNames(docs: seq<Doc>) returns (names: set<string>)
    ensures names == SourceNames(docs)
  {
    names := {};
    var i := 0;
    while i < |docs|
      invariant 0 <= i <= |docs|
      invariant names == SourceNames(docs[..i])
    {
      SourceNamesConcat(docs[..i], [docs[i]]);
      assert docs[..i + 1] == docs[..i] + [docs[i]];
      if HasSource(docs[i]) {
        names := names + {Basename(docs[i].source.value)};
      }
      i := i + 1;
    }
    assert docs[..i] == docs;
  }

  /** initializeVectorStore: loads the workspace's store, or seeds, saves and returns a new one. */
  method InitializeVectorStore(workspace: string, svc: Services, dir: StoreDir) returns (r: Result<VectorStore, IngestError>)
    modifies dir
    ensures dir.stores == StoresAfterInit(old(dir.stores), workspace, svc)
    ensures r.Success? <==> Initialized(old(dir.stores), workspace, svc).Success?
    ensures r.Failure? ==> r.error == Initialized(old(dir.stores), workspace, svc).error
    ensures r.Success? ==> fresh(r.value) && r.value.docs == Initialized(old(dir.stores), workspace, svc).value
  {
    if workspace in dir.stores {
      if !svc.loadStoreOk(workspace) {
        return Failure(LoadStoreFailed);
      }
      var store := new VectorStore(dir.stores[workspace].docs);
      return Success(store);
    }
    var init := PlaceholderDocs(svc, workspace);
    if init.None? {
      return Failure(SeedSplitFailed);
    }
    if !svc.embedOk(init.value) {
      return Failure(SeedEmbedFailed);
    }
    var store := new VectorStore(init.value);
    if !svc.saveOk(store.docs) {
      return Failure(SeedSaveFailed);
    }
    dir.stores := dir.stores[workspace := StoreFiles(store.docs, true)];
    return Success(store);
  }

  /** One iteration of processFiles' loop: the checks in order, then load, split and add inside
      the try block; true when the file goes to processedFiles. */
  method ProcessOne(store: VectorStore, svc: Services, workspace: string, seen: set<string>, name: string)
    returns (processed: bool)
    modifies store
    ensures processed == Examine(svc, workspace, seen, name).Processed?
    ensures store.docs == old(store.docs) + Contribution(svc, workspace, seen, name)
  {
    var ext := ToLower(Extname(name));
    if name in seen {
      return false;
    }
    if ext !in SupportedExtensions {
      return false;
    }
    if ext != ".pdf" {
      return false;
    }
    var pages := LoadPdfDocs(svc, UploadPath(workspace, name));
    if pages.None? {
      return false;
    }
    var chunks := SplitDocuments(svc, pages.value);
    if chunks.None? {
      return false;
    }
    processed := store.AddDocuments(svc, chunks.value);
  }

  /** One turn of processFiles' loop: after the files `done`, file `name` is processed or skipped,
      and recorded as such. */
  method ClassifyNext(store: VectorStore, svc: Services, workspace: string, seen: set<string>,
                      ghost done: seq<string>, name: string,
                      processedFiles: seq<string>, skippedFiles: seq<string>, ghost docs0: seq<Doc>)
    returns (processedFiles': seq<string>, skippedFiles': seq<string>)
    requires processedFiles == ProcessedNames(svc, workspace, seen, done)
    requires skippedFiles == SkippedNames(svc, workspace, seen, done)
    requires store.docs == docs0 + AddedDocs(svc, workspace, seen, done)
    modifies store
    ensures processedFiles' == ProcessedNames(svc, workspace, seen, done + [name])
    ensures skippedFiles' == SkippedNames(svc, workspace, seen, done + [name])
    ensures store.docs == docs0 + AddedDocs(svc, workspace, seen, done + [name])
  {
    NamesSnoc(svc, workspace, seen, done, name);
    AddedAfter(svc, workspace, seen, docs0, done, name);
    var processed := ProcessOne(store, svc, workspace, seen, name);
    if processed {
      processedFiles', skippedFiles' := processedFiles + [name], skippedFiles;
    } else {
      processedFiles', skippedFiles' := processedFiles, skippedFiles + [name];
    }
  }

  /** The loop of processFiles over the candidate files, against the names `seen` read before it. */
  method ClassifyFiles(store: VectorStore, svc: Services, workspace: string, seen: set<string>, files: seq<string>)
    returns (processedFiles: seq<string>, skippedFiles: seq<string>)
    modifies store
    ensures processedFiles == ProcessedNames(svc, workspace, seen, files)
    ensures skippedFiles == SkippedNames(svc, workspace, seen, files)
    ensures store.docs == old(store.docs) + AddedDocs(svc, workspace, seen, files)
  {
    ghost var docs0 := store.docs;
    skippedFiles := [];
    processedFiles := [];
    var i := 0;
    while i < |files|
      invariant 0 <= i <= |files|
      invariant processedFiles == ProcessedNames(svc, workspace, seen, files[..i])
      invariant skippedFiles == SkippedNames(svc, workspace, seen, files[..i])
      invariant store.docs == docs0 + AddedDocs(svc, workspace, seen, files[..i])
    {
      TakeSnoc(files, i);
      processedFiles, skippedFiles := ClassifyNext(store, svc, workspace, seen, files[..i], files[i], processedFiles, skippedFiles, docs0);
      i := i + 1;
    }
    assert files[..i] == files;
  }

  /** processFiles: the docstore names are read once, then each file is classified in order; the
      store is saved only when a file was processed. */
  method ProcessFiles(workspace: string, files: seq<string>, svc: Services, dir: StoreDir)
    returns (r: Result<Outcome, IngestError>)
    modifies dir
    ensures (r, dir.stores) == Ingest(old(dir.stores), workspace, svc, files)
  {
    var init := InitializeVectorStore(workspace, svc, dir);
    if init.Failure? {
      return Failure(init.error);
    }
    var store := init.value;
    if !dir.stores[workspace].docstoreParses {
      return Failure(DocstoreParseFailed);
    }
    var seen := CollectProcessedNames(dir.stores[workspace].docs);
    var processedFiles, skippedFiles := ClassifyFiles(store, svc, workspace, seen, files);
    if |processedFiles| > 0 {
      if !svc.saveOk(store.docs) {
        return Failure(SaveFailed);
      }
      dir.stores := dir.stores[workspace := StoreFiles(store.docs, true)];
    }
    return Success(Outcome(processedFiles, skippedFiles));
  }
}
