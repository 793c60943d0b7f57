# Workspace ingestion, results log, blob log and workspace registry

This project models the core of a retrieval-augmented report generator. The generator works per
workspace: it ingests the documents uploaded to the workspace into a vector store, keeps a log of
generated answers per questionnaire section, and stores logs in blob storage. The project proves
properties of four parts of that system.

- **Incremental ingestion** (`lib/vectorStoreUtils.js`, module `VectorStoreUtils`).
  - `initializeVectorStore` loads a workspace's HNSWLib store. When there is none, it seeds one with
    a placeholder document.
  - `processFiles` reads the names already ingested from the docstore, classifies every candidate
    file as processed or skipped, and saves the store when something was added.
  - The store is an append-only sequence of documents (class `VectorStore`). The store directory on
    disk is a class `StoreDir`.
  - The PDF loader, the splitter, the embedder and the store's save are given functions that may
    fail (`Services`).
- **Results-log bookkeeping of the workspace page** (`pages/index.js`, module `ResultsLog`).
  - Records are grouped by section. The in-place sort picks the latest iteration of each group.
  - Iteration navigation is clamped, and section selection toggles.
  - New or modified results are merged into the groups.
  - The page guards its requests on blank input, and picks a file icon from the extension.
  - React state is plain variables and maps.
- **Blob-log appends** (`lib/azureblob.js`, module `AzureBlob`).
  - The blob service is a class `BlobStore` over a map from container and path to content.
  - `uploadFile`, `listFiles` and `downloadFile` are modelled, as are the read-modify-write appends
    `appendToResults` and `appendToDocstore`, and `overwriteHnswlibIndex`.
  - Storage failures are parameters of the calls.
- **Workspace registry route** (`pages/api/workspaces/index.js`, module `WorkspacesRoute`).
  - GET lists the directories of `vector_stores/`.
  - POST validates the name, refuses an existing workspace, makes the three workspace directories,
    then seeds and saves the store.
  - Every other method is refused. The directory state is a class `Workspaces`.

Shared modules:

- `Wrappers`: `Option` and `Result`.
- `Seqs`: order-preserving `Filter`/`Reject` and their facts.
- `Text`: JavaScript's `trim` and `toLowerCase`, Node's POSIX `path.basename` and `path.extname`,
  and `split('.').pop()`.

Ingested files are recognised by the basename of each document's `metadata.source`. The blob
helpers in `lib/azureblob.js` write the index and the docstore to one blob (see Findings).

## Model

| member | source | states |
|---|---|---|
| Text.TrimStart | pages/api/workspaces/index.js:44 | the result is a suffix of the input, everything dropped is whitespace, and the result does not start with whitespace |
| Text.TrimEnd | pages/api/workspaces/index.js:44 | the result is a prefix of the input, everything dropped is whitespace, and the result does not end with whitespace |
| Text.BlankIffAllWhitespace | pages/api/workspaces/index.js:44 | `s.trim() === ''` holds exactly when every character of s is JavaScript whitespace |
| Text.ToLower | lib/vectorStoreUtils.js:84 | lower-casing keeps the length and maps each character by itself (ASCII letters only) |
| Text.Basename | lib/vectorStoreUtils.js:66 | a basename contains no '/' |
| Text.BasenameIsLastSegment | lib/vectorStoreUtils.js:66 | the basename is the part of the path, trailing '/' removed, after its last '/', or all of it when it has none |
| Text.BasenameOfJoin | lib/vectorStoreUtils.js:83 | a plain non-empty file name joined under a directory has itself as basename |
| Text.Extname | lib/vectorStoreUtils.js:84 | an extension is empty or a '.' followed by no other '.', and is a suffix of the basename |
| Text.ExtnameWhenDotted | lib/vectorStoreUtils.js:84 | an extension is reported exactly when the basename has a '.' after its first character and is not "..", and it is then the basename from its last '.' on |
| Text.AfterLastDot | pages/index.js:377 | the result has no '.', is a suffix of the name, is preceded by a '.' when the name has one, and is the whole name exactly when the name has no '.': the text after the last '.' |
| Text.ExtnameIsDotAfterLastDot | pages/index.js:377 | for a plain name that has an extension, path.extname is "." plus what split('.').pop() yields |
| VectorStoreUtils.SplitDocuments | lib/vectorStoreUtils.js:120 | every chunk carries the metadata.source of a document it was split from |
| VectorStoreUtils.LoadPdfDocs | lib/vectorStoreUtils.js:104-113 | every loaded page has the loaded file's path as its source |
| VectorStoreUtils.SourceNamesConcat | lib/vectorStoreUtils.js:63-69 | the names recorded from a docstore are the union of the names of its parts |
| VectorStoreUtils.PlaceholderNamesNothing | lib/vectorStoreUtils.js:27-30 | the placeholder seeding a new store names no file, so it never causes a file to be skipped |
| VectorStoreUtils.Examine | lib/vectorStoreUtils.js:88-130 | a name already in the docstore is skipped; only a not-yet-seen file with lower-cased extension .pdf is processed, and only when its chunks embed; .doc/.docx are skipped for lack of a loader |
| VectorStoreUtils.IngestPdf | lib/vectorStoreUtils.js:111-130 | the try block either processes the file with chunks that embedded, or skips it as a load, split or add failure |
| VectorStoreUtils.ProcessedChunksSourced | lib/vectorStoreUtils.js:104-123 | the chunks added for a file all carry that file's upload path |
| VectorStoreUtils.AddedDocsConcat | lib/vectorStoreUtils.js:81-131 | what the loop adds for a concatenated batch is what it adds for each part, in order |
| VectorStoreUtils.AddedDocsSnoc | lib/vectorStoreUtils.js:81-131 | one more file adds exactly its own chunks at the end |
| VectorStoreUtils.AddedDocsSingle | lib/vectorStoreUtils.js:81-131 | the loop run on a single file adds exactly the chunks that file contributes |
| VectorStoreUtils.NamesSnoc | lib/vectorStoreUtils.js:81-131 | one more file lands at the end of exactly one of the two lists |
| VectorStoreUtils.AddedAfter | lib/vectorStoreUtils.js:123 | the store after one more file holds what it held plus that file's chunks |
| VectorStoreUtils.BatchIsSumOfParts | lib/vectorStoreUtils.js:81-131 | a file's fate does not depend on the other files: both lists and the added chunks of a batch are those of its parts |
| VectorStoreUtils.FailingFileIsolated | lib/vectorStoreUtils.js:127-130 | a skipped file between two parts adds nothing, appears in skippedFiles at its place, and leaves the rest unchanged |
| VectorStoreUtils.SkippedAlone | lib/vectorStoreUtils.js:89-109 | a skipped file alone gives processedFiles [], skippedFiles [it] and adds nothing |
| VectorStoreUtils.DuplicateInBatchProcessedTwice | lib/vectorStoreUtils.js:55-89 | the dedup set is read only before the loop, so a file listed twice is processed and added twice |
| VectorStoreUtils.ClassificationPartitions | lib/vectorStoreUtils.js:78-131 | every input file lands in exactly one list, each list in input order (interleaving and multiset equality) |
| VectorStoreUtils.ProcessedExactly | lib/vectorStoreUtils.js:84-125 | a name is reported processed exactly when it is an input, not in the docstore, lower-cased .pdf, and loads, splits and embeds |
| VectorStoreUtils.ProcessedFilesRecorded | lib/vectorStoreUtils.js:63-68 | a processed plain file with at least one chunk is named by the documents added for it |
| VectorStoreUtils.ChunklessPdfProcessedAgain | lib/vectorStoreUtils.js:120-125 | a PDF that splits into no chunk is reported processed, yet the next call processes it again |
| VectorStoreUtils.VectorStore.AddDocuments | lib/vectorStoreUtils.js:123 | the batch is appended when it embeds, and nothing changes otherwise |
| VectorStoreUtils.StoresAfterInit | lib/vectorStoreUtils.js:17-44 | after a successful initialisation the store directory holds the workspace with the returned documents; every existing store is kept as it was, a load or a failed seeding writes nothing, and no other workspace gains a store |
| VectorStoreUtils.IngestReports | lib/vectorStoreUtils.js:78-143 | a successful call partitions the input in order, processes only unseen .pdf files, and skips every file the docstore names |
| VectorStoreUtils.IngestSavesOnlyWhenProcessed | lib/vectorStoreUtils.js:133-141 | relative to the directory after initialisation (which StoresAfterInit ties to the one before), nothing is written when no file was processed; otherwise the saved store is the old one plus exactly the added chunks |
| VectorStoreUtils.NothingAddedWithoutProcessed | lib/vectorStoreUtils.js:81-131 | no processed file means no chunk added |
| VectorStoreUtils.SaveFailureThrows | lib/vectorStoreUtils.js:133-141 | a failed save after files were added fails the whole call and reports nothing |
| VectorStoreUtils.UnreadableDocstoreAborts | lib/vectorStoreUtils.js:57-73 | a docstore that does not parse aborts the call before any file is examined, writing nothing |
| VectorStoreUtils.IngestTwiceSkipsAll | lib/vectorStoreUtils.js:49-144 | repeating a successful call skips every file and leaves the store as it is (plain names, non-empty chunks) |
| VectorStoreUtils.CollectProcessedNames | lib/vectorStoreUtils.js:55-69 | the forEach collects exactly the basenames of the non-empty metadata.source values |
| VectorStoreUtils.InitializeVectorStore | lib/vectorStoreUtils.js:12-47 | loads the existing store or seeds, saves and returns a new one, as Initialized and StoresAfterInit say |
| VectorStoreUtils.ProcessOne | lib/vectorStoreUtils.js:81-130 | one iteration reports the file processed exactly when Examine does, and grows the store by exactly its chunks |
| VectorStoreUtils.ClassifyNext | lib/vectorStoreUtils.js:81-131 | one turn of the loop keeps both lists and the store equal to the specification on the prefix done so far |
| VectorStoreUtils.ClassifyFiles | lib/vectorStoreUtils.js:78-131 | the loop yields ProcessedNames and SkippedNames and appends exactly AddedDocs to the store |
| VectorStoreUtils.ProcessFiles | lib/vectorStoreUtils.js:49-144 | result and store directory are those of Ingest, about which the lemmas above are proved |
| ResultsLog.Sections | pages/index.js:72-83 | the group keys are distinct, cover every record's section, and each names a section of the log |
| ResultsLog.GroupMembership | pages/index.js:72-78 | a record is in the group of section s exactly when it is in the log with section s |
| ResultsLog.GroupEmptyIffAbsent | pages/index.js:72-78 | a section's group is empty exactly when the section is not a key |
| ResultsLog.GroupSnoc | pages/index.js:73-76 | one more record extends its own group and no other |
| ResultsLog.SectionsSnoc | pages/index.js:73-75 | one more record adds its section to the keys exactly when the section is new |
| ResultsLog.GroupsWithout | pages/index.js:72-78 | removing one section's records leaves the other groups' records unchanged |
| ResultsLog.GroupOfRest | pages/index.js:72-78 | removing one section's records leaves every other group unchanged |
| ResultsLog.GroupingPartitions | pages/index.js:72-78 | over distinct keys covering every section, the groups together hold exactly the log's records |
| ResultsLog.GroupStep | pages/index.js:73-76 | one turn of the reduce keeps the groups equal to the groups of the prefix read |
| ResultsLog.PushRecord | pages/index.js:73-76 | a record of a known section is pushed onto its group; a new section gets the group [record] and joins the keys at the end |
| ResultsLog.GroupBySection | pages/index.js:72-78 | the reduce yields keys in first-appearance order and, per key, exactly the records of that section in log order |
| ResultsLog.MaxIteration | pages/index.js:262 | the maximum is attained by some record and bounds every record |
| ResultsLog.HeadIsMax | pages/index.js:84-85 | the head of a descending rearrangement of a group has the group's greatest iteration number |
| ResultsLog.InsertLeft | pages/index.js:84 | one insertion step extends the descending prefix by one and permutes the array |
| ResultsLog.Swap | pages/index.js:84 | the two compared elements trade places, every other element stays, and the array is a permutation of before |
| ResultsLog.MaxOfPermutation | pages/index.js:84-85 | rearranging a group keeps its greatest iteration number |
| ResultsLog.SortDescending | pages/index.js:84 | the in-place sort leaves the group descending by iteration number, as a permutation of itself |
| ResultsLog.SortGroup | pages/index.js:84-85 | sorting a group and reading element 0 yields a descending permutation and its maximum iteration |
| ResultsLog.SortSection | pages/index.js:83-85 | one iteration of the forEach sorts one more section and records its maximum, keeping the sections done before |
| ResultsLog.LatestIterations | pages/index.js:82-86 | every group ends up sorted descending, and the latest iteration of every section is its group's maximum |
| ResultsLog.LoadResults | pages/index.js:68-87 | loading groups the log by section and records each section's maximum iteration |
| ResultsLog.ChangeIteration | pages/index.js:282-294 | the new iteration is clamp(current + direction, 1, max), and every other section keeps its iteration |
| ResultsLog.ForwardThenBack | pages/index.js:282-294 | a step forward then back returns to the shown iteration unless the forward step was clamped |
| ResultsLog.NavigationStopsAtEnds | pages/index.js:286-288 | at the last iteration forward changes nothing, and at the first back changes nothing |
| ResultsLog.NavigationStaysInRange | pages/index.js:282-294 | after any non-empty sequence of presses the iteration lies in [1, max], and other sections are unchanged |
| ResultsLog.Toggle | pages/index.js:296-304 | after toggling, the section is selected exactly when it was not |
| ResultsLog.ToggleFlips | pages/index.js:296-304 | toggling leaves the membership of every other section unchanged |
| ResultsLog.ToggleTwice | pages/index.js:296-304 | toggling twice restores membership, and restores the list itself when the section was unselected |
| ResultsLog.ToggleKeepsDistinct | pages/index.js:296-304 | a selection without repetitions stays without repetitions |
| ResultsLog.AppendGroups | pages/index.js:248-257 | each section with new records gets old ++ new, others are unchanged, and the highlighted list is the new keys |
| ResultsLog.NewestIterations | pages/index.js:260-265 | each section with new records shows their greatest iteration, and other sections keep theirs |
| ResultsLog.MergeResults | pages/index.js:240-265 | the merge of handleGenerate: old ++ new per section, the latest new iteration shown, others unchanged, and every new section highlighted once |
| ResultsLog.MergeIsRegrouping | pages/index.js:248-257 | merging a batch into the groups LoadResults leaves gives the sections of the updated log, each holding the same records as regrouping the updated log |
| ResultsLog.NewestWinsAfterMerge | pages/index.js:260-264 | when the new records are at least as recent, their maximum is the maximum of the merged group |
| ResultsLog.CreateWorkspaceRequest | pages/index.js:122-131 | no request when the name is blank; otherwise the body carries the untrimmed name |
| ResultsLog.ModifyRequest | pages/index.js:306-317 | no request when the instructions are blank; otherwise the body carries the selected sections and the instructions as typed |
| ResultsLog.FileExtension | pages/index.js:377 | the extension is the lower-cased suffix that follows the name's last '.' (the whole name when it has none), with no '.' or upper-case letter |
| ResultsLog.FileIconColor | pages/index.js:378-392 | red exactly for the extension pdf, blue for doc or docx, yellow for jpg or png, green for xlsx or csv, and gray for every other extension |
| ResultsLog.ToLowerConcat | pages/index.js:377 | lower-casing distributes over concatenation |
| ResultsLog.IconFollowsExtname | pages/index.js:376-392 | for a plain name with an extension, the icon's extension agrees with path.extname, and a .pdf name is red |
| ResultsLog.DotlessNameIconWithoutExtname | pages/index.js:376-392 | a file named "PDF" gets the red icon although path.extname gives no extension |
| ResultsLog.DotfileIconWithoutExtname | pages/index.js:376-392 | a file named ".pdf" gets the red icon although path.extname gives no extension |
| AzureBlob.BlobPath | lib/azureblob.js:39 | a blob path is the listing prefix followed by the name, and the name is recovered by removing the prefix |
| AzureBlob.SplitAtSlash | lib/azureblob.js:39 | two paths split at their first '/' agree on both parts |
| AzureBlob.BlobPathInjective | lib/azureblob.js:39 | distinct clients, types or names never share a blob path, when client and type have no '/' |
| AzureBlob.UploadFile | lib/azureblob.js:33-50 | the content is written at container userId, path clientId/fileType/file.name, replacing the blob there; a failure changes nothing |
| AzureBlob.ListFiles | lib/azureblob.js:59-78 | the names are distinct, and a name is listed exactly when the blob prefix + name exists |
| AzureBlob.DownloadFile | lib/azureblob.js:89-104 | the blob's content, 404 when there is none, or the service's failure |
| AzureBlob.AppendToLog | lib/azureblob.js:117-140 | the shared read-modify-write: download, parse, push, upload, with the outcome AppendOutcome describes |
| AzureBlob.AppendToResults | lib/azureblob.js:113-145 | appendToResults is the append with results.json and one new item |
| AzureBlob.AppendToDocstore | lib/azureblob.js:154-186 | appendToDocstore is the append with docstore.json and all new documents in order |
| AzureBlob.OverwriteHnswlibIndex | lib/azureblob.js:195-208 | the index bytes are written at ".../vector_store/undefined", because a Buffer has no name |
| AzureBlob.AppendFailsCleanly | lib/azureblob.js:117-144 | a failed append, whatever failed, leaves every blob as it was |
| AzureBlob.AppendReadRule | lib/azureblob.js:120-130 | a 404 on read makes the append return just the new items; any other read failure is rethrown |
| AzureBlob.AppendWritesWhatItReturns | lib/azureblob.js:133-140 | a successful append returns what it read followed by exactly the new items, and writes that array's serialisation |
| AzureBlob.AppendsWriteUndefined | lib/azureblob.js:137 | the appends write to a different blob from the one they read |
| AzureBlob.AsWrittenAppendForgets | lib/azureblob.js:113-145 | as written, the second of two appends to a client without results.json returns only its own result |
| AzureBlob.AsWrittenIndexOverwritesDocstore | lib/azureblob.js:195-201 | as written, the index overwrite and the docstore append write the same blob |
| AzureBlob.CorrectedAppendReadsBack | lib/azureblob.js:115-137 | uploading under the file's own name, an append's file reads back as the array it returned |
| AzureBlob.CorrectedAppendsAccumulate | lib/azureblob.js:113-145 | corrected, two appends to a client without results.json return [a] and then [a, b] |
| AzureBlob.CorrectedIndexAndDocstoreApart | lib/azureblob.js:195-201 | corrected, docstore.json and hnswlib.index are different blobs |
| WorkspacesRoute.DirectoryNamesMembership | pages/api/workspaces/index.js:35-37 | a name is listed exactly when vector_stores/ holds a directory of that name |
| WorkspacesRoute.EntriesAreNamed | pages/api/workspaces/index.js:52 | every entry's name is among the names existsSync sees |
| WorkspacesRoute.DirectoryNamesAreEntries | pages/api/workspaces/index.js:35-37 | every listed name is the name of an entry |
| WorkspacesRoute.DirectoryNamesDistinct | pages/api/workspaces/index.js:35-38 | with unique entry names, the listing names each workspace once |
| WorkspacesRoute.Create | pages/api/workspaces/index.js:40-95 | 400 exactly for a missing or blank name or an existing entry, changing nothing; otherwise the three directories are made with the untrimmed name; 201 exactly when the placeholder splits, embeds and saves, and then the store is saved |
| WorkspacesRoute.Respond | pages/api/workspaces/index.js:26-100 | GET lists exactly the directories or answers 500 on a read failure; only POST changes the disk; any other method gets 405 with Allow GET, POST |
| WorkspacesRoute.CreatePreservesConsistency | pages/api/workspaces/index.js:48-88 | a POST keeps entry names unique and stores inside workspace directories |
| WorkspacesRoute.RespondPreservesConsistency | pages/api/workspaces/index.js:26-100 | no request leaves the disk inconsistent |
| WorkspacesRoute.ListingIsDistinct | pages/api/workspaces/index.js:29-38 | GET never lists a workspace twice |
| WorkspacesRoute.CreatedWorkspaceIsListed | pages/api/workspaces/index.js:58-91 | after a 201 the workspace is listed, has its upload and results directories, and its store holds the placeholder |
| WorkspacesRoute.CreateSeedsAsInitializeWould | pages/api/workspaces/index.js:70-88 | for a fresh name the route succeeds exactly when initializeVectorStore's seeding would, and saves the same store |
| WorkspacesRoute.CreatedStoreIsReused | pages/api/workspaces/index.js:85-88 | processFiles opens a workspace the route made instead of seeding it again |
| WorkspacesRoute.SecondCreateRefused | pages/api/workspaces/index.js:52-66 | once the directories exist, a second POST of the name gets 400 "already exists" and changes nothing, after a 201 or a 500 |
| WorkspacesRoute.FailedCreateLeavesEmptyWorkspace | pages/api/workspaces/index.js:56-95 | a 500 leaves a listed workspace without a saved store |
| WorkspacesRoute.PaddedNameMakesAnotherWorkspace | pages/api/workspaces/index.js:44-50 | blankness is judged on the trimmed name but paths take it as typed, so " a" beside "a" is a new workspace |
| WorkspacesRoute.CreateLeavesOthersAlone | pages/api/workspaces/index.js:48-66 | a POST changes nothing of any other workspace |
| WorkspacesRoute.Workspaces.constructor | pages/api/workspaces/index.js:14-24 | the base directories as the module's load makes them, empty |
| WorkspacesRoute.Workspaces.ListWorkspaces | pages/api/workspaces/index.js:29-38 | the readdir loop returns exactly the directory entries in order, or 500 on a read failure |
| WorkspacesRoute.Workspaces.CreateWorkspace | pages/api/workspaces/index.js:42-95 | the POST branch's steps give the response and disk of Create |
| WorkspacesRoute.Workspaces.Handle | pages/api/workspaces/index.js:26-100 | the handler's dispatch gives the response and disk of Respond |

## Left out

- Paths are not normalised. The process's working directory and `path.join`/`path.resolve` are not modelled. A workspace or file name is taken as one path segment: names holding '/', "." or ".." are not given their filesystem meaning.
- HNSWLib's index, the embeddings, `PDFLoader` and `RecursiveCharacterTextSplitter` are not modelled. They are the outcome functions of `Services`, whose splitter always gets chunk size 1000 and overlap 200. Being functions of the file, they make a file load, split and embed the same way each time it is tried.
- The real `docstore.json` layout is internal to HNSWLib. Its entries are read as documents with an optional `metadata.source`, as lib/vectorStoreUtils.js:63-68 reads them. The file-listing route reads the same file as `[docNumber, doc]` pairs (pages/api/workspaces/[workspace]/files.js:84-85); under that layout `doc.metadata` at lib/vectorStoreUtils.js:64 is always undefined, no file is ever recognised as already ingested, and the deduplication lemmas describe the code's intent rather than its behaviour on such a file.
- A missing `docstore.json` next to an existing `hnswlib.index` is not a separate case. HNSWLib's load reads that file, so the model counts it as a failure of the load.
- `addDocuments` is all-or-nothing in the model. A partial write by the library after a failure is not modelled, nor is a partially written save.
- Text.Basename: its own contract states only that the result has no '/'. Which segment it is, is stated by the lemma Text.BasenameIsLastSegment, kept apart so that the many proofs calling Basename stay small.
- Text.Extname: its own contract states only the shape of the result. When an extension is reported and what it is, is stated by the lemma Text.ExtnameWhenDotted, kept apart for the same reason.
- `toLowerCase` lowers only ASCII letters. Other Unicode case mappings are left out.
- VectorStoreUtils.IngestTwiceSkipsAll: stated only for plain file names whose processing yields at least one chunk. Without a chunk nothing records the file, as ChunklessPdfProcessedAgain shows.
- The order of `Object.keys` is modelled as first-appearance order. JavaScript lists integer-like keys first, in ascending order; that ordering is left out.
- `acc[section]` for section names inherited from `Object.prototype` (for example "constructor") is not modelled. The model treats every section name as absent until it is grouped.
- ResultsLog.SortDescending: does not state that the sort is stable. Only descending order and the permutation are proved, so ties in iteration number are not distinguished.
- The order of `readdirSync` is not modelled: a new workspace directory is placed at the end of the entries, and every contract about the listing uses only membership and distinctness, not that position.
- The order in which the blob service lists blobs is not stated. `listFiles` is proved to return each name once, and exactly the names present.
- Concurrent requests and lost updates between overlapping read-modify-write calls are not modelled. Streams, `asBuffer`, URLs, request IDs and container creation are left out too.
- JSON serialisation is modelled as an encoding that gives back the value it was given. Pretty-printing is not modelled.
- A blob that is not valid JSON is modelled only as bytes (the index).
- Rendering, toasts, axios calls, dropzone, clipboard and the one-second highlight timer of `pages/index.js` are not modelled. The page's requests are modelled only through the bodies their guards let through.
- A `workspace` field in the POST body that is not a string (a number, an object) is not modelled. The field is a string or absent.
- `mkdirSync` failures (permissions, a regular file already at the path under `public/uploads/` or `results/`) are not modelled. Neither is an `lstat` failure during GET.
- The upload route, the file-listing route and the other per-workspace routes are not part of this model, nor is `lib/prompts.js`, which holds only prompt text.

## Findings

| source | as written | input that shows it | evidently intended | confidence | as-written member | corrected member |
|---|---|---|---|---|---|---|
| lib/azureblob.js:137 | `appendToResults` uploads a `Buffer`, whose `name` is undefined, so the array is written to `<client>/results/undefined` while `results.json` is read | two successful `appendToResults(u, c, a)` then `(u, c, b)` on a client without `results.json`: the second returns `[b]` | write back to `results.json`, so the second returns `[a, b]` | high, not executed | AzureBlob.AsWrittenAppendForgets | AzureBlob.CorrectedAppendsAccumulate |
| lib/azureblob.js:201 | `overwriteHnswlibIndex` uploads its `Buffer` to `<client>/vector_store/undefined`, the blob `appendToDocstore` writes (line 178) | `appendToDocstore(u, c, docs)` then `overwriteHnswlibIndex(u, c, index)`: both write the same blob, so the docstore is lost | `hnswlib.index` and `docstore.json` as separate blobs | high, not executed | AzureBlob.AsWrittenIndexOverwritesDocstore | AzureBlob.CorrectedIndexAndDocstoreApart |
