/** The blob-storage helpers (lib/azureblob.js) over an abstract store: a map from container and blob
    path to content. Each user has a container; a blob path is `clientId/fileType/name`. Failures of the
    storage service are parameters of the calls. */
module AzureBlob {

  import opened Wrappers
  import opened Seqs

  /** A JSON value. JSON.stringify followed by JSON.parse gives the value back. */
  datatype Json =
    | JNull
    | JBool(b: bool)
    | JNumber(n: int)
    | JString(s: string)
    | JArray(items: seq<Json>)
    | JObject(fields: seq<(string, Json)>)

  /** What a blob holds: the serialisation of a JSON value, or bytes that do not parse as JSON (an
      HNSW index). */
  datatype Content = Serialized(value: Json) | Bytes(data: seq<bv8>)

  /** The object handed to uploadFile: a File carries a name, a Buffer does not (`file.name` is
      undefined). */
  datatype Upload = Upload(name: Option<string>, content: Content)

  datatype BlobKey = BlobKey(container: string, path: string)

  datatype BlobError =
    | HttpError(statusCode: int)  // an error of the storage service, with its status code
    | ParseError                  // JSON.parse threw
    | NotAnArray                  // the parsed value has no push

  const NotFound: int := 404

  class BlobStore {
    var blobs: map<BlobKey, Content>

    constructor (blobs: map<BlobKey, Content>)
      ensures this.blobs == blobs
    {
      this.blobs := blobs;
    }
  }

  /** The prefix listFiles lists under: `${clientId}/${fileType}/`. */
  function ListPrefix(clientId: string, fileType: string): string
  {
    clientId + "/" + fileType + "/"
  }

  /** `${clientId}/${fileType}/${name}`. */
  function BlobPath(clientId: string, fileType: string, name: string): (p: string)
    ensures p == ListPrefix(clientId, fileType) + name
    ensures p[|ListPrefix(clientId, fileType)|..] == name
  {
    clientId + "/" + fileType + "/" + name
  }

  predicate NoSlash(s: string)
  {
    forall i :: 0 <= i < |s| ==> s[i] != '/'
  }

  lemma SplitAtSlash(x: string, r: string, y: string, t: string)
    requires NoSlash(x) && NoSlash(y)
    requires x + "/" + r == y + "/" + t
    ensures x == y && r == t
  {
    var p := x + "/" + r;
    assert p[|x|] == '/' && (y + "/" + t)[|y|] == '/';
    assert |x| == |y|;
    assert x == p[..|x|] == y;
    assert r == p[|x| + 1..] == t;
  }

  /** Distinct clients, file types or names never share a blob path, as long as client and file type
      contain no '/'. */
  lemma BlobPathInjective(c1: string, t1: string, n1: string, c2: string, t2: string, n2: string)
    requires NoSlash(c1) && NoSlash(t1) && NoSlash(c2) && NoSlash(t2)
    requires BlobPath(c1, t1, n1) == BlobPath(c2, t2, n2)
    ensures c1 == c2 && t1 == t2 && n1 == n2
  {
    assert BlobPath(c1, t1, n1) == c1 + "/" + (t1 + "/" + n1);
    assert BlobPath(c2, t2, n2) == c2 + "/" + (t2 + "/" + n2);
    SplitAtSlash(c1, t1 + "/" + n1, c2, t2 + "/" + n2);
    SplitAtSlash(t1, n1, t2, n2);
  }

  /** `${file.name}` in a template string: an absent name prints as "undefined". */
  function NameText(name: Option<string>): string
  {
    match name
    case Some(n) => n
    case None => "undefined"
  }

  /** The blob uploadFile writes: container userId, path `clientId/fileType/file.name`. */
  function UploadKey(userId: string, clientId: string, file: Upload, fileType: string): BlobKey
  {
    BlobKey(userId, BlobPath(clientId, fileType, NameText(file.name)))
  }

  /** uploadFile: the file's content replaces whatever the blob at its key held; a failed upload
      changes nothing and throws. The blob's key stands for the URL returned. */
  method UploadFile(store: BlobStore, userId: string, clientId: string, file: Upload, fileType: string,
                    uploadFault: Option<int>)
    returns (r: Result<BlobKey, BlobError>)
    modifies store
    ensures uploadFault.Some? ==> r == Failure(HttpError(uploadFault.value)) && store.blobs == old(store.blobs)
    ensures uploadFault.None? ==> r == Success(UploadKey(userId, clientId, file, fileType)) &&
                                  store.blobs == old(store.blobs)[r.value := file.content]
  {
    var key := BlobKey(userId, BlobPath(clientId, fileType, NameText(file.name)));
    if uploadFault.Some? {
      return Failure(HttpError(uploadFault.value));
    }
    store.blobs := store.blobs[key := file.content];
    r := Success(key);
  }

  /** The blobs of a container whose path starts with prefix. */
  ghost function Listed(blobs: map<BlobKey, Content>, userId: string, prefix: string): set<BlobKey>
  {
    set k | k in blobs && k.container == userId && |prefix| <= |k.path| && k.path[..|prefix|] == prefix
  }

  /** listFiles: one name per blob under `clientId/fileType/`, that prefix removed; a name is listed
      exactly when the blob `clientId/fileType/name` exists. Listing order is the service's. */
  method ListFiles(store: BlobStore, userId: string, clientId: string, fileType: string, listFault: Option<int>)
    returns (r: Result<seq<string>, BlobError>)
    ensures listFault.Some? ==> r == Failure(HttpError(listFault.value))
    ensures listFault.None? ==> r.Success? && Distinct(r.value)
    ensures listFault.None? ==>
              forall f :: f in r.value <==> BlobKey(userId, ListPrefix(clientId, fileType) + f) in store.blobs
  {
    if listFault.Some? {
      return Failure(HttpError(listFault.value));
    }
    var prefix := ListPrefix(clientId, fileType);
    var pending := set k | k in store.blobs && k.container == userId && |prefix| <= |k.path| && k.path[..|prefix|] == prefix;
    ghost var all := pending;
    var files: seq<string> := [];
    while pending != {}
      invariant pending <= all
      invariant all == Listed(store.blobs, userId, prefix)
      invariant Distinct(files)
      invariant forall f :: f in files <==> BlobKey(userId, prefix + f) in all - pending
      decreases |pending|
    {
      var k :| k in pending;
      var fileName := k.path[|prefix|..];
      assert k.path == prefix + fileName;
      assert fileName !in files;
      files := files + [fileName];
      pending := pending - {k};
    }
    forall f | BlobKey(userId, prefix + f) in store.blobs ensures BlobKey(userId, prefix + f) in all {
      assert (prefix + f)[..|prefix|] == prefix;
    }
    r := Success(files);
  }

  /** What the storage service answers to a download of key: the blob, 404 when there is none, or
      another failure of the service. */
  function ReadBlob(blobs: map<BlobKey, Content>, key: BlobKey, downloadFault: Option<int>): Result<Content, BlobError>
  {
    if downloadFault.Some? then Failure(HttpError(downloadFault.value))
    else if key in blobs then Success(blobs[key])
    else Failure(HttpError(NotFound))
  }

  /** downloadFile: the content of `clientId/fileType/fileName` in userId's container. */
  method DownloadFile(store: BlobStore, userId: string, clientId: string, fileType: string, fileName: string,
                      downloadFault: Option<int>)
    returns (r: Result<Content, BlobError>)
    ensures downloadFault.Some? ==> r == Failure(HttpError(downloadFault.value))
    ensures downloadFault.None? ==>
              var key := BlobKey(userId, BlobPath(clientId, fileType, fileName));
              (key in store.blobs ==> r == Success(store.blobs[key])) &&
              (key !in store.blobs ==> r == Failure(HttpError(NotFound)))
  {
    var key := BlobKey(userId, BlobPath(clientId, fileType, fileName));
    if downloadFault.Some? {
      return Failure(HttpError(downloadFault.value));
    }
    if key !in store.blobs {
      return Failure(HttpError(NotFound));
    }
    r := Success(store.blobs[key]);
  }

  /** The inner try of the appends: a 404 reads as the empty list, any other failure is rethrown, and
      parsed content must be an array. */
  function ExistingItems(read: Result<Content, BlobError>): Result<seq<Json>, BlobError>
  {
    match read
    case Failure(e) => if e == HttpError(NotFound) then Success([]) else Failure(e)
    case Success(Bytes(_)) => Failure(ParseError)
    case Success(Serialized(JArray(items))) => Success(items)
    case Success(Serialized(_)) => Failure(NotAnArray)
  }

  /** The read-modify-write of appendToResults and appendToDocstore: read `fileName`, append newItems,
      upload the serialised array under the name `uploadName` (the code passes a Buffer, which has no
      name), return the array. The second component is the store afterwards. */
  function AppendOutcome(blobs: map<BlobKey, Content>, userId: string, clientId: string, fileType: string,
                         fileName: string, uploadName: Option<string>, newItems: seq<Json>,
                         downloadFault: Option<int>, uploadFault: Option<int>)
    : (Result<seq<Json>, BlobError>, map<BlobKey, Content>)
  {
    match ExistingItems(ReadBlob(blobs, BlobKey(userId, BlobPath(clientId, fileType, fileName)), downloadFault))
    case Failure(e) => (Failure(e), blobs)
    case Success(prior) =>
      var updated := prior + newItems;
      var file := Upload(uploadName, Serialized(JArray(updated)));
      if uploadFault.Some? then (Failure(HttpError(uploadFault.value)), blobs)
      else (Success(updated), blobs[UploadKey(userId, clientId, file, fileType) := file.content])
  }

  /** The shared body of the two appends, as the code runs it: download, parse, push, upload. */
  method AppendToLog(store: BlobStore, userId: string, clientId: string, fileType: string, fileName: string,
                     newItems: seq<Json>, downloadFault: Option<int>, uploadFault: Option<int>)
    returns (r: Result<seq<Json>, BlobError>)
    modifies store
    ensures (r, store.blobs) ==
            AppendOutcome(old(store.blobs), userId, clientId, fileType, fileName, None, newItems, downloadFault, uploadFault)
  {
    var existing: seq<Json> := [];
    var content := DownloadFile(store, userId, clientId, fileType, fileName, downloadFault);
    match content {
      case Failure(e) =>
        if e != HttpError(NotFound) {
          return Failure(e);
        }
        existing := [];
      case Success(c) =>
        if c.Bytes? {
          return Failure(ParseError);
        }
        if !c.value.JArray? {
          return Failure(NotAnArray);
        }
        existing := c.value.items;
    }
    existing := existing + newItems;
    var uploaded := UploadFile(store, userId, clientId, Upload(None, Serialized(JArray(existing))), fileType, uploadFault);
    if uploaded.Failure? {
      return Failure(uploaded.error);
    }
    r := Success(existing);
  }

  const ResultsType: string := "results"
  const ResultsFile: string := "results.json"
  const VectorStoreType: string := "vector_store"
  const DocstoreFile: string := "docstore.json"
  const IndexFile: string := "hnswlib.index"

  /** appendToResults: the prior results followed by newResult. */
  method AppendToResults(store: BlobStore, userId: string, clientId: string, newResult: Json,
                         downloadFault: Option<int>, uploadFault: Option<int>)
    returns (r: Result<seq<Json>, BlobError>)
    modifies store
    ensures (r, store.blobs) ==
            AppendOutcome(old(store.blobs), userId, clientId, ResultsType, ResultsFile, None, [newResult], downloadFault, uploadFault)
  {
    r := AppendToLog(store, userId, clientId, ResultsType, ResultsFile, [newResult], downloadFault, uploadFault);
  }

  /** appendToDocstore: the prior docstore followed by newDocuments, in order. */
  method AppendToDocstore(store: BlobStore, userId: string, clientId: string, newDocuments: seq<Json>,
                          downloadFault: Option<int>, uploadFault: Option<int>)
    returns (r: Result<seq<Json>, BlobError>)
    modifies store
    ensures (r, store.blobs) ==
            AppendOutcome(old(store.blobs), userId, clientId, VectorStoreType, DocstoreFile, None, newDocuments, downloadFault, uploadFault)
  {
    r := AppendToLog(store, userId, clientId, VectorStoreType, DocstoreFile, newDocuments, downloadFault, uploadFault);
  }

  /** overwriteHnswlibIndex: uploads the index buffer, which has no name, under the vector-store type. */
  method OverwriteHnswlibIndex(store: BlobStore, userId: string, clientId: string, newIndex: seq<bv8>,
                               uploadFault: Option<int>)
    returns (r: Result<BlobKey, BlobError>)
    modifies store
    ensures uploadFault.Some? ==> r == Failure(HttpError(uploadFault.value)) && store.blobs == old(store.blobs)
    ensures uploadFault.None? ==>
              r == Success(BlobKey(userId, BlobPath(clientId, VectorStoreType, "undefined"))) &&
              store.blobs == old(store.blobs)[r.value := Bytes(newIndex)]
  {
    r := UploadFile(store, userId, clientId, Upload(None, Bytes(newIndex)), VectorStoreType, uploadFault);
  }

  /** The blob an append reads. */
  function ReadKey(userId: string, clientId: string, fileType: string, fileName: string): BlobKey
  {
    BlobKey(userId, BlobPath(clientId, fileType, fileName))
  }

  /** The blob an append writes. */
  function WriteKey(userId: string, clientId: string, fileType: string, uploadName: Option<string>): BlobKey
  {
    BlobKey(userId, BlobPath(clientId, fileType, NameText(uploadName)))
  }

  /** A failed append, whatever failed, leaves every blob as it was. */
  lemma AppendFailsCleanly(blobs: map<BlobKey, Content>, userId: string, clientId: string, fileType: string,
                           fileName: string, uploadName: Option<string>, newItems: seq<Json>,
                           downloadFault: Option<int>, uploadFault: Option<int>)
    ensures var (r, after) := AppendOutcome(blobs, userId, clientId, fileType, fileName, uploadName, newItems, downloadFault, uploadFault);
            r.Failure? ==> after == blobs
  {
  }

  /** The read rule of the appends: a missing blob (404) reads as the empty list and the append
      returns just the new items; any other failure of the download is what the append throws. */
  lemma AppendReadRule(blobs: map<BlobKey, Content>, userId: string, clientId: string, fileType: string,
                       fileName: string, uploadName: Option<string>, newItems: seq<Json>,
                       downloadFault: Option<int>)
    ensures var r := AppendOutcome(blobs, userId, clientId, fileType, fileName, uploadName, newItems, downloadFault, None).0;
            && (ReadBlob(blobs, ReadKey(userId, clientId, fileType, fileName), downloadFault) == Failure(HttpError(NotFound)) ==>
                  r == Success(newItems))
            && (downloadFault.Some? && downloadFault.value != NotFound ==> r == Failure(HttpError(downloadFault.value)))
  {
    assert [] + newItems == newItems;
  }

  /** A successful append returns the array it read followed by exactly the new items, in order, and
      writes the serialisation of that array at its upload key, changing no other blob. */
  lemma AppendWritesWhatItReturns(blobs: map<BlobKey, Content>, userId: string, clientId: string, fileType: string,
                                  fileName: string, uploadName: Option<string>, newItems: seq<Json>,
                                  downloadFault: Option<int>, uploadFault: Option<int>)
    ensures var (r, after) := AppendOutcome(blobs, userId, clientId, fileType, fileName, uploadName, newItems, downloadFault, uploadFault);
            var read := ExistingItems(ReadBlob(blobs, ReadKey(userId, clientId, fileType, fileName), downloadFault));
            r.Success? ==>
              && read.Success? && r.value == read.value + newItems
              && r.value[|read.value|..] == newItems
              && after == blobs[WriteKey(userId, clientId, fileType, uploadName) := Serialized(JArray(r.value))]
  {
    var (r, after) := AppendOutcome(blobs, userId, clientId, fileType, fileName, uploadName, newItems, downloadFault, uploadFault);
    if r.Success? {
      var read := ExistingItems(ReadBlob(blobs, ReadKey(userId, clientId, fileType, fileName), downloadFault));
      assert (read.value + newItems)[|read.value|..] == newItems;
    }
  }

  /** Where the appends write: a Buffer has no name, so appendToResults and appendToDocstore write to
      the blob named "undefined", not to the file they read. */
  lemma AppendsWriteUndefined(userId: string, clientId: string)
    ensures WriteKey(userId, clientId, ResultsType, None) != ReadKey(userId, clientId, ResultsType, ResultsFile)
    ensures WriteKey(userId, clientId, VectorStoreType, None) != ReadKey(userId, clientId, VectorStoreType, DocstoreFile)
  {
    assert |NameText(None)| != |ResultsFile|;
    assert |NameText(None)| != |DocstoreFile|;
  }

  /** As written, appendToResults never sees its own earlier appends: on a client without results.json,
      the second of two successful appends returns only its own result. */
  lemma AsWrittenAppendForgets(blobs: map<BlobKey, Content>, userId: string, clientId: string, a: Json, b: Json)
    requires ReadKey(userId, clientId, ResultsType, ResultsFile) !in blobs
    ensures var (r1, after1) := AppendOutcome(blobs, userId, clientId, ResultsType, ResultsFile, None, [a], None, None);
            var (r2, after2) := AppendOutcome(after1, userId, clientId, ResultsType, ResultsFile, None, [b], None, None);
            r1 == Success([a]) && r2 == Success([b])
  {
    AppendsWriteUndefined(userId, clientId);
    AppendReadRule(blobs, userId, clientId, ResultsType, ResultsFile, None, [a], None);
    var (r1, after1) := AppendOutcome(blobs, userId, clientId, ResultsType, ResultsFile, None, [a], None, None);
    assert after1 == blobs[WriteKey(userId, clientId, ResultsType, None) := Serialized(JArray([a]))];
    assert ReadKey(userId, clientId, ResultsType, ResultsFile) !in after1;
    AppendReadRule(after1, userId, clientId, ResultsType, ResultsFile, None, [b], None);
  }

  /** As written, the docstore append and the index overwrite write the same blob, so each destroys
      what the other wrote. */
  lemma AsWrittenIndexOverwritesDocstore(userId: string, clientId: string, docs: seq<Json>, index: seq<bv8>)
    ensures UploadKey(userId, clientId, Upload(None, Serialized(JArray(docs))), VectorStoreType) ==
            UploadKey(userId, clientId, Upload(None, Bytes(index)), VectorStoreType)
  {
  }

  /** Corrected: uploading under the file's own name, an append reads back what it wrote, so
      successive appends accumulate the log. */
  lemma CorrectedAppendReadsBack(blobs: map<BlobKey, Content>, userId: string, clientId: string, fileType: string,
                                 fileName: string, newItems: seq<Json>, downloadFault: Option<int>, uploadFault: Option<int>)
    ensures var (r, after) := AppendOutcome(blobs, userId, clientId, fileType, fileName, Some(fileName), newItems, downloadFault, uploadFault);
            r.Success? ==> ExistingItems(ReadBlob(after, ReadKey(userId, clientId, fileType, fileName), None)) == Success(r.value)
  {
  }

  /** Corrected: two appends to a client without results.json leave both results, in order. */
  lemma CorrectedAppendsAccumulate(blobs: map<BlobKey, Content>, userId: string, clientId: string, a: Json, b: Json)
    requires ReadKey(userId, clientId, ResultsType, ResultsFile) !in blobs
    ensures var (r1, after1) := AppendOutcome(blobs, userId, clientId, ResultsType, ResultsFile, Some(ResultsFile), [a], None, None);
            var (r2, after2) := AppendOutcome(after1, userId, clientId, ResultsType, ResultsFile, Some(ResultsFile), [b], None, None);
            r1 == Success([a]) && r2 == Success([a, b])
  {
    AppendReadRule(blobs, userId, clientId, ResultsType, ResultsFile, Some(ResultsFile), [a], None);
    CorrectedAppendReadsBack(blobs, userId, clientId, ResultsType, ResultsFile, [a], None, None);
    assert [a] + [b] == [a, b];
  }

  /** Corrected: under their own names the docstore and the index are different blobs. */
  lemma CorrectedIndexAndDocstoreApart(userId: string, clientId: string, docs: seq<Json>, index: seq<bv8>)
    ensures UploadKey(userId, clientId, Upload(Some(DocstoreFile), Serialized(JArray(docs))), VectorStoreType) !=
            UploadKey(userId, clientId, Upload(Some(IndexFile), Bytes(index)), VectorStoreType)
  {
    assert DocstoreFile[0] != IndexFile[0];
    var p := ListPrefix(clientId, VectorStoreType);
    assert (p + DocstoreFile)[|p|] == DocstoreFile[0];
    assert (p + IndexFile)[|p|] == IndexFile[0];
  }
}
