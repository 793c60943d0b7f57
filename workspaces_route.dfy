/** The workspaces API route (pages/api/workspaces/index.js): GET lists the workspaces, one per
    directory under vector_stores/; POST creates a workspace, making its store, upload and results
    directories and seeding its vector store with the workspace name; any other method is refused.

    The three base directories are modelled by what they contain: the entries of vector_stores/
    (in the order readdir yields them), the workspace directories under public/uploads/ and
    results/, and the saved vector stores. A failure of readdir is a parameter of the call; the
    splitter, the embedding provider and the store's save are the collaborators of Services. */
module WorkspacesRoute {

  import opened Wrappers
  import opened Text
  import opened Seqs
  import opened VectorStoreUtils

  /** An entry of vector_stores/ as readdir and lstat see it. */
  datatype DirEntry = DirEntry(name: string, isDirectory: bool)

  /** What the route reads and writes on disk. */
  datatype Disk = Disk(
    entries: seq<DirEntry>,              // vector_stores/
    uploadDirs: set<string>,             // public/uploads/<workspace>/
    resultDirs: set<string>,             // results/<workspace>/
    stores: map<string, StoreFiles>)     // vector_stores/<workspace>/ holding a saved store

  /** The JSON body, the plain text end() body, and the Allow header of a response. */
  datatype Body = Message(message: string) | Listing(workspaces: seq<string>) | Plain(text: string)
  datatype Response = Response(status: nat, allow: seq<string>, body: Body)

  /** The request: its method and the `workspace` field of its body, when there is one. */
  datatype Request = Request(verb: string, workspace: Option<string>)

  const ReadErrorMessage := "Error reading vector stores."
  const NameRequiredMessage := "Workspace name is required."
  const ExistsMessage := "Workspace already exists."
  const CreatedMessage := "Workspace created successfully."
  const CreateErrorMessage := "Error creating workspace and initializing vector store."
  const AllowedMethods := ["GET", "POST"]

  /** The names of the entries, in order. */
  function EntryNames(entries: seq<DirEntry>): seq<string>
  {
    seq(|entries|, i requires 0 <= i < |entries| => entries[i].name)
  }

  /** The names of the entries that are directories, in order: the listing GET returns. */
  function DirectoryNames(entries: seq<DirEntry>): seq<string>
    decreases |entries|
  {
    if entries == [] then []
    else
      var last := entries[|entries| - 1];
      DirectoryNames(entries[..|entries| - 1]) + (if last.isDirectory then [last.name] else [])
  }

  /** A workspace is listed exactly when vector_stores/ holds a directory of that name. */
  lemma {:induction false} DirectoryNamesMembership(entries: seq<DirEntry>, name: string)
    ensures name in DirectoryNames(entries) <==> DirEntry(name, true) in entries
    decreases |entries|
  {
    if entries != [] {
      var init := entries[..|entries| - 1];
      DirectoryNamesMembership(init, name);
      assert entries == init + [entries[|entries| - 1]];
    }
  }

  /** Every entry's name is among the entry names. */
  lemma EntriesAreNamed(entries: seq<DirEntry>)
    ensures forall e :: e in entries ==> e.name in EntryNames(entries)
  {
    forall e | e in entries ensures e.name in EntryNames(entries) {
      var i :| 0 <= i < |entries| && entries[i] == e;
      assert EntryNames(entries)[i] == e.name;
    }
  }

  /** Every listed name is the name of an entry. */
  lemma DirectoryNamesAreEntries(entries: seq<DirEntry>, name: string)
    ensures name in DirectoryNames(entries) ==> name in EntryNames(entries)
  {
    DirectoryNamesMembership(entries, name);
    EntriesAreNamed(entries);
  }

  /** Entry names are unique in a directory, so the listing names each workspace once. */
  lemma {:induction false} DirectoryNamesDistinct(entries: seq<DirEntry>)
    requires Distinct(EntryNames(entries))
    ensures Distinct(DirectoryNames(entries))
    decreases |entries|
  {
    if entries != [] {
      var init := entries[..|entries| - 1];
      var last := entries[|entries| - 1];
      assert EntryNames(init) == EntryNames(entries)[..|init|];
      DirectoryNamesDistinct(init);
      if last.isDirectory {
        DirectoryNamesAreEntries(init, last.name);
        assert forall k :: 0 <= k < |init| ==> EntryNames(init)[k] != EntryNames(entries)[|init|];
        assert last.name !in EntryNames(init);
      }
    }
  }

  /** Appending an entry appends its name. */
  lemma EntryNamesSnoc(entries: seq<DirEntry>, e: DirEntry)
    ensures EntryNames(entries + [e]) == EntryNames(entries) + [e.name]
  {
  }

  /** The disk as the route keeps it: one entry per name, and a saved store only inside a workspace
      directory. */
  ghost predicate Consistent(d: Disk)
  {
    && Distinct(EntryNames(d.entries))
    && forall ws :: ws in d.stores ==> DirEntry(ws, true) in d.entries
  }

  /** `!workspace || workspace.trim() === ''`: the body names no workspace. */
  predicate NameMissing(workspace: Option<string>)
  {
    workspace.None? || IsBlank(workspace.value)
  }

  /** POST: the response and the disk it leaves. The directories are made with the name as given,
      untrimmed; once they exist they stay, whether or not the store is then saved. The new entry is
      placed last only for definiteness: readdirSync promises no order. */
  function Create(d: Disk, workspace: Option<string>, svc: Services): (r: (Response, Disk))
    ensures r.0.status in {201, 400, 500}
    ensures r.0.status == 400 <==> NameMissing(workspace) || workspace.value in EntryNames(d.entries)
    ensures r.0.status == 400 ==> r.1 == d
    ensures r.0.status != 400 ==>
      && r.1.entries == d.entries + [DirEntry(workspace.value, true)]
      && r.1.uploadDirs == d.uploadDirs + {workspace.value}
      && r.1.resultDirs == d.resultDirs + {workspace.value}
    ensures r.0.status == 201 <==>
      && r.0.status != 400
      && PlaceholderDocs(svc, workspace.value).Some?
      && svc.embedOk(PlaceholderDocs(svc, workspace.value).value)
      && svc.saveOk(PlaceholderDocs(svc, workspace.value).value)
    ensures r.0.status == 201 ==>
      r.1.stores == d.stores[workspace.value := StoreFiles(PlaceholderDocs(svc, workspace.value).value, true)]
    ensures r.0.status != 201 ==> r.1.stores == d.stores
  {
    if NameMissing(workspace) then (Response(400, [], Message(NameRequiredMessage)), d)
    else
      var ws := workspace.value;
      if ws in EntryNames(d.entries) then (Response(400, [], Message(ExistsMessage)), d)
      else
        var made := Disk(d.entries + [DirEntry(ws, true)], d.uploadDirs + {ws}, d.resultDirs + {ws}, d.stores);
        match PlaceholderDocs(svc, ws)
        case None => (Response(500, [], Message(CreateErrorMessage)), made)
        case Some(init) =>
          if !svc.embedOk(init) || !svc.saveOk(init) then (Response(500, [], Message(CreateErrorMessage)), made)
          else (Response(201, [], Message(CreatedMessage)), made.(stores := made.stores[ws := StoreFiles(init, true)]))
  }

  /** The handler: the response to a request and the disk it leaves. */
  function Respond(d: Disk, req: Request, svc: Services, readFault: bool): (r: (Response, Disk))
    ensures req.verb != "POST" ==> r.1 == d
    ensures req.verb == "GET" ==>
      r.0.status == (if readFault then 500 else 200) &&
      (!readFault ==> r.0.body.Listing? && forall name :: name in r.0.body.workspaces <==> DirEntry(name, true) in d.entries)
    ensures req.verb !in AllowedMethods ==> r.0.status == 405 && r.0.allow == AllowedMethods
  {
    if req.verb == "GET" then
      if readFault then (Response(500, [], Message(ReadErrorMessage)), d)
      else
        var listing := DirectoryNames(d.entries);
        assert forall name :: name in listing <==> DirEntry(name, true) in d.entries by {
          forall name ensures name in listing <==> DirEntry(name, true) in d.entries {
            DirectoryNamesMembership(d.entries, name);
          }
        }
        (Response(200, [], Listing(listing)), d)
    else if req.verb == "POST" then Create(d, req.workspace, svc)
    else (Response(405, AllowedMethods, Plain("Method " + req.verb + " Not Allowed")), d)
  }

  /** Creating a workspace keeps the disk consistent. */
  lemma CreatePreservesConsistency(d: Disk, workspace: Option<string>, svc: Services)
    requires Consistent(d)
    ensures Consistent(Create(d, workspace, svc).1)
  {
    var (resp, d') := Create(d, workspace, svc);
    if resp.status != 400 {
      var ws := workspace.value;
      EntryNamesSnoc(d.entries, DirEntry(ws, true));
      assert EntryNames(d'.entries) == EntryNames(d.entries) + [ws];
      forall ws' | ws' in d'.stores ensures DirEntry(ws', true) in d'.entries {
        if ws' != ws {
          assert DirEntry(ws', true) in d.entries;
        }
      }
    }
  }

  /** No request leaves the disk inconsistent. */
  lemma RespondPreservesConsistency(d: Disk, req: Request, svc: Services, readFault: bool)
    requires Consistent(d)
    ensures Consistent(Respond(d, req, svc, readFault).1)
  {
    if req.verb == "POST" {
      CreatePreservesConsistency(d, req.workspace, svc);
    }
  }

  /** GET never lists a workspace twice on a consistent disk. */
  lemma ListingIsDistinct(d: Disk, svc: Services)
    requires Consistent(d)
    ensures Distinct(Respond(d, Request("GET", None), svc, false).0.body.workspaces)
  {
    DirectoryNamesDistinct(d.entries);
  }

  /** After a 201 the new workspace is listed by GET, has its upload and results directories, and
      its store holds the placeholder documents. */
  lemma CreatedWorkspaceIsListed(d: Disk, workspace: Option<string>, svc: Services)
    requires Create(d, workspace, svc).0.status == 201
    ensures var d' := Create(d, workspace, svc).1;
      && workspace.value in DirectoryNames(d'.entries)
      && workspace.value in d'.uploadDirs && workspace.value in d'.resultDirs
      && d'.stores[workspace.value].docs == PlaceholderDocs(svc, workspace.value).value
  {
    var d' := Create(d, workspace, svc).1;
    DirectoryNamesMembership(d'.entries, workspace.value);
    assert d'.entries[|d.entries|] == DirEntry(workspace.value, true);
  }

  /** The store the route saves is the one initializeVectorStore seeds for a workspace it has no
      store for: on a consistent disk and a fresh name the route succeeds exactly when the seeding
      would, and saves the same store. */
  lemma CreateSeedsAsInitializeWould(d: Disk, workspace: Option<string>, svc: Services)
    requires Consistent(d)
    requires !NameMissing(workspace) && workspace.value !in EntryNames(d.entries)
    ensures Create(d, workspace, svc).0.status == 201 <==> Initialized(d.stores, workspace.value, svc).Success?
    ensures Create(d, workspace, svc).1.stores == StoresAfterInit(d.stores, workspace.value, svc)
  {
    var ws := workspace.value;
    EntriesAreNamed(d.entries);
    assert ws !in d.stores;
  }

  /** A workspace made by the route is opened by processFiles, not seeded again. */
  lemma CreatedStoreIsReused(d: Disk, workspace: Option<string>, svc: Services, later: Services)
    requires Create(d, workspace, svc).0.status == 201
    ensures Initialized(Create(d, workspace, svc).1.stores, workspace.value, later) ==
      if later.loadStoreOk(workspace.value) then Success(PlaceholderDocs(svc, workspace.value).value)
      else Failure(LoadStoreFailed)
  {
  }

  /** Once the directories are made, a second POST of the same name is refused as existing and
      changes nothing, whether the first one answered 201 or 500. */
  lemma SecondCreateRefused(d: Disk, workspace: Option<string>, svc: Services, later: Services)
    requires Create(d, workspace, svc).0.status != 400
    ensures var d' := Create(d, workspace, svc).1;
      Create(d', workspace, later) == (Response(400, [], Message(ExistsMessage)), d')
  {
    var d' := Create(d, workspace, svc).1;
    assert EntryNames(d'.entries)[|d.entries|] == workspace.value;
  }

  /** A 500 leaves a listed workspace without a saved store, which no later POST can repair: the
      name is taken until its directory is removed by hand. */
  lemma FailedCreateLeavesEmptyWorkspace(d: Disk, workspace: Option<string>, svc: Services)
    requires Consistent(d)
    requires Create(d, workspace, svc).0.status == 500
    ensures var d' := Create(d, workspace, svc).1;
      && workspace.value in DirectoryNames(d'.entries)
      && workspace.value !in d'.stores
  {
    var d' := Create(d, workspace, svc).1;
    var ws := workspace.value;
    DirectoryNamesMembership(d'.entries, ws);
    assert d'.entries[|d.entries|] == DirEntry(ws, true);
    EntriesAreNamed(d.entries);
    assert ws !in d.stores;
  }

  /** Blankness is judged on the trimmed name, but the directories take the name as typed: with
      workspace "a" in place, a POST of " a" is not a duplicate and makes a second workspace. */
  lemma PaddedNameMakesAnotherWorkspace(d: Disk, name: string, svc: Services)
    requires !IsBlank(name) && name in EntryNames(d.entries) && " " + name !in EntryNames(d.entries)
    ensures Create(d, Some(" " + name), svc).0.status != 400
    ensures DirEntry(" " + name, true) in Create(d, Some(" " + name), svc).1.entries
  {
    var padded := " " + name;
    TrimIgnoresLeadingSpace(name);
    assert !IsBlank(padded);
    var r := Create(d, Some(padded), svc);
    assert r.0.status != 400;
    assert r.1.entries == d.entries + [DirEntry(padded, true)];
    assert r.1.entries[|d.entries|] == DirEntry(padded, true);
  }

  /** A POST touches nothing of any other workspace. */
  lemma CreateLeavesOthersAlone(d: Disk, workspace: Option<string>, svc: Services, other: string)
    requires workspace.Some? ==> other != workspace.value
    ensures var d' := Create(d, workspace, svc).1;
      && (other in EntryNames(d'.entries) <==> other in EntryNames(d.entries))
      && (other in DirectoryNames(d'.entries) <==> other in DirectoryNames(d.entries))
      && (other in d'.uploadDirs <==> other in d.uploadDirs)
      && (other in d'.resultDirs <==> other in d.resultDirs)
      && (other in d'.stores <==> other in d.stores)
      && (other in d.stores ==> d'.stores[other] == d.stores[other])
  {
    var (resp, d') := Create(d, workspace, svc);
    if resp.status != 400 {
      EntryNamesSnoc(d.entries, DirEntry(workspace.value, true));
      DirectoryNamesMembership(d.entries, other);
      DirectoryNamesMembership(d'.entries, other);
    }
  }

  /** The three base directories and what the route has made in them. */
  class Workspaces {
    var entries: seq<DirEntry>
    var uploadDirs: set<string>
    var resultDirs: set<string>
    var stores: map<string, StoreFiles>

    function State(): Disk
      reads this
    {
      Disk(entries, uploadDirs, resultDirs, stores)
    }

    /** The directories as the module's load leaves them on a machine where none existed. */
    constructor ()
      ensures State() == Disk([], {}, {}, map[])
    {
      entries := [];
      uploadDirs := {};
      resultDirs := {};
      stores := map[];
    }

    /** GET: readdir of vector_stores/, then the entries lstat reports as directories. */
    method ListWorkspaces(readFault: bool) returns (resp: Response)
      ensures readFault ==> resp == Response(500, [], Message(ReadErrorMessage))
      ensures !readFault ==> resp == Response(200, [], Listing(DirectoryNames(entries)))
    {
      if readFault {
        return Response(500, [], Message(ReadErrorMessage));
      }
      var workspaces: seq<string> := [];
      var i := 0;
      while i < |entries|
        invariant 0 <= i <= |entries|
        invariant workspaces == DirectoryNames(entries[..i])
      {
        assert entries[..i + 1][..i] == entries[..i];
        if entries[i].isDirectory {
          workspaces := workspaces + [entries[i].name];
        }
        i := i + 1;
      }
      assert entries[..i] == entries;
      return Response(200, [], Listing(workspaces));
    }

    /** POST: check the name, refuse an existing workspace, make the three directories, then seed
        and save the store. */
    method CreateWorkspace(workspace: Option<string>, svc: Services) returns (resp: Response)
      modifies this
      ensures (resp, State()) == Create(old(State()), workspace, svc)
    {
      if workspace.None? || IsBlank(workspace.value) {
        return Response(400, [], Message(NameRequiredMessage));
      }
      var ws := workspace.value;
      if ws in EntryNames(entries) {
        return Response(400, [], Message(ExistsMessage));
      }
      entries := entries + [DirEntry(ws, true)];
      uploadDirs := uploadDirs + {ws};
      resultDirs := resultDirs + {ws};
      var splitDocs := PlaceholderDocs(svc, ws);
      if splitDocs.None? || !svc.embedOk(splitDocs.value) {
        return Response(500, [], Message(CreateErrorMessage));
      }
      if !svc.saveOk(splitDocs.value) {
        return Response(500, [], Message(CreateErrorMessage));
      }
      stores := stores[ws := StoreFiles(splitDocs.value, true)];
      return Response(201, [], Message(CreatedMessage));
    }

    /** The route's handler, dispatching on the request method. */
    method Handle(req: Request, svc: Services, readFault: bool) returns (resp: Response)
      modifies this
      ensures (resp, State()) == Respond(old(State()), req, svc, readFault)
    {
      if req.verb == "GET" {
        resp := ListWorkspaces(readFault);
      } else if req.verb == "POST" {
        resp := CreateWorkspace(req.workspace, svc);
      } else {
        resp := Response(405, AllowedMethods, Plain("Method " + req.verb + " Not Allowed"));
      }
    }
  }
}
