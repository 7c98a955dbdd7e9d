/** src/hooks/useFileManager.tsx: the state behind the page — the file
    registry, the queue of actions and the processing flag — with the
    operations that update it. */
module UseFileManager {
  import opened Wrappers
  import opened Types
  import FileUtils

  // ---------------------------------------------------------------------
  // The registry and queue operations on values
  // ---------------------------------------------------------------------

  /** `files.map(file => file.id)`. */
  function Ids(files: seq<FileItem>): seq<FileId>
  {
    seq(|files|, i requires 0 <= i < |files| => files[i].id)
  }

  ghost predicate UniqueIds(files: seq<FileItem>)
  {
    forall i, j :: 0 <= i < j < |files| ==> files[i].id != files[j].id
  }

  /** Every entry's progress lies in [0, 100], the range the type promises
      for it. */
  ghost predicate ProgressInRange(files: seq<FileItem>)
  {
    forall i :: 0 <= i < |files| ==> 0 <= files[i].progress <= 100
  }

  /** The files of a batch that `accept` admits, in input order. */
  function Accepted(uploaded: seq<UploadedFile>, accept: UploadedFile -> bool): seq<UploadedFile>
  {
    if uploaded == [] then []
    else
      var last := uploaded[|uploaded| - 1];
      Accepted(uploaded[..|uploaded| - 1], accept) + if accept(last) then [last] else []
  }

  /** How many files of a batch `accept` turns away. */
  function RejectedCount(uploaded: seq<UploadedFile>, accept: UploadedFile -> bool): nat
  {
    if uploaded == [] then 0
    else
      var last := uploaded[|uploaded| - 1];
      RejectedCount(uploaded[..|uploaded| - 1], accept) + if accept(last) then 0 else 1
  }

  /** The uploaded files `isFileTypeSupported` accepts, in input order. */
  function Supported(uploaded: seq<UploadedFile>): seq<UploadedFile>
  {
    Accepted(uploaded, FileUtils.IsFileTypeSupported)
  }

  /** The `unsupportedCount` of an upload. */
  function UnsupportedCount(uploaded: seq<UploadedFile>): nat
  {
    RejectedCount(uploaded, FileUtils.IsFileTypeSupported)
  }

  /** The registry entry the upload handler builds for an accepted file. */
  function NewItem(file: UploadedFile, id: FileId): FileItem
  {
    FileItem(id, file.name, file.size, FileUtils.GetFileTypeFromName(file.name), 0, false)
  }

  /** The entries an upload appends: one per accepted file, in input order,
      with consecutive fresh ids from `firstId` on. */
  function Admitted(uploaded: seq<UploadedFile>, firstId: FileId): (added: seq<FileItem>)
    ensures |added| + UnsupportedCount(uploaded) == |uploaded|
    ensures forall j :: 0 <= j < |added| ==> added[j].id == firstId + j
    ensures ProgressInRange(added)
  {
    UploadPartition(uploaded, FileUtils.IsFileTypeSupported);
    var accepted := Supported(uploaded);
    seq(|accepted|, j requires 0 <= j < |accepted| => NewItem(accepted[j], firstId + j))
  }

  /** `files.filter(file => file.id !== id)`. */
  function Without(files: seq<FileItem>, id: FileId): (kept: seq<FileItem>)
    ensures |kept| <= |files|
    ensures forall i :: 0 <= i < |kept| ==> kept[i].id != id && kept[i] in files
    ensures ProgressInRange(files) ==> ProgressInRange(kept)
  {
    if files == [] then []
    else (if files[0].id == id then [] else [files[0]]) + Without(files[1..], id)
  }

  /** `files.map(file => file.id === id ? { ...file, progress } : file)`. */
  function WithProgress(files: seq<FileItem>, id: FileId, progress: int): (updated: seq<FileItem>)
    ensures |updated| == |files| && Ids(updated) == Ids(files)
    ensures ProgressInRange(files) && 0 <= progress <= 100 ==> ProgressInRange(updated)
  {
    seq(|files|, i requires 0 <= i < |files| =>
      if files[i].id == id then files[i].(progress := progress) else files[i])
  }

  /** A finished entry: progress 100 and marked complete. */
  function Completed(f: FileItem): FileItem
  {
    f.(progress := 100, isComplete := true)
  }

  /** `files.map(file => file.id === id ? { ...file, progress: 100, isComplete: true } : file)`. */
  function WithCompleted(files: seq<FileItem>, id: FileId): (updated: seq<FileItem>)
    ensures |updated| == |files| && Ids(updated) == Ids(files)
    ensures forall i :: 0 <= i < |updated| && updated[i].id == id ==> updated[i].isComplete
    ensures ProgressInRange(files) ==> ProgressInRange(updated)
  {
    seq(|files|, i requires 0 <= i < |files| =>
      if files[i].id == id then Completed(files[i]) else files[i])
  }

  /** Every entry whose id is in `ids` finished, the others as they were. */
  function CompletedAmong(files: seq<FileItem>, ids: seq<FileId>): (updated: seq<FileItem>)
    ensures |updated| == |files| && Ids(updated) == Ids(files)
    ensures forall i :: 0 <= i < |updated| && updated[i].id in ids ==> updated[i].isComplete
    ensures ProgressInRange(files) ==> ProgressInRange(updated)
  {
    seq(|files|, i requires 0 <= i < |files| =>
      if files[i].id in ids then Completed(files[i]) else files[i])
  }

  /** `queue.filter((_, i) => i !== index)`: the element at position `index`
      is dropped, if there is one. */
  function RemoveAt<T>(queue: seq<T>, index: int): (rest: seq<T>)
    ensures |rest| == if 0 <= index < |queue| then |queue| - 1 else |queue|
    ensures forall x :: x in rest ==> x in queue
  {
    if queue == [] then []
    else (if index == 0 then [] else [queue[0]]) + RemoveAt(queue[1..], index - 1)
  }

  /** `files.filter(file => action.files.includes(file.id))`: the registry
      entries an action's snapshot still names, in registry order. */
  function Resolve(files: seq<FileItem>, snapshot: seq<FileId>): (found: seq<FileItem>)
    ensures |found| <= |files|
    ensures forall i :: 0 <= i < |found| ==> found[i] in files && found[i].id in snapshot
  {
    if files == [] then []
    else (if files[0].id in snapshot then [files[0]] else []) + Resolve(files[1..], snapshot)
  }

  /** The snapshots of the queue's actions, one after the other. */
  function TargetIds(queue: seq<Action>): seq<FileId>
  {
    if queue == [] then []
    else TargetIds(queue[..|queue| - 1]) + queue[|queue| - 1].files
  }

  // ---------------------------------------------------------------------
  // Properties of the operations
  // ---------------------------------------------------------------------

  /** Upload partitions its input: every file is either accepted or counted
      as rejected. */
  lemma {:induction false} UploadPartition(uploaded: seq<UploadedFile>, accept: UploadedFile -> bool)
    ensures |Accepted(uploaded, accept)| + RejectedCount(uploaded, accept) == |uploaded|
  {
    if uploaded != [] {
      UploadPartition(uploaded[..|uploaded| - 1], accept);
    }
  }

  /** The accepted files are exactly the admitted files of the input. */
  lemma {:induction false} AcceptedMembers(uploaded: seq<UploadedFile>, accept: UploadedFile -> bool, f: UploadedFile)
    ensures f in Accepted(uploaded, accept) <==> f in uploaded && accept(f)
  {
    if uploaded != [] {
      var init := uploaded[..|uploaded| - 1];
      AcceptedMembers(init, accept, f);
      assert uploaded == init + [uploaded[|uploaded| - 1]];
    }
  }

  /** Acceptance keeps input order: filtering two batches one after the other
      is filtering their concatenation. */
  lemma {:induction false} AcceptedAppend(a: seq<UploadedFile>, b: seq<UploadedFile>, accept: UploadedFile -> bool)
    ensures Accepted(a + b, accept) == Accepted(a, accept) + Accepted(b, accept)
  {
    if b != [] {
      var b' := b[..|b| - 1];
      assert (a + b)[..|a + b| - 1] == a + b';
      AcceptedAppend(a, b', accept);
    } else {
      assert a + b == a;
    }
  }

  /** One more file of the batch: it is appended with the next id if it is
      supported, and counted otherwise. */
  lemma UploadStep(uploaded: seq<UploadedFile>, i: nat, firstId: FileId)
    requires i < |uploaded|
    ensures var file, before := uploaded[i], Admitted(uploaded[..i], firstId);
      Admitted(uploaded[..i + 1], firstId)
      == before + if FileUtils.IsFileTypeSupported(file) then [NewItem(file, firstId + |before|)] else []
    ensures UnsupportedCount(uploaded[..i + 1])
      == UnsupportedCount(uploaded[..i]) + if FileUtils.IsFileTypeSupported(uploaded[i]) then 0 else 1
  {
    assert uploaded[..i + 1][..i] == uploaded[..i];
  }

  /** Every accepted entry starts at progress 0, not complete, with a kind
      other than `other` taken from its name. */
  lemma AdmittedItems(uploaded: seq<UploadedFile>, firstId: FileId, j: nat)
    requires j < |Admitted(uploaded, firstId)|
    ensures Admitted(uploaded, firstId)[j].progress == 0
    ensures !Admitted(uploaded, firstId)[j].isComplete
    ensures Admitted(uploaded, firstId)[j].kind != Other
    ensures Admitted(uploaded, firstId)[j].kind == FileUtils.GetFileTypeFromName(Admitted(uploaded, firstId)[j].name)
  {
    AcceptedMembers(uploaded, FileUtils.IsFileTypeSupported, Supported(uploaded)[j]);
  }

  /** Removal drops every entry with the id and keeps each other entry. */
  lemma {:induction false} WithoutMembers(files: seq<FileItem>, id: FileId, f: FileItem)
    ensures f in Without(files, id) <==> f in files && f.id != id
  {
    if files != [] {
      WithoutMembers(files[1..], id, f);
      assert files == [files[0]] + files[1..];
    }
  }

  /** Removing an id that is absent changes nothing. */
  lemma {:induction false} WithoutAbsent(files: seq<FileItem>, id: FileId)
    requires id !in Ids(files)
    ensures Without(files, id) == files
  {
    if files != [] {
      assert files[0].id == Ids(files)[0];
      assert Ids(files[1..]) == Ids(files)[1..];
      WithoutAbsent(files[1..], id);
    }
  }

  /** Removing the same id a second time changes nothing. */
  lemma WithoutIdempotent(files: seq<FileItem>, id: FileId)
    ensures Without(Without(files, id), id) == Without(files, id)
  {
    var once := Without(files, id);
    forall i | 0 <= i < |once| ensures Ids(once)[i] != id {
      WithoutMembers(files, id, once[i]);
    }
    WithoutAbsent(once, id);
  }

  /** With unique ids, removing the entry at position `k` by its id is
      cutting that one position out: the rest keep their order. */
  lemma {:induction false} WithoutUnique(files: seq<FileItem>, k: nat)
    requires UniqueIds(files) && k < |files|
    ensures Without(files, files[k].id) == files[..k] + files[k + 1..]
  {
    var id := files[k].id;
    if k == 0 {
      assert id !in Ids(files[1..]);
      WithoutAbsent(files[1..], id);
    } else {
      WithoutUnique(files[1..], k - 1);
      assert files[1..][k - 1].id == id;
      assert files[..k] == [files[0]] + files[1..][..k - 1];
    }
  }

  /** Filtering by index is cutting out position `index` when it is in range,
      and the identity otherwise. */
  lemma {:induction false} RemoveAtSlices<T>(queue: seq<T>, index: int)
    ensures RemoveAt(queue, index) == if 0 <= index < |queue| then queue[..index] + queue[index + 1..] else queue
  {
    if queue != [] {
      RemoveAtSlices(queue[1..], index - 1);
      if index != 0 {
        assert queue == [queue[0]] + queue[1..];
      }
      if 0 < index < |queue| {
        assert queue[..index] == [queue[0]] + queue[1..][..index - 1];
      }
    }
  }

  /** An action resolves to exactly the registry entries its snapshot names. */
  lemma {:induction false} ResolveMembers(files: seq<FileItem>, snapshot: seq<FileId>, f: FileItem)
    ensures f in Resolve(files, snapshot) <==> f in files && f.id in snapshot
  {
    if files != [] {
      ResolveMembers(files[1..], snapshot, f);
      assert files == [files[0]] + files[1..];
    }
  }

  /** Once none of its ids is left in the registry, an action resolves to
      nothing: stale ids are skipped. */
  lemma {:induction false} ResolveStale(files: seq<FileItem>, snapshot: seq<FileId>)
    requires forall id :: id in snapshot ==> id !in Ids(files)
    ensures Resolve(files, snapshot) == []
  {
    if files != [] {
      assert files[0].id == Ids(files)[0];
      assert Ids(files[1..]) == Ids(files)[1..];
      ResolveStale(files[1..], snapshot);
    }
  }

  /** A progress update touches only the `progress` of the entries with that
      id, and stores the value as given: length, order, ids and every other
      field stay. */
  lemma ProgressUpdateFrame(files: seq<FileItem>, id: FileId, p: int)
    ensures |WithProgress(files, id, p)| == |files| && Ids(WithProgress(files, id, p)) == Ids(files)
    ensures forall i :: 0 <= i < |files| ==>
      && WithProgress(files, id, p)[i].progress == (if files[i].id == id then p else files[i].progress)
      && WithProgress(files, id, p)[i].(progress := files[i].progress) == files[i]
  {
  }

  /** Marking complete sets progress 100 and the flag on the entries with
      that id and changes nothing else. */
  lemma MarkCompleteFrame(files: seq<FileItem>, id: FileId)
    ensures |WithCompleted(files, id)| == |files| && Ids(WithCompleted(files, id)) == Ids(files)
    ensures forall i :: 0 <= i < |files| ==>
      if files[i].id == id then
        && WithCompleted(files, id)[i].progress == 100 && WithCompleted(files, id)[i].isComplete
        && WithCompleted(files, id)[i].(progress := files[i].progress, isComplete := files[i].isComplete) == files[i]
      else WithCompleted(files, id)[i] == files[i]
  {
  }

  /** Marking a file complete makes its earlier progress updates irrelevant. */
  lemma CompleteAfterProgress(files: seq<FileItem>, id: FileId, p: int)
    ensures WithCompleted(WithProgress(files, id, p), id) == WithCompleted(files, id)
  {
  }

  // ---------------------------------------------------------------------
  // The hook's state
  // ---------------------------------------------------------------------

  class FileManager {
    var files: seq<FileItem>
    var activeActions: seq<Action>
    var isProcessing: bool
    /** The next id `generateUniqueId` hands out; every id in the registry is
        below it, so each new id is fresh. */
    var nextId: FileId

    ghost predicate Valid()
      reads this
    {
      && UniqueIds(files)
      && forall i :: 0 <= i < |files| ==> files[i].id < nextId
    }

    constructor ()
      ensures Valid()
      ensures files == [] && activeActions == [] && !isProcessing && nextId == 0
    {
      files, activeActions, isProcessing, nextId := [], [], false, 0;
    }

    /** `handleFileUpload`: appends an entry for each supported file, in input
        order, and counts the rest. */
    method HandleFileUpload(uploaded: seq<UploadedFile>) returns (added: nat, unsupportedCount: nat)
      requires Valid()
      modifies this`files, this`nextId
      ensures Valid()
      ensures added + unsupportedCount == |uploaded|
      ensures unsupportedCount == UnsupportedCount(uploaded)
      ensures files == old(files) + Admitted(uploaded, old(nextId))
      ensures added == 0 ==> files == old(files)
      ensures nextId == old(nextId) + added
      ensures ProgressInRange(old(files)) ==> ProgressInRange(files)
    {
      var newFiles: seq<FileItem> := [];
      unsupportedCount := 0;
      var i := 0;
      while i < |uploaded|
        invariant 0 <= i <= |uploaded|
        invariant newFiles == Admitted(uploaded[..i], old(nextId))
        invariant forall j :: 0 <= j < |newFiles| ==> newFiles[j].id == old(nextId) + j
        invariant unsupportedCount == UnsupportedCount(uploaded[..i])
        invariant nextId == old(nextId) + |newFiles|
        invariant files == old(files)
      {
        var file := uploaded[i];
        var supported := FileUtils.IsFileTypeSupported(file);
        UploadStep(uploaded, i, old(nextId));
        if supported {
          var id := nextId;
          nextId := nextId + 1;
          newFiles := newFiles + [NewItem(file, id)];
        } else {
          unsupportedCount := unsupportedCount + 1;
        }
        i := i + 1;
      }
      assert uploaded[..i] == uploaded;
      FreshAppend(files, newFiles, old(nextId));
      if |newFiles| > 0 {
        files := files + newFiles;
      }
      added := |newFiles|;
      UploadPartition(uploaded, FileUtils.IsFileTypeSupported);
    }

    /** `removeFile`. */
    method RemoveFile(id: FileId)
      requires Valid()
      modifies this`files
      ensures Valid()
      ensures files == Without(old(files), id)
      ensures ProgressInRange(old(files)) ==> ProgressInRange(files)
    {
      WithoutKeepsIds(files, id, nextId);
      files := Without(files, id);
    }

    /** `clearFiles`: empties the registry and the queue. */
    method ClearFiles()
      requires Valid()
      modifies this`files, this`activeActions
      ensures Valid()
      ensures files == [] && activeActions == []
    {
      files := [];
      activeActions := [];
    }

    /** `updateFileProgress`: the value is stored as given. */
    method UpdateFileProgress(id: FileId, progress: int)
      requires Valid()
      modifies this`files
      ensures Valid()
      ensures files == WithProgress(old(files), id, progress)
      ensures Ids(files) == Ids(old(files))
      ensures ProgressInRange(old(files)) && 0 <= progress <= 100 ==> ProgressInRange(files)
    {
      files := WithProgress(files, id, progress);
    }

    /** `markFileComplete`. */
    method MarkFileComplete(id: FileId)
      requires Valid()
      modifies this`files
      ensures Valid()
      ensures files == WithCompleted(old(files), id)
      ensures Ids(files) == Ids(old(files))
      ensures ProgressInRange(old(files)) ==> ProgressInRange(files)
    {
      files := WithCompleted(files, id);
    }

    /** `addAction`: appends at the end of the queue. */
    method AddAction(action: Action)
      modifies this`activeActions
      ensures activeActions == old(activeActions) + [action]
    {
      activeActions := activeActions + [action];
    }

    /** `removeAction`. */
    method RemoveAction(index: int)
      modifies this`activeActions
      ensures activeActions == RemoveAt(old(activeActions), index)
    {
      activeActions := RemoveAt(activeActions, index);
    }

    /** The common body of the five `add*Action` callbacks: queue an action of
        the given kind whose snapshot is every current id, in registry order. */
    method AddWithSnapshot(kind: ActionType, options: ActionOptions)
      modifies this`activeActions
      ensures activeActions == old(activeActions) + [Action(kind, Some(options), Ids(files))]
    {
      var fileIds := Ids(files);
      AddAction(Action(kind, Some(options), fileIds));
    }

    method AddConvertAction(options: ConvertOptions)
      modifies this`activeActions
      ensures activeActions == old(activeActions) + [Action(Convert, Some(ConvertOpts(options)), Ids(files))]
    {
      AddWithSnapshot(Convert, ConvertOpts(options));
    }

    method AddCombineAction(options: CombineOptions)
      modifies this`activeActions
      ensures activeActions == old(activeActions) + [Action(Combine, Some(CombineOpts(options)), Ids(files))]
    {
      AddWithSnapshot(Combine, CombineOpts(options));
    }

    method AddReduceSizeAction(options: ReduceOptions)
      modifies this`activeActions
      ensures activeActions == old(activeActions) + [Action(Reduce, Some(ReduceOpts(options)), Ids(files))]
    {
      AddWithSnapshot(Reduce, ReduceOpts(options));
    }

    method AddRenameAction(options: RenameOptions)
      modifies this`activeActions
      ensures activeActions == old(activeActions) + [Action(Rename, Some(RenameOpts(options)), Ids(files))]
    {
      AddWithSnapshot(Rename, RenameOpts(options));
    }

    method AddCompressAction(options: CompressOptions)
      modifies this`activeActions
      ensures activeActions == old(activeActions) + [Action(Compress, Some(CompressOpts(options)), Ids(files))]
    {
      AddWithSnapshot(Compress, CompressOpts(options));
    }

    /** The two callbacks `simulateFileOperation` drives for one file: each
        reported value through `updateFileProgress`, then `markFileComplete`
        once. Reports in [0, 100] keep every entry's progress in [0, 100]
        after each callback. */
    method RunFile(id: FileId, reports: seq<int>)
      requires Valid()
      requires forall k :: 0 <= k < |reports| ==> 0 <= reports[k] <= 100
      modifies this`files
      ensures Valid()
      ensures files == WithCompleted(old(files), id)
      ensures ProgressInRange(old(files)) ==> ProgressInRange(files)
    {
      var k := 0;
      while k < |reports|
        invariant 0 <= k <= |reports|
        invariant Valid()
        invariant ProgressInRange(old(files)) ==> ProgressInRange(files)
        invariant WithCompleted(files, id) == WithCompleted(old(files), id)
      {
        CompleteAfterProgress(files, id, reports[k]);
        UpdateFileProgress(id, reports[k]);
        k := k + 1;
      }
      MarkFileComplete(id);
    }

    /** One action of the run: `simulateFileOperation` on the entries the
      action resolves to, each then driven through its progress callbacks and
      completed. */
    method RunAction(snapshot: seq<FileItem>, ghost done: seq<FileId>, actionFiles: seq<FileItem>,
                     rand: nat -> real, draw: nat)
      returns (next: nat)
      requires Valid() && files == CompletedAmong(snapshot, done)
      requires forall k :: 0.0 <= rand(k) < 1.0
      modifies this`files
      ensures Valid()
      ensures files == CompletedAmong(snapshot, done + Ids(actionFiles))
      ensures ProgressInRange(old(files)) ==> ProgressInRange(files)
    {
      var traces;
      traces, next := FileUtils.SimulateFileOperation(actionFiles, rand, draw);
      var j := 0;
      while j < |actionFiles|
        invariant 0 <= j <= |actionFiles|
        invariant Valid()
        invariant files == CompletedAmong(snapshot, done + Ids(actionFiles[..j]))
        invariant ProgressInRange(old(files)) ==> ProgressInRange(files)
      {
        RunFile(actionFiles[j].id, traces[j]);
        assert Ids(actionFiles[..j + 1]) == Ids(actionFiles[..j]) + [actionFiles[j].id];
        j := j + 1;
      }
      assert actionFiles[..j] == actionFiles;
    }

    /** `processActions`: refuses to start without actions or without files;
        otherwise runs the actions in queue order, each on the registry
        entries its snapshot still names (`batches[i]` for action `i`), with
        `isProcessing` set for the whole run and cleared at its end. */
    method ProcessActions(rand: nat -> real) returns (started: bool, batches: seq<seq<FileId>>)
      requires Valid()
      requires forall k :: 0.0 <= rand(k) < 1.0
      modifies this`files, this`isProcessing
      ensures Valid()
      ensures started <==> |activeActions| > 0 && |old(files)| > 0
      ensures !started ==> files == old(files) && isProcessing == old(isProcessing) && batches == []
      ensures started ==> !isProcessing
      ensures ProgressInRange(old(files)) ==> ProgressInRange(files)
      ensures started ==> files == CompletedAmong(old(files), TargetIds(activeActions))
      ensures started ==> |batches| == |activeActions|
      ensures started ==> forall i :: 0 <= i < |batches| ==> batches[i] == Ids(Resolve(old(files), activeActions[i].files))
    {
      if |activeActions| == 0 || |files| == 0 {
        return false, [];
      }
      started := true;
      isProcessing := true;
      var snapshot := files;
      var draw: nat := 0;
      batches := [];
      var i := 0;
      while i < |activeActions|
        invariant 0 <= i <= |activeActions|
        invariant Valid() && isProcessing
        invariant files == CompletedAmong(snapshot, TargetIds(activeActions[..i]))
        invariant ProgressInRange(snapshot) ==> ProgressInRange(files)
        invariant |batches| == i
        invariant forall b :: 0 <= b < i ==> batches[b] == Ids(Resolve(snapshot, activeActions[b].files))
      {
        var action := activeActions[i];
        var actionFiles := Resolve(snapshot, action.files);
        var next := RunAction(snapshot, TargetIds(activeActions[..i]), actionFiles, rand, draw);
        ResolvedTargets(snapshot, action.files, TargetIds(activeActions[..i]));
        assert activeActions[..i + 1][..i] == activeActions[..i];
        batches := batches + [Ids(actionFiles)];
        draw := next;
        i := i + 1;
      }
      assert activeActions[..i] == activeActions;
      isProcessing := false;
    }
  }

  /** Completing the entries an action resolves to is completing the entries
      whose id its snapshot names. */
  lemma ResolvedTargets(files: seq<FileItem>, snapshot: seq<FileId>, done: seq<FileId>)
    ensures CompletedAmong(files, done + Ids(Resolve(files, snapshot))) == CompletedAmong(files, done + snapshot)
  {
    var resolved := Resolve(files, snapshot);
    forall i | 0 <= i < |files|
      ensures files[i].id in Ids(resolved) <==> files[i].id in snapshot
    {
      ResolveMembers(files, snapshot, files[i]);
      if files[i].id in snapshot {
        var k :| 0 <= k < |resolved| && resolved[k] == files[i];
        assert Ids(resolved)[k] == files[i].id;
      } else {
        forall k | 0 <= k < |resolved| ensures Ids(resolved)[k] != files[i].id {
          ResolveMembers(files, snapshot, resolved[k]);
        }
      }
    }
  }

  /** Appending entries with consecutive ids from `bound` on, all of them
      above the ids present, keeps ids unique. */
  lemma FreshAppend(files: seq<FileItem>, added: seq<FileItem>, bound: nat)
    requires UniqueIds(files) && forall i :: 0 <= i < |files| ==> files[i].id < bound
    requires forall j :: 0 <= j < |added| ==> added[j].id == bound + j
    ensures UniqueIds(files + added)
    ensures forall i :: 0 <= i < |files + added| ==> (files + added)[i].id < bound + |added|
  {
  }

  /** Removal keeps ids unique and below any bound they were below. */
  lemma {:induction false} WithoutKeepsIds(files: seq<FileItem>, id: FileId, bound: nat)
    requires UniqueIds(files) && forall i :: 0 <= i < |files| ==> files[i].id < bound
    ensures UniqueIds(Without(files, id))
    ensures forall i :: 0 <= i < |Without(files, id)| ==> Without(files, id)[i].id < bound
  {
    if files != [] {
      var rest := Without(files[1..], id);
      WithoutKeepsIds(files[1..], id, bound);
      forall i | 0 <= i < |rest| ensures rest[i].id != files[0].id {
        WithoutMembers(files[1..], id, rest[i]);
        var k :| 0 <= k < |files[1..]| && files[1..][k] == rest[i];
        assert files[k + 1] == rest[i];
      }
    }
  }
}
