/** Client runs of the registry, written against the contracts alone. */
module Scenarios {
  import opened Wrappers
  import opened Types
  import FileUtils
  import opened UseFileManager

  /** `report.pdf` is a pdf. */
  lemma ReportIsPdf()
    ensures FileUtils.GetFileTypeFromName("report.pdf") == Pdf
  {
    FileUtils.ClassifyByExtension("report", "pdf");
    assert "report" + "." + "pdf" == "report.pdf";
    assert FileUtils.ToLower("pdf") == "pdf";
  }

  /** `image.bmp` is of no known kind. */
  lemma BitmapIsOther()
    ensures FileUtils.GetFileTypeFromName("image.bmp") == Other
  {
    FileUtils.ClassifyByExtension("image", "bmp");
    assert "image" + "." + "bmp" == "image.bmp";
    assert FileUtils.ToLower("bmp") == "bmp";
  }

  /** Of `report.pdf` and `image.bmp`, only the first passes the filter. */
  lemma MixedBatchFiltered(report: UploadedFile, image: UploadedFile)
    requires report.name == "report.pdf" && image.name == "image.bmp"
    ensures Supported([report, image]) == [report]
    ensures UnsupportedCount([report, image]) == 1
  {
    ReportIsPdf();
    BitmapIsOther();
    assert FileUtils.IsFileTypeSupported(report) && !FileUtils.IsFileTypeSupported(image);
    var accept := FileUtils.IsFileTypeSupported;
    var batch := [report, image];
    assert batch[..1] == [report] && [report][..0] == [];
    assert Accepted([report], accept) == [report];
    assert Accepted(batch, accept) == Accepted([report], accept);
    assert RejectedCount([report], accept) == 0;
    assert RejectedCount(batch, accept) == 1;
  }

  /** A batch in which every file passes the filter is accepted whole. */
  lemma {:induction false} AllAccepted(uploaded: seq<UploadedFile>, accept: UploadedFile -> bool)
    requires forall i :: 0 <= i < |uploaded| ==> accept(uploaded[i])
    ensures Accepted(uploaded, accept) == uploaded
  {
    if uploaded != [] {
      var init := uploaded[..|uploaded| - 1];
      AllAccepted(init, accept);
      assert init + [uploaded[|uploaded| - 1]] == uploaded;
    }
  }

  /** Uploading `report.pdf` and `image.bmp`: the PDF is admitted with kind
      pdf and progress 0, the bitmap is rejected and counted. */
  method UploadMixedBatch() returns (added: nat, rejected: nat, registry: seq<FileItem>)
    ensures added == 1 && rejected == 1
    ensures |registry| == 1 && registry[0].name == "report.pdf" && registry[0].kind == Pdf
    ensures registry[0].size == 2048000 && registry[0].progress == 0 && !registry[0].isComplete
  {
    var report, image := UploadedFile("report.pdf", 2048000), UploadedFile("image.bmp", 0);
    ReportIsPdf();
    MixedBatchFiltered(report, image);
    var batch := [report, image];
    var m := new FileManager();
    added, rejected := m.HandleFileUpload(batch);
    registry := m.files;
  }

  /** A fresh registry fed three accepted files numbers them 0, 1, 2. */
  lemma ThreeAdmitted(files: seq<UploadedFile>)
    requires |files| == 3 && forall i :: 0 <= i < 3 ==> FileUtils.IsFileTypeSupported(files[i])
    ensures |Admitted(files, 0)| == 3 && Ids(Admitted(files, 0)) == [0, 1, 2]
    ensures forall i :: 0 <= i < 3 ==> Admitted(files, 0)[i].name == files[i].name
  {
    AllAccepted(files, FileUtils.IsFileTypeSupported);
  }

  /** An entry whose id an action names ends complete at 100. */
  lemma CompletedByRun(kept: seq<FileItem>, ids: seq<FileId>, i: nat)
    requires i < |kept| && kept[i].id in ids
    ensures CompletedAmong(kept, ids)[i] == kept[i].(progress := 100, isComplete := true)
  {
  }

  /** A convert action added over a registry of three files records all three
      ids; removing one file afterwards leaves the queued action as it was
      (`queue` is read after the removal). */
  method QueueThenRemove(files: seq<UploadedFile>) returns (m: FileManager, action: Action, queue: seq<Action>)
    requires |files| == 3 && forall i :: 0 <= i < 3 ==> FileUtils.IsFileTypeSupported(files[i])
    ensures fresh(m) && m.Valid() && queue == m.activeActions
    ensures action.kind == Convert && action.files == [0, 1, 2]
    ensures queue == [action]
    ensures |m.files| == 2 && m.files[0].name == files[0].name && m.files[1].name == files[2].name
    ensures m.files[0].id == 0 && m.files[1].id == 2
  {
    m := new FileManager();
    AllAccepted(files, FileUtils.IsFileTypeSupported);
    ThreeAdmitted(files);
    var added, rejected := m.HandleFileUpload(files);
    var registry := m.files;
    m.AddConvertAction(ConvertOptions("png", All));
    action := m.activeActions[0];
    assert m.activeActions == [action] && action.files == [0, 1, 2];
    WithoutUnique(registry, 1);
    m.RemoveFile(1);
    queue := m.activeActions;
    assert m.files == [registry[0], registry[2]];
  }

  /** Processing after that removal completes the two files still present:
      the stale id 1 touches nothing. */
  method SnapshotOutlivesRemoval(files: seq<UploadedFile>, rand: nat -> real)
    returns (action: Action, queue: seq<Action>, remaining: seq<FileItem>)
    requires |files| == 3 && forall i :: 0 <= i < 3 ==> FileUtils.IsFileTypeSupported(files[i])
    requires forall k :: 0.0 <= rand(k) < 1.0
    ensures action.kind == Convert && action.files == [0, 1, 2]
    ensures queue == [action]
    ensures |remaining| == 2 && remaining[0].name == files[0].name && remaining[1].name == files[2].name
    ensures forall i :: 0 <= i < 2 ==> remaining[i].progress == 100 && remaining[i].isComplete
  {
    var m;
    m, action, queue := QueueThenRemove(files);
    var kept := m.files;
    assert TargetIds(queue) == [0, 1, 2] by {
      assert queue[..0] == [];
    }
    var started, batches := m.ProcessActions(rand);
    remaining := m.files;
    CompletedByRun(kept, [0, 1, 2], 0);
    CompletedByRun(kept, [0, 1, 2], 1);
  }

  /** Removing the first of two queued actions leaves the second alone. */
  method RemoveFirstOfTwo(first: Action, second: Action) returns (queue: seq<Action>)
    ensures queue == [second]
  {
    var m := new FileManager();
    m.AddAction(first);
    m.AddAction(second);
    m.RemoveAction(0);
    RemoveAtSlices([first, second], 0);
    queue := m.activeActions;
  }

  /** Processing with an empty queue is refused and changes nothing. */
  method RefuseWithoutActions(files: seq<UploadedFile>, rand: nat -> real)
    returns (started: bool, before: seq<FileItem>, after: seq<FileItem>)
    requires forall k :: 0.0 <= rand(k) < 1.0
    ensures !started && after == before
  {
    var m := new FileManager();
    var added, rejected := m.HandleFileUpload(files);
    before := m.files;
    var batches;
    started, batches := m.ProcessActions(rand);
    after := m.files;
  }
}
