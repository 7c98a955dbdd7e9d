/** src/pages/Index.tsx: the page that wires the action panel to the
    registry. The panel is on screen only while there are files, and its
    `hasFiles`, `hasActions` and `isProcessing` come from the hook's state. */
module Page {
  import opened Wrappers
  import opened Types
  import Panel
  import opened UseFileManager

  /** "Add Action" on the panel: the request `handleAddAction` produces goes
      to the hook's add operation of the same kind. The kind buttons are
      enabled only with files, so an action added from the panel always
      targets at least one file, and afterwards Process is enabled unless a
      run is under way. */
  method AddFromPanel(m: FileManager, panel: Panel.ActionPanel) returns (request: Option<ActionOptions>)
    requires m.Valid() && Panel.KindButtonsEnabled(|m.files| > 0)
    modifies m`activeActions, panel`activeAction
    ensures request == Panel.Dispatched(old(panel.activeAction), panel.convertOptions, panel.combineOptions,
                                        panel.reduceOptions, panel.renameOptions, panel.compressOptions)
    ensures request.None? ==> m.activeActions == old(m.activeActions)
    ensures request.Some? ==>
      m.activeActions == old(m.activeActions) + [Action(OptionsKind(request.value), Some(request.value), Ids(m.files))]
    ensures request.Some? ==> |m.activeActions[|m.activeActions| - 1].files| > 0
    ensures request.Some? ==> Panel.ProcessEnabled(m.isProcessing, |m.activeActions| > 0) || m.isProcessing
  {
    request := panel.HandleAddAction();
    if request.Some? {
      match request.value {
        case ConvertOpts(o) => m.AddConvertAction(o);
        case CombineOpts(o) => m.AddCombineAction(o);
        case ReduceOpts(o) => m.AddReduceSizeAction(o);
        case RenameOpts(o) => m.AddRenameAction(o);
        case CompressOpts(o) => m.AddCompressAction(o);
      }
    }
  }

  /** "Process & Download" on the panel. The button is enabled only with
      actions and no run under way, and the panel is on screen only with
      files, so the guard of `processActions` never refuses a press: the run
      starts and completes every file some queued action captured. */
  method PressProcess(m: FileManager, rand: nat -> real) returns (started: bool, batches: seq<seq<FileId>>)
    requires m.Valid() && |m.files| > 0
    requires Panel.ProcessEnabled(m.isProcessing, |m.activeActions| > 0)
    requires forall k :: 0.0 <= rand(k) < 1.0
    modifies m`files, m`isProcessing
    ensures started && !m.isProcessing
    ensures m.files == CompletedAmong(old(m.files), TargetIds(m.activeActions))
  {
    started, batches := m.ProcessActions(rand);
  }
}
