# File-action workbench: a Dafny model of its core

The workbench is a single-page tool. A user drops documents and images on it. Each file goes into a registry. The user then builds a queue of actions: convert, combine, reduce size, resize, compress and rename. "Process" runs every queued action over the files the action captured. Processing is simulated: each file's progress climbs in random steps to 100 and the file is then marked complete.

The project models three parts of that program:

- **`FileUtils`** (`fileutils.dfy`) is filename classification.
  - The extension is the text after the last dot, lower-cased. It is mapped to one of the kinds docx, pdf, xls, png and other.
  - The supported-file test accepts the four known kinds.
  - The progress simulation is one tick loop per file. The increment depends on the current tier. Progress is clamped at 100 and reported as its floor.
- **`UseFileManager`** (`filemanager.dfy`) is the registry and the action queue. It is a class, `FileManager`, with fields:
  - `files`, the registry;
  - `activeActions`, the queue;
  - `isProcessing`;
  - `nextId`, the source of fresh ids.

  Its methods are:
  - upload with a partition into admitted and rejected files;
  - remove and clear;
  - the progress and completion updates;
  - the queue operations, and the five "add action" operations that each snapshot the current file ids;
  - processing.

  Processing resolves each action's snapshot against the registry as it was when processing began. It runs the simulation for the files it finds and completes them. Each method is stated against a specification function on sequences (`Admitted`, `Without`, `WithProgress`, `WithCompleted`, `RemoveAt`, `Resolve`, `CompletedAmong`). The properties of those functions are proved as lemmas. The class invariant `Valid` keeps ids unique. `ProgressInRange`, the [0, 100] bound on every entry's progress, is preserved by every operation that stores simulated or fixed values.
- **`Panel`** (`actionpanel.dfy`) is the action panel's state machine, a class `ActionPanel`. It holds:
  - which action kind is open (at most one);
  - the five option records with their initial values;
  - the toggle, cancel and add-action dispatch;
  - each option setter;
  - the rename preview string;
  - the rules that enable the buttons.
- **`Page`** (`page.dfy`) is the page's wiring of the panel to the hook (src/pages/Index.tsx). The panel appears only while there are files, and its enabling inputs come from the hook's state. An action added from the panel therefore always targets at least one file, and pressing an enabled Process button always starts a run.

`types.dfy` holds the shared records (file entry, action, the option records). `wrappers.dfy` holds `Option`. `scenarios.dfy` contains client runs written against the contracts alone:
- a mixed upload;
- a snapshot that outlives a removal;
- removal from the queue;
- processing refused on an empty queue.

Where the program's own descriptions and its code differ, the model follows the code:

- The `progress` field is documented as "0-100" (src/types/index.ts:10), but `updateFileProgress` stores whatever it is given (src/hooks/useFileManager.tsx:75-81), and so does `UpdateFileProgress`. The range is a proved invariant of the registry (`ProgressInRange`) under the condition the code actually meets: every stored value comes from the simulation, whose reports lie in [0, 100]. `RunFile`, `RunAction`, `ProcessActions`, `HandleFileUpload`, `RemoveFile` and `MarkFileComplete` keep it. `UpdateFileProgress` keeps it for values in range.
- The file picker offers seven extensions (`.docx,.pdf,.xls,.xlsx,.png,.jpg,.jpeg`, src/components/DropZone.tsx:55). The rejection message names four formats (src/hooks/useFileManager.tsx:49). `getFileTypeFromName` maps ten extensions to a known kind: doc, docx, pdf, xls, xlsx, png, jpg, jpeg, gif and webp. A dropped file bypasses the picker's filter (src/components/DropZone.tsx:24-32), so supported means exactly those ten (`KindOfExtension`, `GetFileTypeFromName`).
- `removeFile` filters out every entry with the id, not just one. With unique ids that is the single entry at its position (`WithoutUnique`).

## Model

| member | source | states |
|---|---|---|
| FileUtils.Split | src/lib/fileUtils.ts:5 | `split('.')` returns at least one piece. No piece contains the separator. Joining the pieces with the separator gives back the input. |
| FileUtils.Extension | src/lib/fileUtils.ts:5 | `split('.').pop()`: the result has no dot and is no longer than the name. `ExtensionSpec`, `ExtensionUnique` and `ExtensionIsLastPiece` characterise it fully. |
| FileUtils.ExtensionSpec | src/lib/fileUtils.ts:5 | The extension taken from a name has no dot. It is a suffix of the name. It is either the whole name or preceded by a dot: the text after the last dot. |
| FileUtils.ExtensionUnique | src/lib/fileUtils.ts:5 | Any dot-free suffix that is the whole name or follows a dot is the extension. The characterisation above pins it down. |
| FileUtils.ExtensionIsLastPiece | src/lib/fileUtils.ts:5 | The extension equals the last piece `split('.').pop()` returns. |
| FileUtils.ExtensionAfterLastDot | src/lib/fileUtils.ts:5 | For `base + "." + ext` with a dot-free `ext`, the extension is `ext`, whatever `base` contains. |
| FileUtils.ExtensionWithoutDot | src/lib/fileUtils.ts:5 | A name without a dot is its own extension. |
| FileUtils.ToLower | src/lib/fileUtils.ts:5 | `toLowerCase()` on ASCII: the length is kept, no upper-case letter remains, and every other character is unchanged. |
| FileUtils.ExtensionOfLower | src/lib/fileUtils.ts:5 | Lower-casing before or after taking the extension gives the same text. |
| FileUtils.KindOfExtension | src/lib/fileUtils.ts:7-24 | The switch: an extension maps to a known kind exactly when it is one of the ten cases. |
| FileUtils.GetFileTypeFromName | src/lib/fileUtils.ts:4-25 | A name has a known kind exactly when its lower-cased last extension is one of the ten. `ClassifyByExtension` and `ClassifyIgnoresCase` give the kind itself. |
| FileUtils.IsFileTypeSupported | src/lib/fileUtils.ts:27-30 | A file is supported exactly when its name is classified as a kind other than `other`. |
| FileUtils.ClassifyByExtension | src/lib/fileUtils.ts:4-25 | The kind of `base.ext` is the kind of the lower-cased `ext`. |
| FileUtils.ClassifyIgnoresCase | src/lib/fileUtils.ts:5 | Names equal up to letter case get the same kind. |
| FileUtils.ClassifyUpperCase | src/lib/fileUtils.ts:4-25 | `REPORT.PDF` is a pdf. |
| FileUtils.ClassifyTrailingDot | src/lib/fileUtils.ts:4-25 | `file.` has an empty extension and is `other`. |
| FileUtils.ClassifyLastDot | src/lib/fileUtils.ts:4-25 | `archive.pdf.Docx` is classified by its last extension: docx. |
| FileUtils.ClassifyNoDot | src/lib/fileUtils.ts:4-25 | A name with no dot is classified as a whole: `jpeg` is png. |
| FileUtils.Increment | src/lib/fileUtils.ts:57-65 | The increment for a draw in [0, 1) lies in [3, 8) below 30, in [1, 4) below 70, and in [0.5, 1.5) from 70 up. |
| FileUtils.Tick | src/lib/fileUtils.ts:59-67 | A tick never lowers progress that is in [0, 100] and never passes 100. Each tick either reaches 100 or gains at least 0.5. |
| FileUtils.SimulateFile | src/lib/fileUtils.ts:52-77 | The per-file loop applies one tick per draw and reports the floor of each level. It stops at the first level equal to 100. The reports lie in [0, 100], never decrease, end with 100 and are below 100 before that. There are at most 200 of them. |
| FileUtils.SimulateFileOperation | src/lib/fileUtils.ts:42-83 | Every file of the batch gets such a report sequence, one per file. |
| UseFileManager.UploadPartition | src/hooks/useFileManager.tsx:31-44 | Every uploaded file is either admitted or counted as unsupported, never both. |
| UseFileManager.Admitted | src/hooks/useFileManager.tsx:31-44 | The appended entries and the unsupported count add up to the batch. The ids are consecutive from the first fresh id, and progress is in range. `AdmittedItems` and `AcceptedMembers` give the rest. |
| UseFileManager.AcceptedMembers | src/hooks/useFileManager.tsx:31-44 | A file is admitted exactly when it was uploaded and passes the filter. |
| UseFileManager.AcceptedAppend | src/hooks/useFileManager.tsx:31-44 | Filtering two batches in turn is filtering their concatenation. |
| UseFileManager.AdmittedItems | src/hooks/useFileManager.tsx:33-40 | Each new entry starts at progress 0, not complete. Its kind is its name's classification, never `other`. |
| UseFileManager.Without | src/hooks/useFileManager.tsx:65 | The filter keeps no entry with the id and only entries that were present. It never grows the registry and keeps progress in range. `WithoutMembers` and `WithoutUnique` characterise it. |
| UseFileManager.WithoutMembers | src/hooks/useFileManager.tsx:64-66 | An entry survives removal exactly when it was present and has a different id. |
| UseFileManager.WithoutAbsent | src/hooks/useFileManager.tsx:64-66 | Removing an id that is not present changes nothing. |
| UseFileManager.WithoutIdempotent | src/hooks/useFileManager.tsx:64-66 | Removing the same id twice is removing it once. |
| UseFileManager.WithoutUnique | src/hooks/useFileManager.tsx:64-66 | With unique ids, removal drops exactly the entry at that id's position and keeps the order of the rest. |
| UseFileManager.RemoveAtSlices | src/hooks/useFileManager.tsx:98-100 | Removing queue index `i` drops exactly position `i` when it is in range. Any other index leaves the queue unchanged. |
| UseFileManager.RemoveAt | src/hooks/useFileManager.tsx:99 | The index filter shortens the queue by one exactly when the index is in range, and keeps only elements of the queue. `RemoveAtSlices` gives the slices. |
| UseFileManager.Resolve | src/hooks/useFileManager.tsx:119 | The resolved entries are registry entries whose id is in the snapshot. `ResolveMembers` gives the converse and `ResolveStale` the all-stale case. |
| UseFileManager.ResolveMembers | src/hooks/useFileManager.tsx:119 | A registry entry is among an action's files exactly when its id is in the action's snapshot. |
| UseFileManager.ResolveStale | src/hooks/useFileManager.tsx:119 | A snapshot whose ids were all removed resolves to no files. |
| UseFileManager.WithProgress | src/hooks/useFileManager.tsx:77-79 | The map keeps length and ids, and keeps progress in range when the new value is in range. `ProgressUpdateFrame` gives each entry. |
| UseFileManager.WithCompleted | src/hooks/useFileManager.tsx:86-88 | The map keeps length and ids, marks every entry with the id complete, and keeps progress in range. `MarkCompleteFrame` gives each entry. |
| UseFileManager.CompletedAmong | src/hooks/useFileManager.tsx:118-156 | After a run over the listed ids, length and ids are kept, every entry whose id is listed is complete, and progress stays in range. |
| UseFileManager.ProgressUpdateFrame | src/hooks/useFileManager.tsx:75-81 | A progress update keeps length, order and ids. It sets `progress` on the entries with that id and leaves every other entry alone. |
| UseFileManager.MarkCompleteFrame | src/hooks/useFileManager.tsx:84-90 | Marking complete keeps length, order and ids. It sets progress 100 and complete on the entries with that id and leaves the rest alone. |
| UseFileManager.CompleteAfterProgress | src/hooks/useFileManager.tsx:75-90 | Completing a file erases any progress update before it. |
| UseFileManager.ResolvedTargets | src/hooks/useFileManager.tsx:118-155 | Completing the resolved files of a snapshot is the same as completing every id in the snapshot. Stale ids touch nothing. |
| UseFileManager.FreshAppend | src/hooks/useFileManager.tsx:54-55 | Appending entries with fresh consecutive ids keeps ids unique. |
| UseFileManager.WithoutKeepsIds | src/hooks/useFileManager.tsx:64-66 | Removal keeps ids unique and below the id counter. |
| UseFileManager.FileManager.constructor | src/hooks/useFileManager.tsx:21-23 | The registry and the queue start empty, and processing is off. |
| UseFileManager.FileManager.HandleFileUpload | src/hooks/useFileManager.tsx:26-61 | The admitted count and the unsupported count add up to the batch size. The registry grows by exactly the admitted entries, in upload order, with fresh ids. Nothing changes when none is admitted. Ids stay unique and progress stays in range. |
| UseFileManager.FileManager.RemoveFile | src/hooks/useFileManager.tsx:64-66 | The registry becomes the old one without that id. Ids stay unique and progress stays in range. |
| UseFileManager.FileManager.ClearFiles | src/hooks/useFileManager.tsx:69-72 | Both the registry and the action queue become empty. |
| UseFileManager.FileManager.UpdateFileProgress | src/hooks/useFileManager.tsx:75-81 | Only the entry with that id gets the new progress, stored unclamped. The ids are unchanged. A value in [0, 100] keeps every progress in range. |
| UseFileManager.FileManager.MarkFileComplete | src/hooks/useFileManager.tsx:84-90 | Only the entry with that id becomes complete at 100. The ids are unchanged and progress stays in range. |
| UseFileManager.FileManager.AddAction | src/hooks/useFileManager.tsx:93-95 | The action is appended at the end of the queue. |
| UseFileManager.FileManager.RemoveAction | src/hooks/useFileManager.tsx:98-100 | The queue loses the element at that index, if there is one. |
| UseFileManager.FileManager.AddConvertAction | src/hooks/useFileManager.tsx:194-207 | A convert action with the given options and the ids of all current files, in order, is appended. |
| UseFileManager.FileManager.AddCombineAction | src/hooks/useFileManager.tsx:210-223 | The same for combine. |
| UseFileManager.FileManager.AddReduceSizeAction | src/hooks/useFileManager.tsx:226-239 | The same for reduce. |
| UseFileManager.FileManager.AddRenameAction | src/hooks/useFileManager.tsx:242-255 | The same for rename. |
| UseFileManager.FileManager.AddCompressAction | src/hooks/useFileManager.tsx:258-271 | The same for compress. |
| UseFileManager.FileManager.RunFile | src/lib/fileUtils.ts:68-75 | Given reports in [0, 100], applying a file's progress reports and then its completion leaves that file complete at 100 and every other entry as it was. Progress stays in range after every callback. |
| UseFileManager.FileManager.RunAction | src/hooks/useFileManager.tsx:150-155 | Running one action's files extends the set of completed ids by exactly those files. The simulated reports keep progress in range. |
| UseFileManager.FileManager.ProcessActions | src/hooks/useFileManager.tsx:103-173 | Processing starts exactly when both the queue and the registry are non-empty. Otherwise nothing changes. When it runs, every file whose id some action captured ends complete at 100, every other entry is untouched, and processing is off again afterwards. Each action works on its snapshot resolved against the registry as processing began. If every progress was in [0, 100] before, it is throughout and after. |
| Scenarios.UploadMixedBatch | src/hooks/useFileManager.tsx:26-61 | Uploading `report.pdf` and `image.bmp` admits one pdf entry at progress 0 and counts one unsupported file. |
| Scenarios.ReportIsPdf | src/lib/fileUtils.ts:4-25 | `report.pdf` is a pdf. |
| Scenarios.BitmapIsOther | src/lib/fileUtils.ts:4-25 | `image.bmp` is of no known kind. |
| Scenarios.QueueThenRemove | src/hooks/useFileManager.tsx:64-66 | A convert action added over three files records ids 0, 1 and 2. After file 1 is removed, the queue, read after the removal, is still exactly that action, and the registry holds files 0 and 2 in order. |
| Scenarios.SnapshotOutlivesRemoval | src/hooks/useFileManager.tsx:103-173 | After that removal, processing completes the two files that remain, and the queue read after the removal is still the one action with ids 0, 1 and 2. |
| Scenarios.RemoveFirstOfTwo | src/hooks/useFileManager.tsx:98-100 | Removing index 0 of a two-action queue leaves the second action. |
| Scenarios.RefuseWithoutActions | src/hooks/useFileManager.tsx:104-111 | With no queued action, processing does not start and the registry is unchanged. |
| Panel.RenameExampleShape | src/components/ActionPanel.tsx:377-387 | There is no preview exactly when the text is empty. Otherwise the preview is `Example: ` followed by the text and then `Filename.ext` in add-before mode. In the other two modes it is `Filename`, the text, then `.ext`, so replace previews like add-after. |
| Panel.StaleRenamePreview | src/components/ActionPanel.tsx:355-387 | For every text, old mode and new mode: after the text is typed and the mode is switched, the preview is still the old mode's. It differs from the new mode's preview whenever the switch crosses between add-before and the other modes and the text is non-empty and does not start with `F`. |
| Panel.Dispatched | src/components/ActionPanel.tsx:88-111 | A request is produced exactly when a kind is open and it is not resize. Its kind is the open kind and its value is that kind's current option record. |
| Panel.RenameExample | src/components/ActionPanel.tsx:383-386 | The preview is absent exactly for empty text. Otherwise it is 21 characters longer than the text and starts with `Example: `. `RenameExampleShape` places the text within it. |
| Panel.ActionPanel.constructor | src/components/ActionPanel.tsx:46-76 | No kind is open. The option records start at pdf/all, sameFormat/pdf, optimize/10, addAfter with empty text, and compressed_files/zip. |
| Panel.ActionPanel.ToggleAction | src/components/ActionPanel.tsx:79-85 | Choosing the open kind closes it. Choosing any other kind opens that one instead. |
| Panel.ActionPanel.Cancel | src/components/ActionPanel.tsx:438 | No kind is open afterwards. |
| Panel.ActionPanel.HandleAddAction | src/components/ActionPanel.tsx:88-111 | The request is the dispatch of the kind that was open, and no kind is open afterwards. |
| Panel.ActionPanel.SetConvertTargetFormat | src/components/ActionPanel.tsx:125 | Only the target format changes. |
| Panel.ActionPanel.SetConvertMode | src/components/ActionPanel.tsx:143-146 | Only the convert mode changes. |
| Panel.ActionPanel.SetCombineMode | src/components/ActionPanel.tsx:177-180 | Only the combine mode changes. |
| Panel.ActionPanel.SetCombineOutputFormat | src/components/ActionPanel.tsx:198 | Only the combine output format changes. |
| Panel.ActionPanel.SetCombineOutputName | src/components/ActionPanel.tsx:219 | Only the combine output name changes. |
| Panel.ActionPanel.SetReduceMode | src/components/ActionPanel.tsx:243-246 | Only the reduce mode changes. |
| Panel.ActionPanel.SetReduceMaxSize | src/components/ActionPanel.tsx:263 | Only the maximum size changes. |
| Panel.ActionPanel.SetRenameMode | src/components/ActionPanel.tsx:355-358 | Only the rename mode changes. The preview is kept. |
| Panel.ActionPanel.SetRenameText | src/components/ActionPanel.tsx:377-387 | The text changes. The preview is rebuilt from the new text and the current mode. |
| Panel.ActionPanel.SetCompressOutputName | src/components/ActionPanel.tsx:317 | Only the archive name changes. |
| Panel.ActionPanel.SetCompressFormat | src/components/ActionPanel.tsx:325 | Only the archive format changes. |
| Page.AddFromPanel | src/pages/Index.tsx:60-73 | With the panel on screen (files present, so the kind buttons are enabled, ActionPanel.tsx:423), "Add Action" appends one action of the dispatched kind, or nothing for no kind or resize. The appended action targets the ids of all current files, at least one. Afterwards Process is enabled (ActionPanel.tsx:465) unless a run is under way. |
| Page.PressProcess | src/pages/Index.tsx:60-73 | An enabled Process button on a visible panel always passes the guard of `processActions` (useFileManager.tsx:104). The run starts, completes every captured file and clears the processing flag. |

## Left out

- The timers are left out. These are the 200 ms progress interval, the 500 ms delay before completion (src/lib/fileUtils.ts:55-77) and `delay`. The files of one action run concurrently in the source. Here they run one after another in registry order. Every report of a file comes before its completion, and the actions run in queue order. Other interleavings of the per-file updates are not modelled.
- `Math.random` is a parameter `rand` that gives the n-th draw. Draws are taken in a fixed order.
- `generateUniqueId` (src/lib/fileUtils.ts:89-91) is replaced by a counter, `nextId`. The source's random ids can collide. The model's ids cannot. `UniqueIds`, and everything proved from it, rest on that change.
- `formatFileSize` is left out: display formatting with floating-point logarithms. Also left out are `saveActionSet`, which only shows a notification, every toast notification, the console error and the `catch` branch. The simulation here cannot fail.
- The `file` handle inside each entry is left out, and so is the `operationType` argument of the simulation, which the source never reads.
- Rendering is left out: the drop zone, the file list and the action list. Of the page, only the wiring of the panel to the hook is modelled (`Page`). The enabling predicates `KindButtonsEnabled`, `SaveEnabled` and `ProcessEnabled` (ActionPanel.tsx:423, 456, 465) are plain definitions used there. Saving is only a notification, so nothing depends on `SaveEnabled`.
- `toLowerCase` is modelled on ASCII letters only. Outside ASCII, the Kelvin sign lower-cases to `k`, which no known extension contains. The dotted capital I lower-cases to `i` followed by a combining dot, which no known extension contains either. So the classification does not depend on this.
- The optional `isComplete` is a boolean: absent is false. The numeric `maxSize` and queue index are unbounded integers.
- FileUtils.Increment, FileUtils.Tick, FileUtils.SimulateFile: progress and increments are exact reals, while the source computes with JavaScript doubles, which round. In doubles, `Math.random() * 1 + 0.5` on the largest draw below 1 rounds to exactly 1.5, and `progress + increment` is rounded too. The bounds `inc < 1.5` and "each tick gains at least 0.5" are proved for exact arithmetic only.
- FileUtils.SimulateFileOperation: its contract says every file gets a well-formed report sequence. It does not say which draws each file consumes.
- UseFileManager.FileManager.ProcessActions: the registry is assumed not to change from outside while processing runs. The source's updates go through the live state, so a removal during processing is not modelled. The `started` and `batches` outputs expose what the source shows only in notifications.
- Resize has an option panel but no add operation in the hook, so a resize dispatch produces no request (`Panel.Dispatched`).
