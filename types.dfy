/** The entities of src/types/index.ts: the file descriptor held by the
    registry, the queued action and the five per-kind option records. */
module Types {
  import opened Wrappers

  /** The five file kinds a name can be classified into. */
  datatype FileType = Docx | Pdf | Xls | Png | Other

  /** Registry ids. The source draws them from `Math.random`; here they are
      opaque values handed out fresh by the registry. */
  type FileId = nat

  /** A browser `File` as the upload handler sees it: only its name and size
      are read. */
  datatype UploadedFile = UploadedFile(name: string, size: nat)

  /** One registry entry. `kind` is the source's `type` field; the optional
      `isComplete` flag is `false` where the source leaves it undefined. */
  datatype FileItem = FileItem(
    id: FileId,
    name: string,
    size: nat,
    kind: FileType,
    progress: int,
    isComplete: bool)

  datatype ActionType = Convert | Combine | Reduce | Resize | Compress | Rename

  datatype ConvertMode = All | Individual | Selected
  datatype CombineMode = SameFormat | Merge | SinglePdf
  datatype ReduceMode = Optimize | Maximum
  datatype RenameMode = AddBefore | AddAfter | Replace
  datatype CompressFormat = Zip

  datatype ConvertOptions = ConvertOptions(targetFormat: string, mode: ConvertMode)
  datatype CombineOptions = CombineOptions(mode: CombineMode, outputFormat: Option<string>, outputName: Option<string>)
  datatype ReduceOptions = ReduceOptions(mode: ReduceMode, maxSize: Option<int>)
  datatype RenameOptions = RenameOptions(mode: RenameMode, text: string, example: Option<string>)
  datatype CompressOptions = CompressOptions(outputName: string, format: CompressFormat)

  /** The options bag of an action, as a closed union over the five records. */
  datatype ActionOptions =
    | ConvertOpts(convert: ConvertOptions)
    | CombineOpts(combine: CombineOptions)
    | ReduceOpts(reduce: ReduceOptions)
    | RenameOpts(rename: RenameOptions)
    | CompressOpts(compress: CompressOptions)

  /** The action kind an options record belongs to. */
  function OptionsKind(o: ActionOptions): ActionType
  {
    match o
    case ConvertOpts(_) => Convert
    case CombineOpts(_) => Combine
    case ReduceOpts(_) => Reduce
    case RenameOpts(_) => Rename
    case CompressOpts(_) => Compress
  }

  /** A queued action: its kind, its options and the snapshot of file ids it
      was created with. */
  datatype Action = Action(kind: ActionType, options: Option<ActionOptions>, files: seq<FileId>)
}
