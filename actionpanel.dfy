/** src/components/ActionPanel.tsx: which action kind is being configured,
    the option records of the five configuration forms, and what "Add
    Action" hands to the page. */
module Panel {
  import opened Wrappers
  import opened Types

  const InitialConvertOptions := ConvertOptions("pdf", All)
  const InitialCombineOptions := CombineOptions(SameFormat, Some("pdf"), None)
  const InitialReduceOptions := ReduceOptions(Optimize, Some(10))
  const InitialRenameOptions := RenameOptions(AddAfter, "", None)
  const InitialCompressOptions := CompressOptions("compressed_files", Zip)

  /** The preview line of the rename form for the typed `text`, built against
      the sample name `Filename.ext`. */
  function RenameExample(mode: RenameMode, text: string): (preview: Option<string>)
    ensures preview.None? <==> text == []
    ensures preview.Some? ==> |preview.value| == 21 + |text| && preview.value[..9] == "Example: "
  {
    if text == [] then None
    else if mode == AddBefore then Some("Example: " + text + "Filename.ext")
    else Some("Example: Filename" + text + ".ext")
  }

  /** The preview is absent exactly for empty text. Otherwise it is
      `Example: ` followed by the sample name with the text put in front of it
      for `addBefore`, and between its base name `Filename` and its extension
      `.ext` for the other two modes, so `replace` previews like `addAfter`. */
  lemma RenameExampleShape(mode: RenameMode, text: string)
    ensures RenameExample(mode, text).None? <==> text == []
    ensures text != [] ==> var preview := RenameExample(mode, text).value;
      && |preview| == 21 + |text|
      && preview[..9] == "Example: "
      && (mode == AddBefore ==> preview[9..9 + |text|] == text && preview[9 + |text|..] == "Filename.ext")
      && (mode != AddBefore ==> preview[9..17] == "Filename" && preview[17..17 + |text|] == text && preview[17 + |text|..] == ".ext")
  {
    if text != [] {
      var preview := RenameExample(mode, text).value;
      if mode == AddBefore {
        assert preview == "Example: " + text + "Filename.ext";
        assert preview[..9] == "Example: ";
        assert preview[9..9 + |text|] == text;
        assert preview[9 + |text|..] == "Filename.ext";
      } else {
        assert preview == "Example: Filename" + text + ".ext";
        assert preview[..9] == "Example: ";
        assert preview[9..17] == "Filename";
        assert preview[17..17 + |text|] == text;
        assert preview[17 + |text|..] == ".ext";
      }
    }
  }

  /** The options of the switch in `handleAddAction`: which callback is called
      and with what. Nothing is called with no active kind, and nothing for
      `resize`, which no case matches; otherwise the callback of the active
      kind gets that kind's current record. */
  function Dispatched(active: Option<ActionType>, convert: ConvertOptions, combine: CombineOptions,
                      reduce: ReduceOptions, rename: RenameOptions, compress: CompressOptions)
    : (request: Option<ActionOptions>)
    ensures request.Some? <==> active.Some? && active.value != Resize
    ensures request.Some? ==> OptionsKind(request.value) == active.value
    ensures request.Some? ==>
      request.value in [ConvertOpts(convert), CombineOpts(combine), ReduceOpts(reduce), RenameOpts(rename), CompressOpts(compress)]
  {
    match active
    case None => None
    case Some(Convert) => Some(ConvertOpts(convert))
    case Some(Combine) => Some(CombineOpts(combine))
    case Some(Reduce) => Some(ReduceOpts(reduce))
    case Some(Rename) => Some(RenameOpts(rename))
    case Some(Compress) => Some(CompressOpts(compress))
    case Some(Resize) => None
  }

  /** The kind buttons: disabled without files. */
  predicate KindButtonsEnabled(hasFiles: bool)
  {
    hasFiles
  }

  /** "Save this action set": disabled without actions. */
  predicate SaveEnabled(hasActions: bool)
  {
    hasActions
  }

  /** "Process & Download": disabled while processing or without actions. */
  predicate ProcessEnabled(isProcessing: bool, hasActions: bool)
  {
    !isProcessing && hasActions
  }

  /** The preview is rebuilt only when the text changes
      (`SetRenameText`), never when the mode does (`SetRenameMode`). After
      text is typed in one mode and the mode is then switched, the preview of
      the first mode stays; it is wrong whenever the switch crosses between
      `addBefore` and the other two modes and the text does not start with
      `F`, the first letter of the sample base name. */
  lemma StaleRenamePreview(options: RenameOptions, text: string, switchedTo: RenameMode)
    ensures var typed := options.(text := text, example := RenameExample(options.mode, text));
      var switched := typed.(mode := switchedTo);
      && switched.example == RenameExample(options.mode, text)
      && (text != [] && text[0] != 'F' && (options.mode == AddBefore) != (switchedTo == AddBefore)
          ==> switched.example != RenameExample(switchedTo, text))
  {
    if text != [] && text[0] != 'F' && (options.mode == AddBefore) != (switchedTo == AddBefore) {
      var before := RenameExample(AddBefore, text).value;
      var after := RenameExample(AddAfter, text).value;
      assert before == "Example: " + text + "Filename.ext";
      assert before[9] == text[0];
      assert after == "Example: Filename" + text + ".ext";
      assert after[9] == 'F';
      assert RenameExample(switchedTo, text).value in {before, after};
    }
  }

  class ActionPanel {
    var activeAction: Option<ActionType>
    var convertOptions: ConvertOptions
    var combineOptions: CombineOptions
    var reduceOptions: ReduceOptions
    var renameOptions: RenameOptions
    var compressOptions: CompressOptions

    constructor ()
      ensures activeAction == None
      ensures convertOptions == InitialConvertOptions && combineOptions == InitialCombineOptions
      ensures reduceOptions == InitialReduceOptions && renameOptions == InitialRenameOptions
      ensures compressOptions == InitialCompressOptions
    {
      activeAction := None;
      convertOptions := InitialConvertOptions;
      combineOptions := InitialCombineOptions;
      reduceOptions := InitialReduceOptions;
      renameOptions := InitialRenameOptions;
      compressOptions := InitialCompressOptions;
    }

    /** `toggleAction`: choosing the active kind again deselects it. */
    method ToggleAction(kind: ActionType)
      modifies this`activeAction
      ensures activeAction == if old(activeAction) == Some(kind) then None else Some(kind)
    {
      if activeAction == Some(kind) {
        activeAction := None;
      } else {
        activeAction := Some(kind);
      }
    }

    /** The "Cancel" button of the configuration form. */
    method Cancel()
      modifies this`activeAction
      ensures activeAction == None
    {
      activeAction := None;
    }

    /** `handleAddAction`: returns what is handed to the page's callback, if
        anything, and closes the form. */
    method HandleAddAction() returns (request: Option<ActionOptions>)
      modifies this`activeAction
      ensures request == Dispatched(old(activeAction), convertOptions, combineOptions,
                                    reduceOptions, renameOptions, compressOptions)
      ensures activeAction == None
    {
      if activeAction == None {
        return None;
      }
      match activeAction.value {
        case Convert => request := Some(ConvertOpts(convertOptions));
        case Combine => request := Some(CombineOpts(combineOptions));
        case Reduce => request := Some(ReduceOpts(reduceOptions));
        case Rename => request := Some(RenameOpts(renameOptions));
        case Compress => request := Some(CompressOpts(compressOptions));
        case Resize => request := None;
      }
      activeAction := None;
    }

    method SetConvertTargetFormat(format: string)
      modifies this`convertOptions
      ensures convertOptions == old(convertOptions).(targetFormat := format)
    {
      convertOptions := convertOptions.(targetFormat := format);
    }

    method SetConvertMode(mode: ConvertMode)
      modifies this`convertOptions
      ensures convertOptions == old(convertOptions).(mode := mode)
    {
      convertOptions := convertOptions.(mode := mode);
    }

    method SetCombineMode(mode: CombineMode)
      modifies this`combineOptions
      ensures combineOptions == old(combineOptions).(mode := mode)
    {
      combineOptions := combineOptions.(mode := mode);
    }

    method SetCombineOutputFormat(format: string)
      modifies this`combineOptions
      ensures combineOptions == old(combineOptions).(outputFormat := Some(format))
    {
      combineOptions := combineOptions.(outputFormat := Some(format));
    }

    method SetCombineOutputName(name: string)
      modifies this`combineOptions
      ensures combineOptions == old(combineOptions).(outputName := Some(name))
    {
      combineOptions := combineOptions.(outputName := Some(name));
    }

    method SetReduceMode(mode: ReduceMode)
      modifies this`reduceOptions
      ensures reduceOptions == old(reduceOptions).(mode := mode)
    {
      reduceOptions := reduceOptions.(mode := mode);
    }

    method SetReduceMaxSize(maxSize: int)
      modifies this`reduceOptions
      ensures reduceOptions == old(reduceOptions).(maxSize := Some(maxSize))
    {
      reduceOptions := reduceOptions.(maxSize := Some(maxSize));
    }

    /** Changing the rename mode keeps the text and the preview built for the
        previous mode. */
    method SetRenameMode(mode: RenameMode)
      modifies this`renameOptions
      ensures renameOptions == old(renameOptions).(mode := mode)
    {
      renameOptions := renameOptions.(mode := mode);
    }

    /** Typing rename text rebuilds the preview for the current mode. */
    method SetRenameText(text: string)
      modifies this`renameOptions
      ensures renameOptions == old(renameOptions).(text := text, example := RenameExample(old(renameOptions).mode, text))
    {
      renameOptions := renameOptions.(text := text, example := RenameExample(renameOptions.mode, text));
    }

    method SetCompressOutputName(name: string)
      modifies this`compressOptions
      ensures compressOptions == old(compressOptions).(outputName := name)
    {
      compressOptions := compressOptions.(outputName := name);
    }

    method SetCompressFormat(format: CompressFormat)
      modifies this`compressOptions
      ensures compressOptions == old(compressOptions).(format := format)
    {
      compressOptions := compressOptions.(format := format);
    }
  }
}
