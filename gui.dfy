/**
 * The decisions of the converter window (gui.py), without tkinter: the tab
 * to extension tables, the extension swap on a tab change, the checks
 * before a conversion starts, the width handed to the pipeline, and the
 * slider set up from the first frame of a chosen folder.
 */
module Gui {
  import opened Wrappers
  import opened FrameFiles
  import opened Paths
  import Convert

  // ---------------------------------------------------------------------
  // Tabs and extensions
  // ---------------------------------------------------------------------

  /** Lines 228-239: the extension `on_tab_change` gives tab AVIF, WebM, Safari (HEVC), GIF, APNG. */
  function TabExtension(tab: int): Option<string> {
    if tab == 0 then Some(".avif")
    else if tab == 1 then Some(".webm")
    else if tab == 2 then Some(".mov")
    else if tab == 3 then Some(".gif")
    else if tab == 4 then Some(".png")
    else None
  }

  /** A filter of the save dialog: a description and a glob pattern. */
  datatype FileType = FileType(description: string, pattern: string)

  /** Lines 249-266: `browse_output`'s own table of file types for each tab... */
  function DialogFileType(tab: int): FileType {
    if tab == 0 then FileType("AVIF files", "*.avif")
    else if tab == 1 then FileType("WebM files", "*.webm")
    else if tab == 2 then FileType("Safari/QuickTime files", "*.mov")
    else if tab == 3 then FileType("GIF files", "*.gif")
    else if tab == 4 then FileType("APNG files", "*.png")
    else FileType("All files", "*.*")
  }

  /** ... and of default extensions. */
  function DefaultExtension(tab: int): string {
    if tab == 0 then ".avif"
    else if tab == 1 then ".webm"
    else if tab == 2 then ".mov"
    else if tab == 3 then ".gif"
    else if tab == 4 then ".png"
    else ""
  }

  /**
   * The two tables agree: the save dialog defaults to the extension a tab
   * change would give, filters on exactly that extension, and has no default
   * for a tab outside 0..4. Every extension of the table is one `splitext`
   * would split off again.
   */
  lemma TablesAgree(tab: int)
    ensures DefaultExtension(tab) == TabExtension(tab).GetOr("")
    ensures TabExtension(tab).Some? <==> 0 <= tab <= 4
    ensures TabExtension(tab).Some? ==> DialogFileType(tab).pattern == "*" + TabExtension(tab).value
    ensures TabExtension(tab).Some? ==> IsExtension(TabExtension(tab).value)
  {}

  /** Lines 219-242: the output path after the tab `tab` was selected. */
  function TabChanged(outputFile: string, tab: int): string {
    if outputFile == "" then outputFile
    else match TabExtension(tab)
      case None => outputFile
      case Some(ext) => Splitext(outputFile).0 + ext
  }

  /**
   * An empty path or an unknown tab changes nothing. Otherwise the path
   * keeps everything before its old extension and ends in the tab's
   * extension, which `splitext` now reports as the extension unless the file
   * name had no stem (it was empty or all dots) to begin with.
   */
  lemma TabChangeRule(outputFile: string, tab: int)
    ensures outputFile == "" || TabExtension(tab).None? ==> TabChanged(outputFile, tab) == outputFile
    ensures outputFile != "" && TabExtension(tab).Some? ==>
      var ext := TabExtension(tab).value;
      && TabChanged(outputFile, tab) == Splitext(outputFile).0 + ext
      && EndsWith(TabChanged(outputFile, tab), ext)
      && (HasStem(Splitext(outputFile).0) ==> Splitext(TabChanged(outputFile, tab)) == (Splitext(outputFile).0, ext))
  {
    if outputFile != "" && TabExtension(tab).Some? {
      var ext := TabExtension(tab).value;
      var root := Splitext(outputFile).0;
      assert (root + ext)[|root + ext| - |ext|..] == ext;
      TablesAgree(tab);
      if HasStem(root) {
        SplitextRoundTrip(root, ext);
      }
    }
  }

  /**
   * Switching tabs repeatedly leaves the extension of the last tab only,
   * as long as the file name has a stem; a path that already has an
   * extension always has one.
   */
  lemma TabChangeLastWins(outputFile: string, a: int, b: int)
    requires outputFile != "" && 0 <= a <= 4 && 0 <= b <= 4
    requires HasStem(Splitext(outputFile).0)
    ensures TabChanged(TabChanged(outputFile, a), b) == TabChanged(outputFile, b)
  {
    var root := Splitext(outputFile).0;
    var once := TabChanged(outputFile, a);
    TablesAgree(a);
    assert once == root + TabExtension(a).value;
    assert once != "";
    SplitextRoundTrip(root, TabExtension(a).value);
    assert Splitext(once).0 == root;
  }

  /** `on_tab_change` after tab 0 on "out/" (no stem) gives "out/.avif", which then keeps ".avif". */
  lemma TabChangeWithoutStem()
    ensures TabChanged("out/", 0) == "out/.avif"
    ensures TabChanged(TabChanged("out/", 0), 1) == "out/.avif.webm"
  {
    assert LastIndexIn("out/", Separators) == 3;
    assert Splitext("out/") == ("out/", "") by {
      assert LastIndexIn("out/", {'.'}) == -1 by {
        LastIndexUnique("out/", {'.'}, -1);
      }
    }
    var p := "out/.avif";
    assert LastIndexIn(p, Separators) == 3 by {
      LastIndexUnique(p, Separators, 3);
    }
    assert LastIndexIn(p, {'.'}) == 4 by {
      LastIndexUnique(p, {'.'}, 4);
    }
    assert !HasNonDot(p, 3, 4);
  }

  // ---------------------------------------------------------------------
  // Starting a conversion and the width it gets
  // ---------------------------------------------------------------------

  datatype StartOutcome = Rejected(message: string) | Started(inputFolder: string, outputFile: string)

  /** Lines 288-293: the input folder is checked before the output file. */
  function CheckStart(inputFolder: string, outputFile: string): StartOutcome {
    if inputFolder == "" then Rejected("Please select an input folder.")
    else if outputFile == "" then Rejected("Please select an output file.")
    else Started(inputFolder, outputFile)
  }

  lemma CheckStartRule(inputFolder: string, outputFile: string)
    ensures CheckStart(inputFolder, outputFile).Started? <==> inputFolder != "" && outputFile != ""
    ensures inputFolder == "" ==> CheckStart(inputFolder, outputFile) == Rejected("Please select an input folder.")
    ensures inputFolder != "" && outputFile == "" ==>
      CheckStart(inputFolder, outputFile) == Rejected("Please select an output file.")
    ensures CheckStart(inputFolder, outputFile).Started? ==>
      CheckStart(inputFolder, outputFile) == Started(inputFolder, outputFile)
  {}

  /** Lines 315-321: the width handed to the pipeline. */
  function EffectiveWidth(sliderEnabled: bool, sliderTo: int, width: int): Option<int> {
    if sliderEnabled then (if width == sliderTo then None else Some(width)) else None
  }

  /**
   * No width (so no resizing) when the slider is disabled or sits at its
   * maximum, the slider's value otherwise; in particular a width from an
   * enabled slider below its maximum is the one the pipeline compares with.
   */
  lemma EffectiveWidthRule(sliderEnabled: bool, sliderTo: int, width: int)
    ensures EffectiveWidth(sliderEnabled, sliderTo, width).None? <==> !sliderEnabled || width == sliderTo
    ensures EffectiveWidth(sliderEnabled, sliderTo, width).Some? ==>
      EffectiveWidth(sliderEnabled, sliderTo, width).value == width
  {}

  /** How a conversion ended, as `run_conversion` sees it. */
  datatype PipelineOutcome = Returned(success: bool) | Raised(message: string)

  /** The dialog shown at the end. */
  datatype Notice = Info(title: string, text: string) | ErrorBox(title: string, text: string)

  /**
   * Lines 332-337 as evidently intended: True is reported as a success,
   * False with the generic message, and an exception with its own message
   * (the handler binds `str(e)` before it schedules the dialog).
   */
  function Completion(outcome: PipelineOutcome): Notice {
    match outcome
    case Returned(true) => Info("Success", "Conversion completed successfully!")
    case Returned(false) => ErrorBox("Error", "Conversion failed. Check console for details.")
    case Raised(message) => ErrorBox("Error", message)
  }

  /** Every outcome ends in a dialog; only True ends in the success dialog. */
  lemma CompletionRule(outcome: PipelineOutcome)
    ensures Completion(outcome).Info? <==> outcome == Returned(true)
    ensures outcome == Returned(false) ==>
      Completion(outcome) == ErrorBox("Error", "Conversion failed. Check console for details.")
    ensures outcome.Raised? ==> Completion(outcome) == ErrorBox("Error", outcome.message)
  {}

  /**
   * Lines 332-337 as written. The exception branch schedules a lambda that
   * reads `e` only when Tk runs it, after the `except` block has ended and
   * Python has unbound `e`; the lambda then raises NameError inside the Tk
   * callback and no dialog appears.
   */
  function CompletionAsWritten(outcome: PipelineOutcome): Option<Notice> {
    match outcome
    case Returned(true) => Some(Info("Success", "Conversion completed successfully!"))
    case Returned(false) => Some(ErrorBox("Error", "Conversion failed. Check console for details."))
    case Raised(_) => None
  }

  /** As written, a returned result is shown as intended and an exception is shown not at all. */
  lemma CompletionAsWrittenRule(outcome: PipelineOutcome)
    ensures CompletionAsWritten(outcome).Some? <==> outcome.Returned?
    ensures outcome.Returned? ==> CompletionAsWritten(outcome) == Some(Completion(outcome))
  {}

  /** The discrepancy on one input: an exception "boom" is lost instead of shown. */
  lemma ExceptionDialogLost()
    ensures CompletionAsWritten(Raised("boom")) == None
    ensures Completion(Raised("boom")) == ErrorBox("Error", "boom")
  {}

  // ---------------------------------------------------------------------
  // The width scan of a chosen folder
  // ---------------------------------------------------------------------

  /** Lines 202-217: the width of the first sorted ".png" file, None on an empty selection or any error. */
  function ScannedWidth(listing: Convert.Listing, open: string -> Option<Convert.Dims>): Option<nat> {
    match listing
    case NotFound => None
    case Unreadable => None
    case Entries(names) =>
      var files := SelectFiles(names);
      if files == [] then None
      else match open(files[0])
        case None => None
        case Some(d) => Some(d.width)
  }

  /**
   * The scan enables the slider exactly for a readable folder whose least
   * ".png" name opens, and takes that file's width: the file the pipeline
   * opens first. When no width is passed, that is the width of the first
   * frame the encoder receives.
   */
  lemma ScanUsesFirstFrame(listing: Convert.Listing, open: string -> Option<Convert.Dims>,
                           outputFile: string, fps: int, quality: int,
                           resizeOk: (Convert.Dims, Convert.Dims) -> bool, saveOk: Convert.SaveCall -> bool)
    ensures ScannedWidth(listing, open).Some? <==>
      listing.Entries? && SelectFiles(listing.names) != [] && open(SelectFiles(listing.names)[0]).Some?
    ensures ScannedWidth(listing, open).Some? ==>
      && ScannedWidth(listing, open).value == open(SelectFiles(listing.names)[0]).value.width
      && forall x :: x in listing.names && IsPng(x) ==> AtMost(SelectFiles(listing.names)[0], x)
    ensures var run := Convert.ExpectedRun(listing, outputFile, fps, quality, None, true, open, resizeOk, saveOk);
      run.ok ==> ScannedWidth(listing, open) == Some(run.save.value.first.width)
  {
    if ScannedWidth(listing, open).Some? {
      FirstSelectedIsLeast(listing.names);
    }
    var run := Convert.ExpectedRun(listing, outputFile, fps, quality, None, true, open, resizeOk, saveOk);
    if run.ok {
      Convert.SuccessfulRun(listing, outputFile, fps, quality, None, true, open, resizeOk, saveOk);
      Convert.ResizeRule(open(SelectFiles(listing.names)[0]).value, None, resizeOk);
    }
  }

  // ---------------------------------------------------------------------
  // The window's state
  // ---------------------------------------------------------------------

  /**
   * The state the handlers read and write: the Tk variables, the width
   * slider's state and range, the status line, the two buttons' states
   * and the convert button's label.
   */
  class ConverterWindow {
    var inputFolder: string
    var outputFile: string
    var fps: int
    var quality: int
    var width: int
    var sliderEnabled: bool
    var sliderFrom: int
    var sliderTo: int
    var status: string
    var convertEnabled: bool
    var convertLabel: string
    var openEnabled: bool

    /** Lines 14-20, 100 and 148-151: the state after the window was built. */
    constructor ()
      ensures inputFolder == "" && outputFile == ""
      ensures fps == 24 && quality == 85 && width == 0
      ensures !sliderEnabled && sliderFrom == 1 && sliderTo == 100
      ensures status == "Ready" && convertEnabled && convertLabel == "Convert" && !openEnabled
    {
      inputFolder, outputFile := "", "";
      fps, quality, width := 24, 85, 0;
      sliderEnabled, sliderFrom, sliderTo := false, 1, 100;
      status, convertEnabled, convertLabel, openEnabled := "Ready", true, "Convert", false;
    }

    /** `on_tab_change`, with `tab` the index of the newly selected tab. */
    method OnTabChange(tab: int)
      modifies this`outputFile
      ensures outputFile == TabChanged(old(outputFile), tab)
    {
      var currentFile := outputFile;
      if currentFile == "" {
        return;
      }
      var base := Splitext(currentFile).0;
      var newExt;
      if tab == 0 {
        newExt := ".avif";
      } else if tab == 1 {
        newExt := ".webm";
      } else if tab == 2 {
        newExt := ".mov";
      } else if tab == 3 {
        newExt := ".gif";
      } else if tab == 4 {
        newExt := ".png";
      } else {
        return;
      }
      outputFile := base + newExt;
    }

    /**
     * `browse_output`: the dialog is opened with the tab's file type and
     * default extension; `chosen` is what it returned ("" on cancel).
     */
    method BrowseOutput(tab: int, chosen: string) returns (fileType: FileType, defaultExtension: string)
      modifies this`outputFile
      ensures fileType == DialogFileType(tab) && defaultExtension == DefaultExtension(tab)
      ensures outputFile == if chosen != "" then chosen else old(outputFile)
    {
      fileType, defaultExtension := DialogFileType(tab), DefaultExtension(tab);
      if chosen != "" {
        outputFile := chosen;
      }
    }

    /** `scan_folder_for_width`, for the folder whose listing is `listing`. */
    method ScanFolderForWidth(listing: Convert.Listing, open: string -> Option<Convert.Dims>)
      modifies this`sliderEnabled, this`sliderFrom, this`sliderTo, this`width
      ensures ScannedWidth(listing, open).Some? ==>
        && sliderEnabled && sliderFrom == 1
        && sliderTo == ScannedWidth(listing, open).value && width == ScannedWidth(listing, open).value
      ensures ScannedWidth(listing, open).None? ==>
        !sliderEnabled && sliderFrom == old(sliderFrom) && sliderTo == old(sliderTo) && width == old(width)
    {
      if !listing.Entries? {
        sliderEnabled := false;
        return;
      }
      var files := SelectFiles(listing.names);
      if files != [] {
        var img := open(files[0]);
        if img.None? {
          sliderEnabled := false;
          return;
        }
        var w := img.value.width;
        sliderFrom, sliderTo, sliderEnabled := 1, w, true;
        width := w;
      } else {
        sliderEnabled := false;
      }
    }

    /** `browse_input`: `chosen` is the folder the dialog returned ("" on cancel). */
    method BrowseInput(chosen: string, listing: Convert.Listing, open: string -> Option<Convert.Dims>)
      modifies this`inputFolder, this`sliderEnabled, this`sliderFrom, this`sliderTo, this`width
      ensures chosen == "" ==> unchanged(this)
      ensures chosen != "" ==> inputFolder == chosen
      ensures chosen != "" && ScannedWidth(listing, open).Some? ==>
        && sliderEnabled && sliderFrom == 1
        && sliderTo == ScannedWidth(listing, open).value && width == ScannedWidth(listing, open).value
      ensures chosen != "" && ScannedWidth(listing, open).None? ==>
        !sliderEnabled && sliderFrom == old(sliderFrom) && sliderTo == old(sliderTo) && width == old(width)
    {
      if chosen != "" {
        inputFolder := chosen;
        ScanFolderForWidth(listing, open);
      }
    }

    /**
     * `start_conversion` up to starting the worker thread: the outcome says
     * whether it started and with which paths, or which error was shown.
     */
    method StartConversion() returns (outcome: StartOutcome)
      modifies this`convertEnabled, this`convertLabel, this`status
      ensures outcome == CheckStart(inputFolder, outputFile)
      ensures outcome.Started? ==> !convertEnabled && convertLabel == "Converting..." && status == "Converting..."
      ensures outcome.Rejected? ==> unchanged(this)
    {
      if inputFolder == "" {
        return Rejected("Please select an input folder.");
      }
      if outputFile == "" {
        return Rejected("Please select an output file.");
      }
      convertEnabled, convertLabel := false, "Converting...";
      status := "Converting...";
      outcome := Started(inputFolder, outputFile);
    }

    /** `conversion_success` (the later of its two identical definitions). */
    method ConversionSuccess() returns (notice: Notice)
      modifies this`status, this`convertEnabled, this`convertLabel, this`openEnabled
      ensures status == "Conversion Complete!" && convertEnabled && convertLabel == "Convert" && openEnabled
      ensures notice == Completion(Returned(true))
    {
      status := "Conversion Complete!";
      convertEnabled, convertLabel := true, "Convert";
      openEnabled := true;
      notice := Info("Success", "Conversion completed successfully!");
    }

    /** `conversion_error` (the later of its two identical definitions). */
    method ConversionError(message: string) returns (notice: Notice)
      modifies this`status, this`convertEnabled, this`convertLabel
      ensures status == "Error occurred" && convertEnabled && convertLabel == "Convert"
      ensures notice == ErrorBox("Error", message)
    {
      status := "Error occurred";
      convertEnabled, convertLabel := true, "Convert";
      notice := ErrorBox("Error", message);
    }

    /**
     * The last step of `run_conversion` as evidently intended: the handler
     * the outcome selects, with the exception's message bound before the
     * dialog is scheduled.
     */
    method Finish(outcome: PipelineOutcome) returns (notice: Notice)
      modifies this`status, this`convertEnabled, this`convertLabel, this`openEnabled
      ensures notice == Completion(outcome)
      ensures convertEnabled && convertLabel == "Convert"
      ensures status == if outcome == Returned(true) then "Conversion Complete!" else "Error occurred"
      ensures openEnabled == (outcome == Returned(true) || old(openEnabled))
    {
      match outcome
      case Returned(true) =>
        notice := ConversionSuccess();
      case Returned(false) =>
        notice := ConversionError("Conversion failed. Check console for details.");
      case Raised(message) =>
        notice := ConversionError(message);
    }

    /**
     * The last step of `run_conversion` as written (lines 332-337): after an
     * exception the scheduled lambda fails on the unbound `e`, so no handler
     * runs; the button stays disabled and the status keeps its last text.
     */
    method FinishAsWritten(outcome: PipelineOutcome) returns (notice: Option<Notice>)
      modifies this`status, this`convertEnabled, this`convertLabel, this`openEnabled
      ensures notice == CompletionAsWritten(outcome)
      ensures outcome.Raised? ==> unchanged(this)
      ensures outcome.Returned? ==> convertEnabled && convertLabel == "Convert"
      ensures outcome.Returned? ==>
        status == if outcome.success then "Conversion Complete!" else "Error occurred"
      ensures outcome.Returned? ==> openEnabled == (outcome.success || old(openEnabled))
    {
      match outcome
      case Returned(true) =>
        var n := ConversionSuccess();
        notice := Some(n);
      case Returned(false) =>
        var n := ConversionError("Conversion failed. Check console for details.");
        notice := Some(n);
      case Raised(_) =>
        notice := None;
    }

    /**
     * `run_conversion`: compute the width, run the pipeline on the folder's
     * `listing` with progress reporting, then show the outcome.
     */
    method RunConversion(inputFolder: string, outputFile: string, listing: Convert.Listing,
                         open: string -> Option<Convert.Dims>,
                         resizeOk: (Convert.Dims, Convert.Dims) -> bool,
                         saveOk: Convert.SaveCall -> bool)
      returns (passedWidth: Option<int>, run: Convert.Run, notice: Notice)
      modifies this`status, this`convertEnabled, this`convertLabel, this`openEnabled
      ensures passedWidth == EffectiveWidth(sliderEnabled, sliderTo, width)
      ensures run == Convert.ExpectedRun(listing, outputFile, fps, quality, passedWidth, true,
                                         open, resizeOk, saveOk)
      ensures notice == Completion(Returned(run.ok))
      ensures convertEnabled && convertLabel == "Convert"
      ensures status == if run.ok then "Conversion Complete!" else "Error occurred"
      ensures openEnabled == (run.ok || old(openEnabled))
    {
      var w: Option<int> := Some(width);
      if sliderEnabled {
        var originalWidth := sliderTo;
        if width == originalWidth {
          w := None;
        }
      } else {
        w := None;
      }
      passedWidth := w;
      var success, events, openCalls, save :=
        Convert.ConvertImagesToAvif(listing, outputFile, fps, quality, w, true, open, resizeOk, saveOk);
      run := Convert.Run(success, events, openCalls, save);
      notice := Finish(Returned(success));
    }
  }
}
