# sequence2motion: a verified model of the PNG-sequence converter

The repository turns a folder of still PNG frames into one animated AVIF. It
has two parts. `convert.py` holds the pipeline `convert_images_to_avif` and a
small command line. `gui.py` is a tkinter window that picks the folder, the
output path, the frame rate, the quality and an optional target width, and
then runs the pipeline on a worker thread.

This project models both parts in Dafny and proves what they promise.

- `FrameFiles` (`frame_files.dfy`) says which directory entries are frames:
  names whose lower-cased form ends in `.png`. It also fixes their order:
  Python's code-point ordering of `str`, which this module defines itself.
  It proves that the selection holds exactly the `.png` entries, each as
  many times as the listing holds it. It proves the selection is ascending,
  and that ascending order leaves only one possible arrangement.
- `Convert` (`convert.dfy`) models `convert_images_to_avif` as a method with
  the source's loading loop.
  - Everything outside the pipeline is a parameter: the folder listing, the
    decoder, the resampler and the encoder.
  - The method returns three more things beside the bool: the progress
    callback's calls, the files handed to `Image.open`, and the one encoder
    call.
  - Its contract equates all of this with the reference function
    `ExpectedRun`, and lemmas prove the pipeline's properties about that
    function.
  - `RunCli` models `main`: its defaults and its exit status.
- `Paths` (`paths.dfy`) models `os.path.splitext` and proves that it splits a
  path into two parts that rejoin to the original. It also proves that
  splitting `root + ext` gives back `root` and `ext`.
- `Gui` (`gui.dfy`) holds the window's decisions as total functions:
  - the tab-to-extension table and the save dialog's table;
  - the extension swap on a tab change;
  - the start checks;
  - the width handed to the pipeline;
  - the width scan of a folder.

  Class `ConverterWindow` has the fields the handlers update. Its methods
  mirror the handlers and call the pipeline model.

A few facts about `convert.py` shape the model:
- It writes AVIF only, whatever the output file's extension.
- The new height is truncated by `int(...)`, not rounded.
- `convert_images_to_avif` returns a bool.
- Every failure it catches becomes `False`.

Two facts about the source matter here. First, `gui.py:6` imports
`convert_images`, but `convert.py` defines only `convert_images_to_avif`, so
as written the window module fails to import. The model connects
`run_conversion` to the function under its real name. Second, gui.py defines
`conversion_success` and `conversion_error` twice, with identical bodies
(lines 184-193 and 339-348). Python keeps the later pair, and the model has
each handler once.

## Model

| member | source | states |
|---|---|---|
| FrameFiles.PngEntries | convert.py:23 | The comprehension keeps each entry whose ASCII-lowered name ends in ".png", as many times as the listing holds it, and drops every other entry. |
| FrameFiles.SortSpec | convert.py:24 | `files.sort()` leaves an ascending permutation of the list, in Python's `str` order. |
| FrameFiles.SortedUnique | convert.py:24 | Two ascending arrangements of the same names are equal, so the frame order is fully determined by the names. |
| FrameFiles.BelowTotal | convert.py:24 | Python's string order is total: two different names are always comparable. |
| FrameFiles.BelowTransitive | convert.py:24 | Python's string order is transitive. |
| FrameFiles.SelectFilesSpec | convert.py:23-24 | A name is selected iff it is in the listing and ends in ".png" ignoring case. Each `.png` entry appears as often as in the listing. The result is ascending, and it is the only ascending arrangement of those entries. |
| FrameFiles.FirstSelectedIsLeast | gui.py:204-207 | The first selected file is a `.png` entry of the listing, and it is at most every other `.png` entry. |
| Convert.ResizeRule | convert.py:49-52 | A frame is resized only when the width is set, non-zero and below the frame's width. It then gets exactly that width and the floor of `width*h/w` as height, so it never grows. It keeps the aspect ratio within one pixel. The resize succeeds iff the width is positive, the height is at least 1 and the resampler accepts. Otherwise the frame is kept as decoded. |
| Convert.FrameInterval | convert.py:60 | `int(1000 / fps)`: no value for fps = 0 (division by zero). For fps >= 1 it is the largest d with d*fps <= 1000. For negative fps it truncates toward zero. |
| Convert.LoadingEventsAt | convert.py:41-43 | After k iterations the loop has reported exactly k events, and event i is "Loading image i+1/n..." with current i and total n. |
| Convert.LoadFrames | convert.py:41-54 | The loading loop either yields one frame per file, in file order, each the opened and possibly resized frame. Or it stops at the first file that cannot be opened or resized, after all earlier files loaded. |
| Convert.LoadFramesSucceedsIff | convert.py:41-54 | Loading succeeds iff every selected file opens and resizes. |
| Convert.LoadImages | convert.py:41-54 | The loop method: its result is the `LoadFrames` outcome. It reports one event before each file it reaches. It opens exactly the files up to and including the failing one, or all of them. |
| Convert.ConvertImagesToAvif | convert.py:7-88 | The callback calls, the files opened, the encoder call and the returned bool are those of `ExpectedRun` for the same environment. |
| Convert.EarlyFailures | convert.py:22-34 | A missing or unreadable folder, or one with no `.png` names, returns False. No event is reported, no file is opened and nothing is saved. |
| Convert.FrameFailureAborts | convert.py:39-88 | If the i-th selected file cannot be opened or resized, the result is False and nothing is saved. Only a prefix of the sorted files, at most i+1 of them, was opened. |
| Convert.ZeroFpsFailsAfterLoading | convert.py:56-88 | With fps = 0 and every frame loadable, all files are opened and all loading events reported. The division then raises, the result is False, and neither the encoding event nor a save happens. |
| Convert.SuccessfulRun | convert.py:70-84 | True implies: n > 0 `.png` files, all opened in sorted order, and fps != 0. The encoder got file 0's frame as first and files 1..n-1's frames as the rest, in order, with format AVIF, save_all, loop 0, one duration `int(1000/fps)` (1000 div fps for fps >= 1), the quality unchanged and optimize. The encoder did not raise. |
| Convert.SucceedsIff | convert.py:19-88 | The result is True iff the folder lists at least one `.png` file, every one of them loads, fps != 0 and the one save call does not raise. |
| Convert.ProgressProtocol | convert.py:41-64 | When the encoder is reached with a callback, the events are exactly "Loading image 1/n..." to "Loading image n/n..." (current 0..n-1), then one encoding event with current = total = n. Current strictly increases. |
| Convert.ProgressAscends | convert.py:41-64 | In every run, the reported events strictly increase in current, and every event has as total the number of selected files. Without a callback there are no events. |
| Convert.RunCli | convert.py:90-102 | `main` exits with status 1 exactly when the conversion returned False, and 0 otherwise. |
| Convert.CliDefaults | convert.py:94-100 | Omitted options mean fps 24, quality 85 and no width, so no frame is resized. The command line passes no callback, so nothing is reported. |
| Paths.SplitextSpec | gui.py:226 | `splitext` gives a root and an extension that rejoin to the path. The extension is empty or a dot followed by no dot or separator. A non-empty extension leaves a root with a stem. |
| Paths.SplitextRoundTrip | gui.py:226-242 | Splitting `root + ext` gives `(root, ext)` when root's last component has a stem and ext is an extension. |
| Gui.TablesAgree | gui.py:244-266 | For tabs 0-4 the save dialog's default extension equals the extension a tab change gives, and its filter pattern is `*` plus that extension. For any other tab the default is "". Every table extension is a proper extension. |
| Gui.TabChangeRule | gui.py:219-242 | An empty output path or a tab outside 0-4 leaves the path unchanged. Otherwise the path becomes its `splitext` root plus the tab's extension and ends with that extension. When the root has a stem, `splitext` reports the new extension. |
| Gui.TabChangeLastWins | gui.py:219-242 | Changing to tab a and then to tab b gives the same path as changing to b directly, when the file name has a stem. |
| Gui.TabChangeWithoutStem | gui.py:226-242 | A path with no stem ("out/") gets ".avif" appended. Splitext then finds no extension there, so a later tab change appends again ("out/.avif.webm"). |
| Gui.CheckStartRule | gui.py:284-293 | A conversion starts iff both fields are set. An empty input folder gives the input error whatever the output is. Only then does an empty output give the output error. |
| Gui.EffectiveWidthRule | gui.py:313-321 | No width is passed iff the slider is disabled or sits at its maximum. Otherwise the slider's value is passed. |
| Gui.CompletionRule | gui.py:332-337 | As corrected (see Findings): every outcome ends in a dialog, and the success dialog is shown iff the pipeline returned True. False shows the generic "Conversion failed" message, and an exception shows its own message. |
| Gui.CompletionAsWrittenRule | gui.py:332-337 | As written: a dialog appears iff the pipeline returned, and a returned result gets the same dialog as in the corrected mapping. After an exception no dialog appears. |
| Gui.ExceptionDialogLost | gui.py:336-337 | On the exception "boom", the code as written shows nothing, while the corrected mapping shows an error dialog reading "boom". |
| Gui.ScanUsesFirstFrame | gui.py:202-217 | The scan gives a width iff the folder is readable and its least `.png` file opens; the width is that file's width. When the pipeline then succeeds without a width, this is the width of the first frame it encodes. |
| Gui.ConverterWindow.constructor | gui.py:9-152 | Fresh window: empty paths, fps 24, quality 85, width 0, status "Ready" (lines 14-20), the width slider disabled over 1..100 (line 100), the convert button enabled and labelled "Convert", and the open button disabled (lines 148-151). |
| Gui.ConverterWindow.OnTabChange | gui.py:219-242 | The handler sets the output path to `TabChanged` of the old path and the selected tab. |
| Gui.ConverterWindow.BrowseOutput | gui.py:244-282 | The dialog gets the tab's file type and default extension. A non-empty choice replaces the output path, and a cancel keeps it. |
| Gui.ConverterWindow.ScanFolderForWidth | gui.py:202-217 | With a scanned width w, the slider is enabled over 1..w and the width is set to w. Otherwise the slider is disabled and its range and value are left alone. |
| Gui.ConverterWindow.BrowseInput | gui.py:196-200 | A chosen folder becomes the input folder and is scanned with the full effect of `ScanFolderForWidth`. With a scanned width w, the slider is enabled over 1..w with value w. Otherwise the slider is disabled and its range and value stay as they were. A cancel changes nothing. |
| Gui.ConverterWindow.StartConversion | gui.py:284-300 | Returns `CheckStart` of the two fields. When the conversion starts, the convert button is disabled and labelled "Converting...", and the status reads "Converting...". A rejected start changes nothing. |
| Gui.ConverterWindow.ConversionSuccess | gui.py:339-343 | Status "Conversion Complete!", both buttons enabled, the convert button labelled "Convert", success dialog. |
| Gui.ConverterWindow.ConversionError | gui.py:345-348 | Status "Error occurred", the convert button enabled and labelled "Convert", error dialog with the message. |
| Gui.ConverterWindow.Finish | gui.py:332-337 | As corrected: the outcome selects the handler. True runs the success handler, False runs the error handler with the generic message, and an exception runs it with its own message. The window always ends with the convert button enabled. |
| Gui.ConverterWindow.FinishAsWritten | gui.py:332-337 | As written: a returned result runs the same handler as `Finish`. After an exception no handler runs and no state changes, so the convert button stays disabled and the status keeps its last text. |
| Gui.ConverterWindow.RunConversion | gui.py:309-337 | Passes `EffectiveWidth` of the slider state, and the run is the pipeline's run with that width and a callback. The success handler follows True and the error handler with the generic message follows False, after which the convert button is enabled and labelled "Convert". |

## Left out

- Pixel data, LANCZOS resampling and AVIF encoding are not modelled. They are foreign library calls, so the model takes three oracles: the decoder returns a size or a failure, the resampler accepts or raises, and the encoder accepts or raises.
- Convert.ResizeRule: the model uses the exact floor of `width*h/w`. The source computes `int(width * (h / w))` in floating point, which can come out one lower when `width*h` is a multiple of `w`. Floating point is not modelled.
- Convert.ResizeFrame: Pillow rejects target sizes below 1. The model builds this in: a negative width, or a height that rounds down to 0, always fails. Both facts come from the library, not from the repository.
- FrameFiles.AsciiLower: `str.lower()` is modelled on ASCII letters only. Full Unicode case mapping is not modelled.
- FrameFiles.Sort: `files.sort()` sorts the list in place. The model computes the sorted list as a value, and the in-place update is not modelled. No alias of the list exists, and the sorted order is unique (`SortedUnique`).
- Console `print` output and `argparse`'s parsing are not modelled. The model keeps only the parsed defaults and the exit status. The pipeline's two listing exceptions differ only in what they print, so `Listing` keeps them apart but they end the same way.
- The `if not images` guard (convert.py:56-57) cannot fire in the method, because every iteration appends a frame or returns. The method still carries the branch, and the reference function keeps it too.
- The progress callback is assumed not to raise.
- tkinter is not modelled: widget construction and layout (`create_widgets`, `create_avif_settings`), the `ToolTip` timers, `messagebox` and `filedialog`. Dialog results are parameters, and dialogs shown are return values.
- The worker thread in `start_conversion` and the `root.after` marshalling in `update_progress` are not modelled. `RunConversion` runs synchronously, and the status text that progress events set before the final handler overwrites it is not tracked.
- `open_output_folder` and `browse_output`'s initial directory are not modelled. They rely on OS calls only: `os.startfile`, `os.path.exists` and `os.path.dirname`.
- Paths.Splitext models the Windows (`ntpath`) version, with both `/` and `\` as separators, because the window uses `os.startfile`, which only Windows has.
- Gui.ConverterWindow.RunConversion: the exception branch of `run_conversion` is modelled by `FinishAsWritten` and `Finish` on a `Raised` outcome, not by `RunConversion` itself. The pipeline model never raises past its own `try`, and reads of the Tk variables are assumed to succeed. Tk's `cget` values are assumed to compare like the ints and strings they hold.
- Gui.EffectiveWidthRule: the window passes no width when the slider sits at the first frame's width. With no width no frame is resized, including later frames wider than the first. The model states this behaviour as the code has it.
- The GUI's tab labels name WebM, HEVC, GIF and APNG, but no such encoder exists in the code. Only the output extension changes.

## Findings

| source | as written | input that shows it | evidently intended | confidence | as-written member | corrected member |
|---|---|---|---|---|---|---|
| gui.py:336-337 | The exception handler schedules `lambda: self.conversion_error(str(e))`. Tk runs the lambda after the `except` block has ended, and Python 3 unbinds `e` at that point, so the lambda raises NameError. No dialog appears, the convert button stays disabled and the status is not reset. | Any exception reaching line 336, for example one raised by `self.fps.get()` | Bind the message before scheduling (`msg = str(e)`), then call `conversion_error(msg)` | not executed; follows from Python's rule that the name bound by `except ... as` is deleted when the block ends | Gui.ExceptionDialogLost (with Gui.CompletionAsWritten, Gui.ConverterWindow.FinishAsWritten) | Gui.CompletionRule (with Gui.Completion, Gui.ConverterWindow.Finish) |
