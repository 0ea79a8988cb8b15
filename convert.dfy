/**
 * The frame-sequence converter of convert.py: `convert_images_to_avif` and the
 * defaults and exit status of its command line.
 *
 * What the pipeline cannot see is passed in: the directory listing, the
 * decoder (`Image.open`, giving a frame's size or a failure), the resampler
 * (whether `img.resize` raised for a given target size) and the AVIF encoder
 * (whether `save` raised for the arguments it was handed). Pixels are not
 * modelled, only sizes.
 */
module Convert {
  import opened Wrappers
  import opened FrameFiles

  /** What `os.listdir(input_folder)` did. */
  datatype Listing =
    | NotFound            // FileNotFoundError
    | Unreadable          // any other exception while listing
    | Entries(names: seq<string>)

  /** The size of a decoded or resized frame. */
  datatype Dims = Dims(width: nat, height: nat)

  /** One call of `progress_callback(current, total, message)`. */
  datatype Progress = Progress(current: int, total: int, message: string)

  /** The arguments of the one `first_image.save(...)` call. */
  datatype SaveCall = SaveCall(
    path: string,
    format: string,
    saveAll: bool,
    first: Dims,
    rest: seq<Dims>,
    duration: int,
    loop: int,
    quality: int,
    optimize: bool)

  /**
   * A whole conversion as its environment observes it: the returned bool,
   * the progress callback's calls, the files handed to `Image.open` in order,
   * and the encoder call if one was made.
   */
  datatype Run = Run(ok: bool, events: seq<Progress>, openCalls: seq<string>, save: Option<SaveCall>)

  // ---------------------------------------------------------------------
  // Progress messages
  // ---------------------------------------------------------------------

  function Digit(d: nat): char
    requires d < 10
  {
    "0123456789"[d]
  }

  /** Python's `str(n)` for a non-negative int. */
  function Decimal(n: nat): string
  {
    if n < 10 then [Digit(n)] else Decimal(n / 10) + [Digit(n % 10)]
  }

  function LoadingEvent(i: nat, total: nat): Progress {
    Progress(i, total, "Loading image " + Decimal(i + 1) + "/" + Decimal(total) + "...")
  }

  function EncodingEvent(total: nat): Progress {
    Progress(total, total, "Encoding AVIF (this may take a while)...")
  }

  /** The loading events of the first `k` loop iterations, oldest first. */
  function LoadingEvents(k: nat, total: nat): seq<Progress> {
    if k == 0 then [] else LoadingEvents(k - 1, total) + [LoadingEvent(k - 1, total)]
  }

  /** With no callback (`progress_callback=None`) nothing is reported. */
  function Emitted(callback: bool, events: seq<Progress>): seq<Progress> {
    if callback then events else []
  }

  lemma {:induction false} LoadingEventsAt(k: nat, total: nat)
    ensures |LoadingEvents(k, total)| == k
    ensures forall i :: 0 <= i < k ==> LoadingEvents(k, total)[i] == LoadingEvent(i, total)
  {
    if k > 0 { LoadingEventsAt(k - 1, total); }
  }

  // ---------------------------------------------------------------------
  // The per-frame resize rule and the frame interval
  // ---------------------------------------------------------------------

  /** `if width and width < img.width`: a width of None or 0 never resizes. */
  predicate ResizeApplies(width: Option<int>, d: Dims) {
    width.Some? && width.value != 0 && width.value < d.width
  }

  /**
   * The frame that is appended for a decoded frame of size `d`, or None when
   * the resize step raised. The new height is `int(width * (h / w))`; this
   * model takes the exact quotient `width * h / w`, rounded down, where
   * Python's float can come out one lower when that product is a multiple of
   * `w`. A negative width raises: either `h / w` divides by zero (w = 0) or
   * Pillow refuses the negative size, as it refuses a height below 1.
   */
  function ResizeFrame(d: Dims, width: Option<int>, resizeOk: (Dims, Dims) -> bool): (r: Option<Dims>)
  {
    if ResizeApplies(width, d) then
      if width.value < 0 then None
      else
        var target := Dims(width.value, width.value * d.height / d.width);
        if target.height >= 1 && resizeOk(d, target) then Some(target) else None
    else Some(d)
  }

  /**
   * The resize rule. A frame is resized only when the width is set, non-zero
   * and below the frame's width; then it gets exactly that width and the
   * height that keeps the aspect ratio, rounded down, so it never grows.
   * Otherwise it is kept as decoded.
   */
  lemma ResizeRule(d: Dims, width: Option<int>, resizeOk: (Dims, Dims) -> bool)
    ensures !ResizeApplies(width, d) ==> ResizeFrame(d, width, resizeOk) == Some(d)
    ensures ResizeApplies(width, d) && ResizeFrame(d, width, resizeOk).Some? ==>
      var r := ResizeFrame(d, width, resizeOk).value;
      && r.width == width.value
      && r.height * d.width <= width.value * d.height < (r.height + 1) * d.width
      && r.width < d.width && 1 <= r.height <= d.height
    ensures ResizeApplies(width, d) ==>
      (ResizeFrame(d, width, resizeOk).Some? <==>
         width.value > 0 && width.value * d.height >= d.width
         && resizeOk(d, Dims(width.value, width.value * d.height / d.width)))
  {
    if ResizeApplies(width, d) && width.value > 0 {
      HeightShrinks(width.value, d.width, d.height);
      DivAtLeastOne(width.value * d.height, d.width);
    }
  }

  lemma DivAtLeastOne(x: nat, y: nat)
    requires y > 0
    ensures x / y >= 1 <==> x >= y
  {}

  lemma HeightShrinks(w: nat, w0: nat, h: nat)
    requires w < w0
    ensures (w * h / w0) * w0 <= w * h < (w * h / w0 + 1) * w0
    ensures w * h / w0 <= h
  {
    assert w * h <= w0 * h by { MulLeq(w, w0, h); }
    DivBelow(w * h, w0, h);
  }

  lemma MulLeq(a: nat, b: nat, c: nat)
    requires a <= b
    ensures a * c <= b * c
  {}

  lemma DivBelow(x: nat, y: nat, h: nat)
    requires y > 0 && x <= y * h
    ensures (x / y) * y <= x < (x / y + 1) * y
    ensures x / y <= h
  {
    assert (x / y) * y <= h * y;
    MulCancel(x / y, h, y);
  }

  lemma MulCancel(a: nat, b: nat, c: nat)
    requires c > 0 && a * c <= b * c
    ensures a <= b
  {}

  /** `int(1000 / fps)`, or None for fps = 0 (ZeroDivisionError). `int` truncates toward zero. */
  function FrameInterval(fps: int): (r: Option<int>)
    ensures r.None? <==> fps == 0
    ensures fps >= 1 ==> r.Some? && r.value * fps <= 1000 < (r.value + 1) * fps
    ensures fps <= -1 ==> r.Some? && r.value * -fps >= -1000 > (r.value - 1) * -fps
  {
    if fps == 0 then None
    else if fps > 0 then Some(1000 / fps)
    else Some(-(1000 / -fps))
  }

  // ---------------------------------------------------------------------
  // Loading the whole sequence
  // ---------------------------------------------------------------------

  /** Lines 45-52: open one file and apply the resize rule; None if either raised. */
  function LoadFile(name: string, open: string -> Option<Dims>, width: Option<int>,
                    resizeOk: (Dims, Dims) -> bool): Option<Dims>
  {
    match open(name)
    case None => None
    case Some(d) => ResizeFrame(d, width, resizeOk)
  }

  datatype Loaded = Frames(frames: seq<Dims>) | FailedAt(index: nat)

  /**
   * The loading loop on its own: every frame in file order, or the
   * position of the first file that could not be opened or resized.
   */
  function LoadFrames(files: seq<string>, open: string -> Option<Dims>, width: Option<int>,
                      resizeOk: (Dims, Dims) -> bool): (r: Loaded)
    ensures r.Frames? ==> |r.frames| == |files|
    ensures r.Frames? ==>
      forall i :: 0 <= i < |files| ==> LoadFile(files[i], open, width, resizeOk) == Some(r.frames[i])
    ensures r.FailedAt? ==> r.index < |files| && LoadFile(files[r.index], open, width, resizeOk).None?
    ensures r.FailedAt? ==>
      forall i :: 0 <= i < r.index ==> LoadFile(files[i], open, width, resizeOk).Some?
  {
    if files == [] then Frames([])
    else match LoadFile(files[0], open, width, resizeOk)
      case None => FailedAt(0)
      case Some(f) =>
        match LoadFrames(files[1..], open, width, resizeOk)
        case Frames(fs) => Frames([f] + fs)
        case FailedAt(k) => FailedAt(k + 1)
  }

  /** The characterisation above pins the outcome down: a complete load. */
  lemma LoadFramesAllLoaded(files: seq<string>, frames: seq<Dims>, open: string -> Option<Dims>,
                            width: Option<int>, resizeOk: (Dims, Dims) -> bool)
    requires |frames| == |files|
    requires forall j :: 0 <= j < |files| ==> LoadFile(files[j], open, width, resizeOk) == Some(frames[j])
    ensures LoadFrames(files, open, width, resizeOk) == Frames(frames)
  {
    var r := LoadFrames(files, open, width, resizeOk);
    if r.Frames? {
      assert r.frames == frames;
    }
  }

  /** ... or a load that stops at the first file that fails. */
  lemma LoadFramesFailsAt(files: seq<string>, i: nat, open: string -> Option<Dims>,
                          width: Option<int>, resizeOk: (Dims, Dims) -> bool)
    requires i < |files| && LoadFile(files[i], open, width, resizeOk).None?
    requires forall j :: 0 <= j < i ==> LoadFile(files[j], open, width, resizeOk).Some?
    ensures LoadFrames(files, open, width, resizeOk) == FailedAt(i)
  {
  }

  // ---------------------------------------------------------------------
  // The whole conversion
  // ---------------------------------------------------------------------

  function AvifSave(outputFile: string, frames: seq<Dims>, duration: int, quality: int): SaveCall
    requires frames != []
  {
    SaveCall(outputFile, "AVIF", true, frames[0], frames[1..], duration, 0, quality, true)
  }

  /**
   * What one call of `convert_images_to_avif` returns, reports and hands to
   * the encoder, as a function of what the environment does.
   */
  function ExpectedRun(listing: Listing, outputFile: string, fps: int, quality: int,
                       width: Option<int>, callback: bool,
                       open: string -> Option<Dims>, resizeOk: (Dims, Dims) -> bool,
                       saveOk: SaveCall -> bool): Run
  {
    match listing
    case NotFound => Run(false, [], [], None)
    case Unreadable => Run(false, [], [], None)
    case Entries(names) =>
      var files := SelectFiles(names);
      if files == [] then Run(false, [], [], None)
      else LoadedRun(LoadFrames(files, open, width, resizeOk), files, outputFile, fps, quality,
                     callback, saveOk)
  }

  /** The rest of the run once `files` were selected and the loading loop ended with `loaded`. */
  function LoadedRun(loaded: Loaded, files: seq<string>, outputFile: string, fps: int, quality: int,
                     callback: bool, saveOk: SaveCall -> bool): Run
    requires loaded.FailedAt? ==> loaded.index < |files|
  {
    var total := |files|;
    match loaded
    case FailedAt(k) =>
      Run(false, Emitted(callback, LoadingEvents(k + 1, total)), files[..k + 1], None)
    case Frames(frames) =>
      if frames == [] then Run(false, Emitted(callback, LoadingEvents(total, total)), files, None)
      else match FrameInterval(fps)
        case None => Run(false, Emitted(callback, LoadingEvents(total, total)), files, None)
        case Some(duration) =>
          var call := AvifSave(outputFile, frames, duration, quality);
          Run(saveOk(call), Emitted(callback, LoadingEvents(total, total) + [EncodingEvent(total)]),
              files, Some(call))
  }

  /**
   * Lines 41-54, the loading loop: a progress event before each file, then
   * open and resize it; the first failure ends the loop (the exception
   * leaves the `try` block). `events` are the callback's calls in order.
   */
  method LoadImages(files: seq<string>, callback: bool, open: string -> Option<Dims>,
                    width: Option<int>, resizeOk: (Dims, Dims) -> bool)
    returns (loaded: Loaded, events: seq<Progress>, openCalls: seq<string>)
    ensures loaded == LoadFrames(files, open, width, resizeOk)
    ensures loaded.FailedAt? ==> events == Emitted(callback, LoadingEvents(loaded.index + 1, |files|))
    ensures loaded.FailedAt? ==> openCalls == files[..loaded.index + 1]
    ensures loaded.Frames? ==> events == Emitted(callback, LoadingEvents(|files|, |files|))
    ensures loaded.Frames? ==> openCalls == files
  {
    var total := |files|;
    var images: seq<Dims> := [];
    events, openCalls := [], [];
    var i := 0;
    while i < total
      invariant 0 <= i <= total
      invariant |images| == i
      invariant forall j :: 0 <= j < i ==> LoadFile(files[j], open, width, resizeOk) == Some(images[j])
      invariant events == Emitted(callback, LoadingEvents(i, total))
      invariant openCalls == files[..i]
    {
      if callback {
        events := events + [LoadingEvent(i, total)];
      }
      assert events == Emitted(callback, LoadingEvents(i + 1, total));
      var img := open(files[i]);
      openCalls := openCalls + [files[i]];
      assert openCalls == files[..i + 1];
      if img.None? {
        LoadFramesFailsAt(files, i, open, width, resizeOk);
        return FailedAt(i), events, openCalls;
      }
      var frame := ResizeFrame(img.value, width, resizeOk);
      if frame.None? {
        LoadFramesFailsAt(files, i, open, width, resizeOk);
        return FailedAt(i), events, openCalls;
      }
      images := images + [frame.value];
      i := i + 1;
    }
    LoadFramesAllLoaded(files, images, open, width, resizeOk);
    loaded := Frames(images);
    assert files[..total] == files;
  }

  /**
   * `convert_images_to_avif(input_folder, output_file, fps, quality, width,
   * progress_callback)`. `events` are the callback's calls in order, `save`
   * the encoder call if one was made; `ok` is the returned bool.
   */
  method ConvertImagesToAvif(listing: Listing, outputFile: string, fps: int, quality: int,
                             width: Option<int>, callback: bool,
                             open: string -> Option<Dims>, resizeOk: (Dims, Dims) -> bool,
                             saveOk: SaveCall -> bool)
    returns (ok: bool, events: seq<Progress>, openCalls: seq<string>, save: Option<SaveCall>)
    ensures Run(ok, events, openCalls, save)
         == ExpectedRun(listing, outputFile, fps, quality, width, callback, open, resizeOk, saveOk)
  {
    ok, events, openCalls, save := false, [], [], None;
    if !listing.Entries? {
      return;
    }
    var files := SelectFiles(listing.names);
    if files == [] {
      return;
    }
    var total := |files|;
    var loaded;
    loaded, events, openCalls := LoadImages(files, callback, open, width, resizeOk);
    assert ExpectedRun(listing, outputFile, fps, quality, width, callback, open, resizeOk, saveOk)
        == LoadedRun(loaded, files, outputFile, fps, quality, callback, saveOk);
    if loaded.FailedAt? {
      return;
    }
    var images := loaded.frames;
    if images == [] {
      return;
    }
    var duration := FrameInterval(fps);
    if duration.None? {
      return;
    }
    if callback {
      events := events + [EncodingEvent(total)];
    }
    var call := AvifSave(outputFile, images, duration.value, quality);
    save := Some(call);
    ok := saveOk(call);
  }

  // ---------------------------------------------------------------------
  // What a run promises
  // ---------------------------------------------------------------------

  /** A load fails exactly when some selected file cannot be opened or resized. */
  lemma LoadFramesSucceedsIff(files: seq<string>, open: string -> Option<Dims>, width: Option<int>,
                              resizeOk: (Dims, Dims) -> bool)
    ensures LoadFrames(files, open, width, resizeOk).Frames?
        <==> forall i :: 0 <= i < |files| ==> LoadFile(files[i], open, width, resizeOk).Some?
  {
    var r := LoadFrames(files, open, width, resizeOk);
    if r.FailedAt? {
      assert LoadFile(files[r.index], open, width, resizeOk).None?;
    }
  }

  /** A missing or unreadable folder, or one without ".png" files, fails before anything happens. */
  lemma EarlyFailures(listing: Listing, outputFile: string, fps: int, quality: int,
                      width: Option<int>, callback: bool, open: string -> Option<Dims>,
                      resizeOk: (Dims, Dims) -> bool, saveOk: SaveCall -> bool)
    requires !listing.Entries? || SelectFiles(listing.names) == []
    ensures ExpectedRun(listing, outputFile, fps, quality, width, callback, open, resizeOk, saveOk)
         == Run(false, [], [], None)
  {}

  /**
   * Files are opened one by one in sorted order; the first one that cannot
   * be opened or resized is the last one touched, and nothing is encoded.
   */
  lemma FrameFailureAborts(names: seq<string>, outputFile: string, fps: int, quality: int,
                           width: Option<int>, callback: bool, open: string -> Option<Dims>,
                           resizeOk: (Dims, Dims) -> bool, saveOk: SaveCall -> bool, i: nat)
    requires i < |SelectFiles(names)| && LoadFile(SelectFiles(names)[i], open, width, resizeOk).None?
    ensures var r := ExpectedRun(Entries(names), outputFile, fps, quality, width, callback, open, resizeOk, saveOk);
      && !r.ok && r.save == None
      && 1 <= |r.openCalls| <= i + 1
      && r.openCalls == SelectFiles(names)[..|r.openCalls|]
  {
    LoadFramesSucceedsIff(SelectFiles(names), open, width, resizeOk);
  }

  /** fps = 0 raises ZeroDivisionError after every frame was loaded; the result is False. */
  lemma ZeroFpsFailsAfterLoading(names: seq<string>, outputFile: string, quality: int,
                                 width: Option<int>, callback: bool, open: string -> Option<Dims>,
                                 resizeOk: (Dims, Dims) -> bool, saveOk: SaveCall -> bool)
    requires SelectFiles(names) != []
    requires forall i :: 0 <= i < |SelectFiles(names)| ==> LoadFile(SelectFiles(names)[i], open, width, resizeOk).Some?
    ensures var r := ExpectedRun(Entries(names), outputFile, 0, quality, width, callback, open, resizeOk, saveOk);
      && !r.ok && r.save == None
      && r.openCalls == SelectFiles(names)
      && r.events == Emitted(callback, LoadingEvents(|SelectFiles(names)|, |SelectFiles(names)|))
  {
    LoadFramesSucceedsIff(SelectFiles(names), open, width, resizeOk);
  }

  /**
   * A conversion that returns True used a listing with n > 0 ".png" files,
   * opened all of them in sorted order, and handed the encoder the first
   * frame plus the n - 1 others in that order, an infinite loop, one
   * duration of `int(1000 / fps)` milliseconds for every frame, and the
   * quality unchanged.
   */
  lemma SuccessfulRun(listing: Listing, outputFile: string, fps: int, quality: int,
                      width: Option<int>, callback: bool, open: string -> Option<Dims>,
                      resizeOk: (Dims, Dims) -> bool, saveOk: SaveCall -> bool)
    requires ExpectedRun(listing, outputFile, fps, quality, width, callback, open, resizeOk, saveOk).ok
    ensures listing.Entries? && SelectFiles(listing.names) != [] && fps != 0
    ensures var r := ExpectedRun(listing, outputFile, fps, quality, width, callback, open, resizeOk, saveOk);
      var files := SelectFiles(listing.names);
      && r.openCalls == files
      && r.save.Some? && saveOk(r.save.value)
      && var call := r.save.value;
      && call.path == outputFile && call.format == "AVIF" && call.saveAll && call.optimize
      && call.loop == 0 && call.quality == quality
      && Some(call.duration) == FrameInterval(fps)
      && (fps >= 1 ==> call.duration == 1000 / fps)
      && |call.rest| + 1 == |files|
      && LoadFile(files[0], open, width, resizeOk) == Some(call.first)
      && forall i :: 0 <= i < |call.rest| ==> LoadFile(files[i + 1], open, width, resizeOk) == Some(call.rest[i])
  {
    var files := SelectFiles(listing.names);
    var loaded := LoadFrames(files, open, width, resizeOk);
    var frames := loaded.frames;
    forall i | 0 <= i < |frames| - 1
      ensures LoadFile(files[i + 1], open, width, resizeOk) == Some(frames[1..][i])
    {
    }
  }

  /** The success value is True exactly when every step went through and the encoder did not raise. */
  lemma SucceedsIff(listing: Listing, outputFile: string, fps: int, quality: int,
                    width: Option<int>, callback: bool, open: string -> Option<Dims>,
                    resizeOk: (Dims, Dims) -> bool, saveOk: SaveCall -> bool)
    ensures var r := ExpectedRun(listing, outputFile, fps, quality, width, callback, open, resizeOk, saveOk);
      r.ok <==>
        && listing.Entries?
        && SelectFiles(listing.names) != []
        && (forall i :: 0 <= i < |SelectFiles(listing.names)| ==>
              LoadFile(SelectFiles(listing.names)[i], open, width, resizeOk).Some?)
        && fps != 0
        && r.save.Some? && saveOk(r.save.value)
  {
    if listing.Entries? {
      LoadFramesSucceedsIff(SelectFiles(listing.names), open, width, resizeOk);
    }
  }

  /** Reported progress only moves forward, and every event has the same total. */
  predicate Ascending(events: seq<Progress>, total: int) {
    && (forall i, j :: 0 <= i < j < |events| ==> events[i].current < events[j].current)
    && (forall i :: 0 <= i < |events| ==> 0 <= events[i].current <= events[i].total == total)
  }

  lemma LoadingEventsAscend(k: nat, total: nat)
    requires k <= total
    ensures Ascending(LoadingEvents(k, total), total)
    ensures Ascending(LoadingEvents(k, total) + [EncodingEvent(total)], total)
  {
    LoadingEventsAt(k, total);
    var events := LoadingEvents(k, total) + [EncodingEvent(total)];
    assert forall i :: 0 <= i < k ==> events[i] == LoadingEvent(i, total);
  }

  /**
   * The progress protocol of a run that reaches the encoder: "Loading image
   * i/n..." for i = 1..n with current = i - 1, then one encoding event with
   * current = total = n.
   */
  lemma ProgressProtocol(listing: Listing, outputFile: string, fps: int, quality: int,
                         width: Option<int>, open: string -> Option<Dims>,
                         resizeOk: (Dims, Dims) -> bool, saveOk: SaveCall -> bool)
    requires ExpectedRun(listing, outputFile, fps, quality, width, true, open, resizeOk, saveOk).save.Some?
    ensures listing.Entries?
    ensures var events := ExpectedRun(listing, outputFile, fps, quality, width, true, open, resizeOk, saveOk).events;
      var n := |SelectFiles(listing.names)|;
      && |events| == n + 1
      && (forall i :: 0 <= i < n ==> events[i] == LoadingEvent(i, n))
      && events[n] == EncodingEvent(n)
      && Ascending(events, n)
  {
    var files := SelectFiles(listing.names);
    var n := |files|;
    var r := ExpectedRun(listing, outputFile, fps, quality, width, true, open, resizeOk, saveOk);
    assert r == LoadedRun(LoadFrames(files, open, width, resizeOk), files, outputFile, fps, quality, true, saveOk);
    assert r.events == LoadingEvents(n, n) + [EncodingEvent(n)];
    LoadingEventsAt(n, n);
    LoadingEventsAscend(n, n);
  }

  /**
   * Whatever happens, the events that were emitted move forward and carry
   * the number of selected files as total; without a callback there are none.
   */
  lemma ProgressAscends(listing: Listing, outputFile: string, fps: int, quality: int,
                        width: Option<int>, callback: bool, open: string -> Option<Dims>,
                        resizeOk: (Dims, Dims) -> bool, saveOk: SaveCall -> bool)
    ensures var r := ExpectedRun(listing, outputFile, fps, quality, width, callback, open, resizeOk, saveOk);
      && (!callback ==> r.events == [])
      && (listing.Entries? ==> Ascending(r.events, |SelectFiles(listing.names)|))
      && (!listing.Entries? ==> r.events == [])
  {
    if listing.Entries? && SelectFiles(listing.names) != [] {
      var n := |SelectFiles(listing.names)|;
      LoadingEventsAscend(n, n);
      var loaded := LoadFrames(SelectFiles(listing.names), open, width, resizeOk);
      if loaded.FailedAt? {
        LoadingEventsAscend(loaded.index + 1, n);
      }
    }
  }

  // ---------------------------------------------------------------------
  // The command line (lines 90-102)
  // ---------------------------------------------------------------------

  /** The parsed arguments; an option left off the command line is None. */
  datatype CliArgs = CliArgs(inputFolder: string, outputFile: string,
                             fps: Option<int>, quality: Option<int>, width: Option<int>)

  /** The conversion `main` asks for: fps 24 and quality 85 unless given, width as given, no callback. */
  function CliRun(args: CliArgs, listing: Listing, open: string -> Option<Dims>,
                  resizeOk: (Dims, Dims) -> bool, saveOk: SaveCall -> bool): Run
  {
    ExpectedRun(listing, args.outputFile, args.fps.GetOr(24), args.quality.GetOr(85), args.width,
                false, open, resizeOk, saveOk)
  }

  /**
   * `main`: run the conversion on the folder's `listing`; the process exits
   * with status 1 exactly when it returned False, and 0 otherwise.
   */
  method RunCli(args: CliArgs, listing: Listing, open: string -> Option<Dims>,
                resizeOk: (Dims, Dims) -> bool, saveOk: SaveCall -> bool)
    returns (exitCode: int, save: Option<SaveCall>)
    ensures exitCode == (if CliRun(args, listing, open, resizeOk, saveOk).ok then 0 else 1)
    ensures save == CliRun(args, listing, open, resizeOk, saveOk).save
  {
    var success, _, _, saved := ConvertImagesToAvif(listing, args.outputFile, args.fps.GetOr(24),
                                                    args.quality.GetOr(85), args.width, false,
                                                    open, resizeOk, saveOk);
    save := saved;
    exitCode := 0;
    if !success {
      exitCode := 1;
    }
  }

  /** Omitted options take the defaults fps = 24, quality = 85 and no resizing, and nothing is reported. */
  lemma CliDefaults(args: CliArgs, listing: Listing, open: string -> Option<Dims>,
                    resizeOk: (Dims, Dims) -> bool, saveOk: SaveCall -> bool)
    requires args.fps == None && args.quality == None && args.width == None
    ensures CliRun(args, listing, open, resizeOk, saveOk)
         == ExpectedRun(listing, args.outputFile, 24, 85, None, false, open, resizeOk, saveOk)
    ensures CliRun(args, listing, open, resizeOk, saveOk).events == []
    ensures forall d :: ResizeFrame(d, args.width, resizeOk) == Some(d)
  {}
}
