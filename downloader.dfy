/** The downloader window's application logic: the state its widgets hold and
    the handlers that change it. Widgets are fields; the extraction library
    appears only through the outcomes it delivers. */
module Downloader {
  import opened Wrappers
  import opened Text
  import opened ProgressBar
  import opened ProgressSink

  /** What the status label says (icons and colours are not modelled). */
  datatype Status =
    | Blank
    | EnterUrlFirst
    | FetchingQualities
    | FoundQualities(count: nat)
    | NoQualitiesFound
    | Error(message: string)
    | EnterValidUrl
    | SelectLocation
    | SelectQualityOption
    | NowDownloading(title: string)
    | DownloadDone(title: string)

  /** What the folder label says. */
  datatype FolderLabel = NoFolderSelected | FolderShown(path: string)

  /** One combobox entry: one of the fixed captions, or the entry for a height. */
  datatype ComboEntry = FetchFirstEntry | SelectQualityEntry | NoQualitiesEntry | QualityEntry(height: int)

  /** The text the combobox shows for an entry; a height shows as `f"{quality}p"`. */
  function EntryText(e: ComboEntry): string
  {
    match e
    case FetchFirstEntry => "Click 'Fetch Available Qualities' first"
    case SelectQualityEntry => "Select Quality"
    case NoQualitiesEntry => "No qualities found"
    case QualityEntry(q) => IntToString(q) + "p"
  }

  /** The entries for the heights, in the same order. */
  function QualityEntries(qs: seq<int>): (items: seq<ComboEntry>)
    ensures |items| == |qs|
    ensures forall i :: 0 <= i < |qs| ==> items[i] == QualityEntry(qs[i])
  {
    if qs == [] then [] else QualityEntries(qs[..|qs| - 1]) + [QualityEntry(qs[|qs| - 1])]
  }

  /** The entries the combobox holds after a successful fetch of `qs`. */
  function ComboFor(qs: seq<int>): (items: seq<ComboEntry>)
    ensures qs == [] ==> items == [NoQualitiesEntry]
    ensures qs != [] ==> |items| == |qs| + 1 && items[0] == SelectQualityEntry
    ensures qs != [] ==> forall i :: 1 <= i <= |qs| ==> items[i] == QualityEntry(qs[i - 1])
  {
    if qs == [] then [NoQualitiesEntry] else [SelectQualityEntry] + QualityEntries(qs)
  }

  /** The texts of a non-empty fetch: "Select Quality", then `"<q>p"` per height in order. */
  lemma ComboTexts(qs: seq<int>)
    requires qs != []
    ensures EntryText(ComboFor(qs)[0]) == "Select Quality"
    ensures forall i :: 1 <= i <= |qs| ==> EntryText(ComboFor(qs)[i]) == IntToString(qs[i - 1]) + "p"
  {
  }

  /** Removing every "p" from a quality entry's text gives back the height's digits. */
  lemma QualityEntryText(q: int)
    ensures RemoveAll(EntryText(QualityEntry(q)), 'p') == IntToString(q)
  {
    IntToStringHasNoLetter(q, 'p');
    RemoveAllTrailing(IntToString(q), 'p');
  }

  /** Why a download request is refused before the library is called. */
  datatype Rejection = NoUrl | NoFolder | NoQuality

  function RejectionStatus(r: Rejection): Status
  {
    match r
    case NoUrl => EnterValidUrl
    case NoFolder => SelectLocation
    case NoQuality => SelectQualityOption
  }

  datatype Postprocessor = Postprocessor(key: string, preferredCodec: string)

  /** The option dictionary handed to the library; the progress hook is implicit. */
  datatype Options = Options(
    outtmpl: string,
    format: string,
    postprocessors: seq<Postprocessor>,
    quiet: bool,
    noWarnings: bool)

  /** A request the library is called with: the stripped URL and the options. */
  datatype Request = Request(url: string, options: Options)

  const AudioSelector: string := "bestaudio/best"
  const Mp3Extraction: Postprocessor := Postprocessor("FFmpegExtractAudio", "mp3")

  function OutputTemplate(folder: string): string
  {
    folder + "/%(title)s.%(ext)s"
  }

  function VideoSelector(q: string): string
  {
    "bestvideo[height<=" + q + "]+bestaudio/best[height<=" + q + "]"
  }

  /** `if self.download_folder` */
  predicate HasFolder(folder: Option<string>)
  {
    folder.Some? && folder.value != []
  }

  /** The checks and the option building of `download_video`, before any call
      into the library: URL first, then folder, then quality. */
  function Prepare(urlText: string, folder: Option<string>, audioOnly: bool, index: int, currentText: string)
    : Result<Request, Rejection>
  {
    var url := Strip(urlText);
    if url == [] then Failure(NoUrl)
    else if !HasFolder(folder) then Failure(NoFolder)
    else if !audioOnly && index == 0 then Failure(NoQuality)
    else
      var template := OutputTemplate(folder.value);
      if audioOnly then Success(Request(url, Options(template, AudioSelector, [Mp3Extraction], false, false)))
      else Success(Request(url, Options(template, VideoSelector(RemoveAll(currentText, 'p')), [], false, false)))
  }

  /** Each refusal happens exactly when its check is the first to fail, and an
      accepted request carries the stripped URL, the output template and the
      selector and post-processing of the chosen mode. */
  lemma PrepareOutcome(urlText: string, folder: Option<string>, audioOnly: bool, index: int, currentText: string)
    ensures var r := Prepare(urlText, folder, audioOnly, index, currentText);
      && (r == Failure(NoUrl) <==> Strip(urlText) == [])
      && (r == Failure(NoFolder) <==> Strip(urlText) != [] && !HasFolder(folder))
      && (r == Failure(NoQuality) <==> Strip(urlText) != [] && HasFolder(folder) && !audioOnly && index == 0)
      && (r.Success? ==>
           r.value.url == Strip(urlText) && folder.Some?
           && r.value.options.outtmpl == OutputTemplate(folder.value)
           && !r.value.options.quiet && !r.value.options.noWarnings)
      && (r.Success? && audioOnly ==>
           r.value.options.format == AudioSelector && r.value.options.postprocessors == [Mp3Extraction])
      && (r.Success? && !audioOnly ==>
           r.value.options.format == VideoSelector(RemoveAll(currentText, 'p')) && r.value.options.postprocessors == [])
  {
  }

  /** In video mode, a quality entry asks the library for exactly its height. */
  lemma VideoFormat(urlText: string, folder: Option<string>, i: int, q: int)
    requires Prepare(urlText, folder, false, i, EntryText(QualityEntry(q))).Success?
    ensures Prepare(urlText, folder, false, i, EntryText(QualityEntry(q))).value.options.format
            == VideoSelector(IntToString(q))
  {
    PrepareOutcome(urlText, folder, false, i, EntryText(QualityEntry(q)));
    QualityEntryText(q);
  }

  /** In video mode, picking entry `i > 0` of a fetched list asks the library for
      exactly the height listed there. */
  lemma SelectorForChoice(urlText: string, folder: Option<string>, qs: seq<int>, i: int)
    requires 1 <= i < |ComboFor(qs)|
    requires Prepare(urlText, folder, false, i, EntryText(ComboFor(qs)[i])).Success?
    ensures Prepare(urlText, folder, false, i, EntryText(ComboFor(qs)[i])).value.options.format
            == VideoSelector(IntToString(qs[i - 1]))
  {
    VideoFormat(urlText, folder, i, qs[i - 1]);
  }

  /** What the library does with a request: the metadata probe fails, or it
      yields an optional title, the progress events and how the transfer ends. */
  datatype LibraryRun =
    | ProbeFailed(message: string)
    | Probed(title: Option<string>, events: seq<ProgressEvent>, failure: Option<string>)

  /** `info_dict.get('title', 'Unknown')`. */
  function TitleOf(title: Option<string>): string
  {
    match title
    case Some(t) => t
    case None => "Unknown"
  }

  class DownloaderApp {
    var urlText: string
    var downloadFolder: Option<string>
    var folderLabel: FolderLabel
    var audioOnly: bool
    var qualityLabelDimmed: bool
    var items: seq<ComboEntry>
    var index: int
    var comboEnabled: bool
    var fetchEnabled: bool
    var status: Status
    var sizeLabel: SizeLabel
    const bar: CircularProgressBar
    /** The quality list the combobox entries after the first come from. */
    ghost var offered: seq<int>

    ghost predicate Valid()
      reads this, bar
    {
      bar.Valid() && Consistent()
    }

    /** The combobox and the folder label agree with what they display. */
    ghost predicate Consistent()
      reads this`index, this`items, this`offered, this`downloadFolder, this`folderLabel
    {
      0 <= index < |items|
      && (|items| > 1 ==> items == ComboFor(offered))
      && (downloadFolder.Some? ==> downloadFolder.value != [] && folderLabel == FolderShown(downloadFolder.value))
      && (downloadFolder.None? ==> folderLabel == NoFolderSelected)
    }

    /** The window as it first appears. */
    constructor ()
      ensures Valid() && fresh(bar)
      ensures urlText == [] && downloadFolder == None && folderLabel == NoFolderSelected
      ensures !audioOnly && !qualityLabelDimmed
      ensures items == [FetchFirstEntry] && index == 0 && !comboEnabled
      ensures fetchEnabled && status == Blank && sizeLabel == BlankLabel && bar.value == 0
    {
      urlText := [];
      downloadFolder := None;
      folderLabel := NoFolderSelected;
      audioOnly := false;
      qualityLabelDimmed := false;
      items := [FetchFirstEntry];
      index := 0;
      comboEnabled := false;
      fetchEnabled := true;
      status := Blank;
      sizeLabel := BlankLabel;
      bar := new CircularProgressBar();
      offered := [];
    }

    /** The user edits the URL field. */
    method EditUrl(text: string)
      modifies this`urlText
      ensures urlText == text
    {
      urlText := text;
    }

    /** The user picks a combobox entry; a disabled combobox ignores it. */
    method ChooseQuality(i: int)
      requires Valid()
      modifies this`index
      ensures Valid()
      ensures index == if comboEnabled && 0 <= i < |items| then i else old(index)
    {
      if comboEnabled && 0 <= i < |items| {
        index := i;
      }
    }

    /** The user clicks one of the two type buttons; `on_type_changed` runs when
        the audio-only button's checked state flips. */
    method ChooseType(audio: bool)
      modifies this`audioOnly, this`comboEnabled, this`qualityLabelDimmed
      ensures audioOnly == audio
      ensures audio == old(audioOnly) ==> comboEnabled == old(comboEnabled) && qualityLabelDimmed == old(qualityLabelDimmed)
      ensures audio != old(audioOnly) && audio ==> !comboEnabled && qualityLabelDimmed
      ensures audio != old(audioOnly) && !audio ==>
        comboEnabled == (old(comboEnabled) || |items| > 1) && !qualityLabelDimmed
    {
      if audio != audioOnly {
        audioOnly := audio;
        OnTypeChanged();
      }
    }

    /** `on_type_changed`: audio-only disables the combobox; video mode enables it
        only when it holds more than one entry, and otherwise leaves it alone. */
    method OnTypeChanged()
      modifies this`comboEnabled, this`qualityLabelDimmed
      ensures audioOnly ==> !comboEnabled && qualityLabelDimmed
      ensures !audioOnly ==> comboEnabled == (old(comboEnabled) || |items| > 1) && !qualityLabelDimmed
    {
      if audioOnly {
        comboEnabled := false;
        qualityLabelDimmed := true;
      } else {
        if |items| > 1 {
          comboEnabled := true;
        }
        qualityLabelDimmed := false;
      }
    }

    /** `fetch_qualities`, run by a click on the fetch button: returns the
        stripped URL the worker is started with, or nothing when the URL field
        is blank. A disabled button takes no click, so at most one fetch is
        under way at a time. */
    method FetchQualities() returns (worker: Option<string>)
      modifies this`status, this`fetchEnabled
      ensures !old(fetchEnabled) ==> worker == None && status == old(status) && !fetchEnabled
      ensures old(fetchEnabled) && Strip(urlText) == [] ==> worker == None && status == EnterUrlFirst && fetchEnabled
      ensures old(fetchEnabled) && Strip(urlText) != [] ==>
        worker == Some(Strip(urlText)) && status == FetchingQualities && !fetchEnabled
    {
      if !fetchEnabled {
        worker := None;
        return;
      }
      var url := Strip(urlText);
      if url == [] {
        status := EnterUrlFirst;
        worker := None;
        return;
      }
      status := FetchingQualities;
      fetchEnabled := false;
      worker := Some(url);
    }

    /** `on_qualities_fetched`: refills the combobox from the list and re-enables
        the fetch button. */
    method OnQualitiesFetched(qs: seq<int>)
      requires Valid()
      modifies this`items, this`index, this`comboEnabled, this`status, this`fetchEnabled, this`offered
      ensures Valid()
      ensures fetchEnabled && items == ComboFor(qs) && index == 0
      ensures qs != [] ==> status == FoundQualities(|qs|) && comboEnabled == (old(comboEnabled) || !audioOnly)
      ensures qs == [] ==> status == NoQualitiesFound && comboEnabled == old(comboEnabled)
    {
      fetchEnabled := true;
      items, index := [], -1;
      if qs != [] {
        items, index := [SelectQualityEntry], 0;
        var i := 0;
        while i < |qs|
          invariant 0 <= i <= |qs|
          invariant |items| == i + 1 && items[0] == SelectQualityEntry
          invariant forall k :: 1 <= k <= i ==> items[k] == QualityEntry(qs[k - 1])
          modifies this`items
        {
          items := items + [QualityEntry(qs[i])];
          i := i + 1;
        }
        assert items == ComboFor(qs) by {
          var want := ComboFor(qs);
          assert |items| == |want|;
          forall k | 0 <= k < |items| ensures items[k] == want[k] {
          }
        }
        if !audioOnly {
          comboEnabled := true;
        }
        status := FoundQualities(|qs|);
      } else {
        items, index := [NoQualitiesEntry], 0;
        status := NoQualitiesFound;
      }
      offered := qs;
    }

    /** `on_fetch_error`: reports the message; the combobox keeps what it held. */
    method OnFetchError(message: string)
      modifies this`status, this`fetchEnabled
      ensures fetchEnabled && status == Error(message)
    {
      fetchEnabled := true;
      status := Error(message);
    }

    /** The worker's outcome delivered to the window: exactly one of the two
        handlers runs. */
    method DeliverFetch(outcome: Result<seq<int>, string>)
      requires Valid()
      modifies this`items, this`index, this`comboEnabled, this`status, this`fetchEnabled, this`offered
      ensures Valid() && fetchEnabled
      ensures outcome.Success? ==> items == ComboFor(outcome.value) && index == 0
      ensures outcome.Success? && outcome.value != [] ==>
        status == FoundQualities(|outcome.value|) && comboEnabled == (old(comboEnabled) || !audioOnly)
      ensures outcome.Success? && outcome.value == [] ==> status == NoQualitiesFound && comboEnabled == old(comboEnabled)
      ensures outcome.Failure? ==>
        (status == Error(outcome.error)
         && items == old(items) && index == old(index) && comboEnabled == old(comboEnabled))
    {
      match outcome
      case Success(qs) => OnQualitiesFetched(qs);
      case Failure(message) => OnFetchError(message);
    }

    /** `select_folder` with the dialog's answer given: a non-empty path is kept,
        an empty one (dialog cancelled) clears the folder. */
    method SelectFolder(chosen: string)
      requires Valid()
      modifies this`downloadFolder, this`folderLabel
      ensures Valid()
      ensures chosen != [] ==> downloadFolder == Some(chosen) && folderLabel == FolderShown(chosen)
      ensures chosen == [] ==> downloadFolder == None && folderLabel == NoFolderSelected
    {
      if chosen != [] {
        downloadFolder := Some(chosen);
        folderLabel := FolderShown(chosen);
      } else {
        downloadFolder := None;
        folderLabel := NoFolderSelected;
      }
    }

    /** `show_progress`: one event from the library's progress hook. */
    method ShowProgress(e: ProgressEvent)
      requires Valid()
      modifies this`sizeLabel, bar
      ensures Valid()
      ensures (bar.value, sizeLabel) == Sink(old(bar.value), old(sizeLabel), e)
    {
      match e.status {
        case Downloading =>
          if e.percentStr.Percent? {
            bar.SetValue(e.percentStr.p);
          }
          var downloaded := Downloaded(e);
          var total := Total(e);
          var speed := TruthySpeed(e);
          if total > 0 {
            bar.SetValue(downloaded * 100 / total);
            sizeLabel := Transfer(downloaded, total, speed);
          } else if downloaded > 0 {
            sizeLabel := Received(downloaded, speed);
          }
        case Finished =>
          bar.SetValue(100);
          sizeLabel := Merging;
        case OtherStatus(_) =>
      }
    }

    /** The library's transfer: the progress hook sees every event in order. */
    method FeedEvents(events: seq<ProgressEvent>)
      requires Valid()
      modifies this`sizeLabel, bar
      ensures Valid()
      ensures (bar.value, sizeLabel) == Replay(old(bar.value), old(sizeLabel), events)
    {
      ghost var start := (bar.value, sizeLabel);
      var i := 0;
      while i < |events|
        invariant 0 <= i <= |events|
        invariant Valid()
        invariant (bar.value, sizeLabel) == Replay(start.0, start.1, events[..i])
        modifies this`sizeLabel, bar
      {
        assert events[..i + 1][..i] == events[..i];
        ShowProgress(events[i]);
        i := i + 1;
      }
      assert events[..i] == events;
    }

    /** The `try` block of `download_video` once a request is built: the probe
        gives the title, the transfer feeds the progress hook, and a failure of
        either resets the indicator and reports the message. */
    method CallLibrary(run: LibraryRun)
      requires Valid()
      modifies this`status, this`sizeLabel, bar
      ensures Valid()
      ensures run.ProbeFailed? ==>
        (status == Error(run.message) && bar.value == 0 && sizeLabel == old(sizeLabel))
      ensures run.Probed? ==> sizeLabel == Replay(old(bar.value), old(sizeLabel), run.events).1
      ensures run.Probed? && run.failure.None? ==>
        (status == DownloadDone(TitleOf(run.title)) && bar.value == Replay(old(bar.value), old(sizeLabel), run.events).0)
      ensures run.Probed? && run.failure.Some? ==> (status == Error(run.failure.value) && bar.value == 0)
    {
      match run {
        case ProbeFailed(message) =>
          status := Error(message);
          bar.SetValue(0);
        case Probed(title, events, failure) =>
          var t := TitleOf(title);
          status := NowDownloading(t);
          FeedEvents(events);
          match failure {
            case None =>
              status := DownloadDone(t);
            case Some(message) =>
              status := Error(message);
              bar.SetValue(0);
          }
      }
    }

    /** What `download_video` makes of the window's current inputs. */
    function Pending(): Result<Request, Rejection>
      reads this`urlText, this`downloadFolder, this`audioOnly, this`index, this`items
      requires 0 <= index < |items|
    {
      Prepare(urlText, downloadFolder, audioOnly, index, EntryText(items[index]))
    }

    /** In video mode, a request `download_video` accepts from the window's
        current state asks for exactly the height shown at the chosen entry. */
    lemma PendingSelects()
      requires Valid()
      ensures Pending().Success? && !audioOnly ==>
        1 <= index <= |offered| && Pending().value.options.format == VideoSelector(IntToString(offered[index - 1]))
    {
      if !audioOnly && index != 0 {
        var q := offered[index - 1];
        assert items[index] == QualityEntry(q);
        if Pending().Success? {
          VideoFormat(urlText, downloadFolder, index, q);
        }
      }
    }

    /** The checks of `download_video` on the window's current state. In video
        mode an accepted request asks for exactly the height shown at the
        chosen combobox entry. */
    method CheckRequest() returns (r: Result<Request, Rejection>)
      requires Valid()
      ensures r == Pending()
      ensures r.Success? && !audioOnly ==>
        1 <= index <= |offered| && r.value.options.format == VideoSelector(IntToString(offered[index - 1]))
    {
      r := Pending();
      PendingSelects();
    }

    /** `download_video` with the library's behaviour given as `run`. It returns the
        request the library is called with, or nothing when a check refuses it
        (and then the library is not called). The returned request is `Pending()`
        of the state it started from, so `PendingSelects` (or a prior call of
        `CheckRequest`, which returns the same value) gives that in video mode
        its selector names the height at the chosen entry. */
    method DownloadVideo(run: LibraryRun) returns (outcome: Result<Request, Rejection>)
      requires Valid()
      modifies this`status, this`sizeLabel, bar
      ensures Valid()
      ensures outcome == Pending()
      ensures outcome.Failure? ==>
        (status == RejectionStatus(outcome.error) && bar.value == 0 && sizeLabel == BlankLabel)
      ensures outcome.Success? && run.ProbeFailed? ==>
        (status == Error(run.message) && bar.value == 0 && sizeLabel == BlankLabel)
      ensures outcome.Success? && run.Probed? ==> sizeLabel == Replay(0, BlankLabel, run.events).1
      ensures outcome.Success? && run.Probed? && run.failure.None? ==>
        (status == DownloadDone(TitleOf(run.title)) && bar.value == Replay(0, BlankLabel, run.events).0)
      ensures outcome.Success? && run.Probed? && run.failure.Some? ==>
        (status == Error(run.failure.value) && bar.value == 0)
    {
      status := Blank;
      sizeLabel := BlankLabel;
      bar.SetValue(0);
      outcome := Pending();
      if outcome.Failure? {
        status := RejectionStatus(outcome.error);
        return;
      }
      CallLibrary(run);
    }
  }
}
