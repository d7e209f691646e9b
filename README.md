# GrabYt downloader window: a Dafny model

GrabYt is a single PyQt window in front of the `yt_dlp` extraction library. The
user pastes a video URL and can ask a background worker which video heights are
on offer. They then choose "Video + Audio" (with a height from a combobox) or
"Audio Only", pick a target folder, and start the download. While the library
transfers the file, its progress hook drives a circular indicator and a size
label.

This project models the application logic under the widgets: the state the
window keeps and the handlers that change it.

- `wrappers.dfy` (`Wrappers`) holds the `Option` and `Result` types.
- `text.dfy` (`Text`) holds the string operations the program relies on:
  - `f"{n}"` for integers;
  - `str.strip()`, with Python's whitespace set;
  - `str.replace(c, "")` for one character.
- `progress_bar.dfy` (`ProgressBar`) is the indicator's stored value. It is a
  class whose `SetValue` clamps to 0..100. It also holds the caption choice of
  the paint routine.
- `qualities.dfy` (`Qualities`) is the worker's `run`. It stores every present,
  non-zero height in a set with a loop, then sorts the set descending. Both
  loops are methods proved against specification functions.
- `sizes.dfy` (`Sizes`) is `format_size`. The unit follows from the
  thresholds. The two decimals of `:.2f` are round-half-even of the exact
  quotient `size / 1024**k`. This is exact because that quotient is an exact
  double for every size below 2^53.
- `progress_sink.dfy` (`ProgressSink`) is `show_progress` as a function from
  (value, label, event) to the new (value, label), together with the fold of it
  over a whole transfer.
- `downloader.dfy` (`Downloader`) is the window: a class `DownloaderApp` with
  these fields:
  - URL text, download folder and folder label;
  - the audio-only flag;
  - combobox entries, current index and enabled flag;
  - the fetch button's enabled flag;
  - the status and size labels;
  - the progress indicator.

  Its methods are the handlers `on_type_changed`, `fetch_qualities`,
  `on_qualities_fetched`, `on_fetch_error`, `select_folder`, `download_video`
  and `show_progress`. `download_video` is specified through `Prepare`, a pure
  function for its checks and option building. A ghost field remembers the
  quality list the combobox was filled from. That lets the model prove that
  the selector sent to the library names exactly the height at the chosen
  entry.

The outside world comes in as parameters:
- the URL the user types and the entry or radio button they pick;
- the folder dialog's answer;
- the probe result the worker delivers;
- a `LibraryRun`, which says whether the metadata probe fails or yields an
  optional title, the progress events, and whether the transfer fails.

One precedence in `show_progress` is worth stating. The comment at
grab_yt.py:479 says the handler tries the reported percentage first, and a
parseable `_percent_str` is indeed stored first. But whenever the total is
positive, the byte ratio is assigned afterwards in the same call
(grab_yt.py:494-496) and overrides it. The model follows that order, and
`ProgressSink.PercentOverridden` proves that with a positive total
`_percent_str` has no effect.

## Model

| member | source | states |
|---|---|---|
| ProgressBar.Clamp | grab_yt.py:18 | The result lies in 0..100. It is the input when the input is already in range, 0 below the range and 100 above it. |
| ProgressBar.ClampIdempotent | grab_yt.py:17-18 | Setting a value twice stores the same as setting it once. |
| ProgressBar.CaptionText | grab_yt.py:56-67 | No contract of its own: the texts "Downloading..." (line 61) and "Complete!" (line 67), and nothing for no caption. `CaptionFor` and `CircularProgressBar.Caption` state when each is drawn. |
| ProgressBar.CaptionFor | grab_yt.py:56-67 | "Downloading..." iff 0 < value < 100; "Complete!" iff value is 100; no caption otherwise. |
| ProgressBar.CircularProgressBar.constructor | grab_yt.py:12-14 | A new indicator holds 0. |
| ProgressBar.CircularProgressBar.SetValue | grab_yt.py:17-19 | The stored value becomes `max(0, min(100, v))` and stays in 0..100. |
| ProgressBar.CircularProgressBar.Caption | grab_yt.py:56-67 | For a stored value: no caption iff it is 0, "Downloading..." iff 1..99, "Complete!" iff 100. |
| Qualities.HeightSetMembers | grab_yt.py:91-94 | A height is collected iff some descriptor carries it and it is non-zero. |
| Qualities.SortedDesc | grab_yt.py:96 | The arrangement is strictly descending, has exactly the set's members and has the set's size. |
| Qualities.DescendingUnique | grab_yt.py:96 | Two strictly descending sequences with the same members are equal, so the descending order of a set is unique. |
| Qualities.FormatsOf | grab_yt.py:88 | No contract of its own: `info_dict.get('formats', [])`, the list when present and empty otherwise. `Run` states that the quality list is taken of it. |
| Qualities.HasHeight | grab_yt.py:93 | No contract of its own: the filter `'height' in f and f['height']`, a present, non-zero height. `HeightSetMembers` and `QualityListCharacterised` state that exactly such heights are listed. |
| Qualities.CollectHeights | grab_yt.py:91-94 | The loop's set is exactly the set of truthy heights of the descriptors. |
| Qualities.SortDescending | grab_yt.py:96 | The loop's output is the unique strictly descending arrangement of the set. |
| Qualities.QualityList | grab_yt.py:88-96 | No contract of its own: the sorted set of collected heights. `QualityListCharacterised` states what it holds and that it is strictly descending. |
| Qualities.Run | grab_yt.py:79-99 | An exception gives `Failure` with its message. Otherwise the result is `Success` of the descending distinct truthy heights, with a missing `formats` read as empty. |
| Qualities.QualityListCharacterised | grab_yt.py:88-96 | The reported list is strictly descending, hence duplicate-free. It holds h iff some descriptor has height h and h is non-zero. |
| Qualities.ExampleQualities | grab_yt.py:88-96 | Heights 720, 1080, 720, 480 and a missing one give [1080, 720, 480]. |
| Qualities.ZeroHeightDropped | grab_yt.py:93 | 0 never appears in the list. |
| Text.NatToString | grab_yt.py:387 | Python's decimal text of a natural number: non-empty, all digits, and no leading zero unless the number is 0. |
| Text.ParseNatToString | grab_yt.py:387 | Reading the digits back gives the number (round trip). |
| Text.IntToString | grab_yt.py:387 | A negative number prints as "-" and then digits; any other prints as digits only. |
| Text.IsSpace | grab_yt.py:420 | No contract of its own: the characters for which Python's `str.isspace` holds, which `strip()` removes at lines 359 and 420. `LeadingSpaces`, `TrailingSpaces` and `StripShape` state the stripping in terms of it. |
| Text.LeadingSpaces | grab_yt.py:420 | The counted prefix is all whitespace, and the character after it is not whitespace. |
| Text.TrailingSpaces | grab_yt.py:420 | The counted suffix is all whitespace, and the character before it is not whitespace. |
| Text.Strip | grab_yt.py:420 | No contract of its own: `rstrip` after `lstrip`. `StripShape` and `StripEmpty` state its result. |
| Text.StripEmpty | grab_yt.py:420-426 | `not url` after `strip()` holds iff the text is whitespace only. |
| Text.StripShape | grab_yt.py:420 | The stripped text is a slice of the input. Everything outside the slice is whitespace, and a non-empty slice starts and ends with non-whitespace. |
| Text.RemoveAll | grab_yt.py:456 | The removed character is absent from the result, which is no longer than the input. `RemoveAllKeeps` and `RemoveAllConcat` state that everything else stays, in order. |
| Text.RemoveAllKeeps | grab_yt.py:456 | Every other character stays, with its multiplicity: the result's multiset is the input's with `c` taken out. |
| Text.RemoveAllConcat | grab_yt.py:456 | Removal distributes over concatenation, so the remaining characters keep their order. |
| Text.RemoveAllAbsent | grab_yt.py:456 | Removing a character that does not occur changes nothing. |
| Text.RemoveAllTrailing | grab_yt.py:456 | Removing c from a text that holds c only as its last character drops that last character. |
| Text.IntToStringHasNoLetter | grab_yt.py:387 | A printed integer contains no character other than digits and "-". |
| Sizes.UnitFor | grab_yt.py:511-518 | B iff size < 1024; KB iff 1024 <= size < 1024^2; MB iff 1024^2 <= size < 1024^3; GB iff size >= 1024^3. |
| Sizes.RoundHalfEven | grab_yt.py:514-518 | The quotient is within half a unit of n/d, and an exact tie goes to the even neighbour. |
| Sizes.Hundredths | grab_yt.py:513-518 | No contract of its own: the size in hundredths of the chosen unit, rounded as `:.2f` rounds. `HundredthsAccurate` and `ScaledAtLeastOne` state its accuracy and lower bound. |
| Sizes.Fixed2 | grab_yt.py:514-518 | No contract of its own: hundredths written with two decimals. `ParseFixed2RoundTrip` proves the text reads back to the same count. |
| Sizes.ParseFixed2RoundTrip | grab_yt.py:514-518 | The two-decimal text of a count of hundredths parses back to that count. |
| Sizes.FormatSize | grab_yt.py:511-512 | Below 1024 bytes the text is the integer followed by " B". |
| Sizes.FormatSizeRoundTrip | grab_yt.py:509-518 | Parsing the text back gives the magnitude in hundredths of the unit the thresholds select, together with that unit. |
| Sizes.HundredthsAccurate | grab_yt.py:513-518 | The displayed hundredths are within half a hundredth of the exact quotient, and exact for byte sizes. |
| Sizes.ScaledAtLeastOne | grab_yt.py:513-518 | A KB, MB or GB text never shows less than 1.00. |
| ProgressSink.Downloaded | grab_yt.py:490 | No contract of its own: `d.get('downloaded_bytes', 0)`. `Sink` and `ByteShareBounds` state the share and the labels in terms of it. |
| ProgressSink.Total | grab_yt.py:491 | `total_bytes` when it is truthy; otherwise the estimate when it is present; otherwise 0. |
| ProgressSink.TruthySpeed | grab_yt.py:492-498 | The speed is shown iff present and non-zero, and then unchanged. |
| ProgressSink.AfterPercent | grab_yt.py:480-487 | A parsed percentage is stored clamped. A missing or unparsable one leaves the value alone. |
| ProgressSink.SizeLabelText | grab_yt.py:498-507 | No contract of its own: the transfer label is `format_size` of the downloaded and total bytes, the received label `format_size` of the downloaded bytes, each followed by the speed text, and the merging notice after `finished`. `FormatSizeRoundTrip` pins each `format_size` piece. |
| ProgressSink.SpeedText | grab_yt.py:498-502 | No contract of its own: `" at <size>/s"` for a truthy speed, empty otherwise. `TruthySpeed` states when a speed is kept. |
| ProgressSink.Sink | grab_yt.py:476-507 | "finished" gives (100, merge message). An unknown status changes nothing. A positive total gives the clamped byte share and the transfer label. A zero total leaves the value to `_percent_str` and changes the label only when bytes arrived. |
| ProgressSink.SinkInRange | grab_yt.py:476-507 | An event keeps the value in 0..100. |
| ProgressSink.PercentOverridden | grab_yt.py:480-496 | With a positive total, `_percent_str` has no effect on the outcome. |
| ProgressSink.ShareBounds | grab_yt.py:494-496 | The clamped share never exceeds the exact share, and it is 100 iff downloaded >= total. |
| ProgressSink.ByteShareBounds | grab_yt.py:494-496 | The same two facts for the value after a "downloading" event with a positive total. |
| ProgressSink.HalfExample | grab_yt.py:494-496 | 512000 of 1024000 bytes gives 50. |
| ProgressSink.Replay | grab_yt.py:476-507 | No contract of its own: `Sink` applied to each event in order. `ReplayInRange` and `FinishedSticks` state its properties, and `FeedEvents` is proved equal to it. |
| ProgressSink.ReplayInRange | grab_yt.py:476-507 | A whole transfer keeps the value in 0..100. |
| ProgressSink.FinishedSticks | grab_yt.py:505-507 | After the last "finished" event, events with unknown status leave (100, merge message). |
| Downloader.QualityEntries | grab_yt.py:386-387 | One entry per height, in the same order. |
| Downloader.EntryText | grab_yt.py:385-395 | No contract of its own: the caption of each entry, with a height shown as `f"{quality}p"`. `ComboTexts` and `QualityEntryText` state the texts of a filled combobox. |
| Downloader.ComboFor | grab_yt.py:382-395 | A non-empty list gives "Select Quality" at index 0 and then the heights in order. An empty list gives the single "No qualities found" entry. |
| Downloader.ComboTexts | grab_yt.py:385-387 | The entry texts are "Select Quality" and then `"<q>p"` per height. |
| Downloader.QualityEntryText | grab_yt.py:456 | Removing every "p" from `"<q>p"` gives back q's digits. |
| Downloader.RejectionStatus | grab_yt.py:426-439 | No contract of its own: the warning for each refusal. `DownloadVideo` states which one is shown. |
| Downloader.OutputTemplate | grab_yt.py:443 | No contract of its own: the folder followed by `/%(title)s.%(ext)s`. `PrepareOutcome` states that an accepted request carries it. |
| Downloader.VideoSelector | grab_yt.py:457 | No contract of its own: `bestvideo[height<=Q]+bestaudio/best[height<=Q]`. `PrepareOutcome` and `SelectorForChoice` state which Q is used. |
| Downloader.HasFolder | grab_yt.py:431 | No contract of its own: the folder is set and non-empty (truthy). `PrepareOutcome` states that its absence refuses the request. |
| Downloader.Prepare | grab_yt.py:420-457 | No contract of its own: the checks and the option building of `download_video`. `PrepareOutcome` states each refusal and the accepted options. |
| Downloader.PrepareOutcome | grab_yt.py:420-457 | Blank URL, missing folder and video mode at index 0 each refuse iff they are the first check to fail. An accepted request carries the stripped URL, the template, `quiet`/`no_warnings` false, and either `bestaudio/best` with mp3 extraction or the height selector with the "p"s removed. |
| Downloader.VideoFormat | grab_yt.py:456-457 | In video mode, an accepted request for a quality entry asks for exactly that entry's height. |
| Downloader.SelectorForChoice | grab_yt.py:456-457 | After a fetch, accepting entry i in video mode asks for exactly the i-th listed height. |
| Downloader.TitleOf | grab_yt.py:461 | No contract of its own: the title, or "Unknown" when the key is missing. `CallLibrary` states that it is shown. |
| Downloader.DownloaderApp.constructor | grab_yt.py:105-316 | The initial state: no folder, video mode, one disabled placeholder entry at index 0, blank labels, value 0. |
| Downloader.DownloaderApp.EditUrl | grab_yt.py:233 | The URL field holds the typed text. |
| Downloader.DownloaderApp.ChooseQuality | grab_yt.py:272-274 | An enabled combobox takes an index in range; otherwise the index is unchanged. |
| Downloader.DownloaderApp.ChooseType | grab_yt.py:249-257 | The mode is set, and `on_type_changed` runs exactly when the audio-only button's state flips. |
| Downloader.DownloaderApp.OnTypeChanged | grab_yt.py:347-355 | Audio-only disables the combobox and dims its label. Video mode enables it only when it holds more than one entry, and undims the label. |
| Downloader.DownloaderApp.FetchQualities | grab_yt.py:357-375 | A disabled button takes no click, so nothing changes and no worker starts. A blank URL only sets the warning. Otherwise the worker gets the stripped URL, the status reads "fetching" and the button is disabled, so one fetch runs at a time. |
| Downloader.DownloaderApp.OnQualitiesFetched | grab_yt.py:377-397 | The button is re-enabled and the entries are `ComboFor(qs)` at index 0. With qualities the status reports their count and video mode enables the combobox; without, the status reads "No video qualities found". |
| Downloader.DownloaderApp.OnFetchError | grab_yt.py:399-404 | The button is re-enabled and the status shows the error. |
| Downloader.DownloaderApp.DeliverFetch | grab_yt.py:372-374 | Exactly one handler runs, and the button is re-enabled. A quality list fills the combobox at index 0, sets the status, and enables it in video mode when the list is non-empty. An error leaves the combobox as it was. |
| Downloader.DownloaderApp.SelectFolder | grab_yt.py:406-416 | A non-empty answer is kept and shown; an empty one clears the folder and shows "No folder selected". |
| Downloader.DownloaderApp.ShowProgress | grab_yt.py:476-507 | The new value and label are `Sink` of the old ones and the event. |
| Downloader.DownloaderApp.FeedEvents | grab_yt.py:444-466 | After a transfer the value and label are the fold of `Sink` over its events. |
| Downloader.DownloaderApp.CallLibrary | grab_yt.py:459-474 | A failed probe shows the error and resets the value. A transfer shows the title, feeds every event, and then shows "Downloaded" or the error with the value reset. |
| Downloader.DownloaderApp.Pending | grab_yt.py:420-457 | No contract of its own: `Prepare` applied to the window's URL, folder, mode, index and entry text. `PendingSelects`, `CheckRequest` and `DownloadVideo` are stated through it. |
| Downloader.DownloaderApp.PendingSelects | grab_yt.py:456-457 | In video mode, an accepted request from the window's state asks for exactly the height shown at the chosen entry, `offered[index - 1]`. |
| Downloader.DownloaderApp.CheckRequest | grab_yt.py:420-457 | The result is `Prepare` on the current fields. In video mode the selector names the height listed at the current entry. |
| Downloader.DownloaderApp.DownloadVideo | grab_yt.py:418-474 | The request is `Pending()` of the starting state, so `PendingSelects` gives its selector. Labels and value are reset first. A refusal shows its warning, with value 0 and a blank size label, and the library is never called. An accepted request ends as `CallLibrary` describes, starting from value 0 and a blank label. |

## Left out

- Layout, stylesheets, fonts, colours and the icon glyphs in label texts: they are presentation. Status and size labels are datatypes naming what is shown.
- `paintEvent`'s drawing: the rings, the gradient, the float arc angle `-int(value * 3.6 * 16)` and the centered percentage text are only modelled through the caption they choose. The repaint request `update()` is not modelled.
- `QThread`, `pyqtSignal`, `start()` and `connect`: the worker's outcome is a `Result` delivered by `DeliverFetch`. Handlers that run while a worker is still busy are not modelled as interleavings; only the disabled button, which rules out a second fetch, is.
- `yt_dlp`'s `extract_info` and `download` are not modelled. Their outcomes are the `Result<Info, string>` probe of `Qualities.Run` and the `LibraryRun` of `DownloadVideo`. An exception raised inside the progress hook is not modelled separately; it is one more transfer failure.
- `QFileDialog.getExistingDirectory`: its answer is the parameter of `SelectFolder`.
- The fetch button's changing caption: it always goes with its enabled flag, which is modelled.
- ProgressSink.AfterPercent: float parsing of `_percent_str` is not modelled. The field is missing, unparsable (including `nan` and `inf`, which `int()` rejects), or an integer already truncated by `int(float(...))`. A non-string value raising in `strip()` is not modelled.
- ProgressSink.Sink: uses exact integer division `downloaded * 100 / total` where the source computes `int((downloaded / total) * 100)` in floating point. The two can differ by one (29 of 100 bytes gives 28 in floating point).
- ProgressSink.Sink: a `total_bytes_estimate` or `downloaded_bytes` that is present but `None` makes the source raise a `TypeError`; the model keeps byte counts numeric. A missing `status` key (a `KeyError`) is not modelled.
- Sizes.FormatSize: speeds and sizes are whole byte counts. `yt_dlp` reports `speed` as a float, which prints with a fraction below 1024. The two decimals are exact only below 2^53 bytes, where `size / 1024**k` is an exact double.
- Qualities.Run: a `formats` key present with the value `None` cannot be represented (`None` stands for a missing key). The source would raise while iterating it (grab_yt.py:92) and report the exception as a fetch error.
- Downloader.TitleOf: a `title` key present with the value `None` cannot be represented. The source would show the text "None" (grab_yt.py:461-463).
