/** `show_progress`: how one progress event of the download library changes the
    indicator value and the size shown. */
module ProgressSink {
  import opened Wrappers
  import opened ProgressBar
  import opened Sizes

  /** The event's `status`: the two values the hook tests for, and
      `OtherStatus` for any status it does not recognise (neither "downloading"
      nor "finished"), which it ignores. */
  datatype EventStatus = Downloading | Finished | OtherStatus(name: string)

  /** The `_percent_str` field: missing, present but not a number, or the
      number already truncated by `int(float(...))`. */
  datatype PercentField = NoPercent | Unparsable | Percent(p: int)

  /** One event record; `None` stands for a missing key (and, for `total_bytes`
      and `speed`, also for the value `None`). */
  datatype ProgressEvent = ProgressEvent(
    status: EventStatus,
    percentStr: PercentField,
    downloadedBytes: Option<nat>,
    totalBytes: Option<nat>,
    totalBytesEstimate: Option<nat>,
    speed: Option<nat>)

  /** What the size label shows. `speed` is kept only when it is truthy. */
  datatype SizeLabel =
    | BlankLabel
    | Transfer(downloaded: nat, total: nat, speed: Option<nat>)
    | Received(downloaded: nat, speed: Option<nat>)
    | Merging

  /** The label's text, without its leading icon. */
  function SizeLabelText(l: SizeLabel): string
  {
    match l
    case BlankLabel => ""
    case Transfer(d, t, sp) => FormatSize(d) + " / " + FormatSize(t) + SpeedText(sp)
    case Received(d, sp) => FormatSize(d) + SpeedText(sp)
    case Merging => "Merging video and audio..."
  }

  function SpeedText(sp: Option<nat>): string
  {
    match sp
    case Some(v) => " at " + FormatSize(v) + "/s"
    case None => ""
  }

  /** `d.get('downloaded_bytes', 0)`. */
  function Downloaded(e: ProgressEvent): nat
  {
    match e.downloadedBytes
    case Some(d) => d
    case None => 0
  }

  /** `d.get('total_bytes') or d.get('total_bytes_estimate', 0)`. */
  function Total(e: ProgressEvent): (t: nat)
    ensures e.totalBytes.Some? && e.totalBytes.value != 0 ==> t == e.totalBytes.value
    ensures (e.totalBytes.None? || e.totalBytes.value == 0) && e.totalBytesEstimate.Some?
            ==> t == e.totalBytesEstimate.value
    ensures (e.totalBytes.None? || e.totalBytes.value == 0) && e.totalBytesEstimate.None? ==> t == 0
  {
    match e.totalBytes
    case Some(t) => if t != 0 then t else EstimateOrZero(e)
    case None => EstimateOrZero(e)
  }

  function EstimateOrZero(e: ProgressEvent): nat
  {
    match e.totalBytesEstimate
    case Some(t) => t
    case None => 0
  }

  /** `d.get('speed')` when it is truthy. */
  function TruthySpeed(e: ProgressEvent): (sp: Option<nat>)
    ensures sp.Some? <==> e.speed.Some? && e.speed.value != 0
    ensures sp.Some? ==> sp == e.speed
  {
    match e.speed
    case Some(v) => if v != 0 then Some(v) else None
    case None => None
  }

  /** The value after the `_percent_str` step: a parsed percentage is stored
      clamped, a missing or unparsable one leaves the value as it was. */
  function AfterPercent(value: int, f: PercentField): (v: int)
    ensures f.Percent? ==> v == Clamp(f.p)
    ensures !f.Percent? ==> v == value
  {
    match f
    case Percent(p) => Clamp(p)
    case _ => value
  }

  /** The new (value, label) after one event while the indicator shows `value`
      and the label shows `shown`. */
  function Sink(value: int, shown: SizeLabel, e: ProgressEvent): (r: (int, SizeLabel))
    // a "finished" event forces 100 and the merge message, whatever came before
    ensures e.status == Finished ==> r == (100, Merging)
    // any status other than the two known ones changes nothing
    ensures e.status.OtherStatus? ==> r == (value, shown)
    // with a positive total the byte ratio decides the value and overrides `_percent_str`
    ensures e.status == Downloading && Total(e) > 0 ==>
      r == (Clamp(Downloaded(e) * 100 / Total(e)), Transfer(Downloaded(e), Total(e), TruthySpeed(e)))
    // with no total the bytes leave the value alone; only `_percent_str` may move it
    ensures e.status == Downloading && Total(e) == 0 ==> r.0 == AfterPercent(value, e.percentStr)
    // and the label changes only when some bytes have arrived
    ensures e.status == Downloading && Total(e) == 0 ==>
      r.1 == if Downloaded(e) > 0 then Received(Downloaded(e), TruthySpeed(e)) else shown
  {
    match e.status
    case Finished => (100, Merging)
    case OtherStatus(_) => (value, shown)
    case Downloading =>
      var v := AfterPercent(value, e.percentStr);
      var downloaded, total := Downloaded(e), Total(e);
      if total > 0 then (Clamp(downloaded * 100 / total), Transfer(downloaded, total, TruthySpeed(e)))
      else if downloaded > 0 then (v, Received(downloaded, TruthySpeed(e)))
      else (v, shown)
  }

  /** The sink keeps the value in range. */
  lemma SinkInRange(value: int, shown: SizeLabel, e: ProgressEvent)
    requires 0 <= value <= 100
    ensures 0 <= Sink(value, shown, e).0 <= 100
  {
  }

  /** With a positive total, two events that differ only in their percentage
      strings have the same effect. */
  lemma PercentOverridden(value: int, shown: SizeLabel, e: ProgressEvent, f: PercentField)
    requires e.status == Downloading && Total(e) > 0
    ensures Sink(value, shown, e) == Sink(value, shown, e.(percentStr := f))
  {
  }

  lemma MulLe(a: nat, b: nat, t: nat)
    requires a <= b
    ensures a * t <= b * t
  {
    assert b * t == a * t + (b - a) * t;
  }

  /** The quotient of `n` by `t` is the largest `q` with `q * t <= n`. */
  lemma DivBounds(n: nat, t: nat)
    requires t > 0
    ensures (n / t) * t <= n < (n / t + 1) * t
  {
    assert n == (n / t) * t + n % t;
    assert (n / t + 1) * t == (n / t) * t + t;
  }

  lemma DivAtLeast(n: nat, t: nat, k: nat)
    requires t > 0 && k * t <= n
    ensures k <= n / t
  {
    DivBounds(n, t);
    if n / t < k {
      MulLe(n / t + 1, k, t);
    }
  }

  lemma DivBelow(n: nat, t: nat, k: nat)
    requires t > 0 && n < k * t
    ensures n / t < k
  {
    DivBounds(n, t);
    if n / t >= k {
      MulLe(k, n / t, t);
    }
  }

  /** The clamped byte share of `d` out of `t` bytes never exceeds the exact
      share, and it is 100 exactly when `d` reaches `t`. */
  lemma ShareBounds(d: nat, t: nat)
    requires t > 0
    ensures Clamp(d * 100 / t) * t <= 100 * d
    ensures Clamp(d * 100 / t) == 100 <==> d >= t
  {
    if d >= t {
      DivAtLeast(d * 100, t, 100);
    } else {
      DivBelow(d * 100, t, 100);
      DivBounds(d * 100, t);
    }
  }

  /** With a positive total the value never exceeds the share of bytes received,
      and it reaches 100 exactly when every byte has arrived. */
  lemma ByteShareBounds(value: int, shown: SizeLabel, e: ProgressEvent)
    requires e.status == Downloading && Total(e) > 0
    ensures Sink(value, shown, e).0 * Total(e) <= 100 * Downloaded(e)
    ensures Sink(value, shown, e).0 == 100 <==> Downloaded(e) >= Total(e)
  {
    ShareBounds(Downloaded(e), Total(e));
  }

  /** 512000 of 1024000 bytes shows 50. */
  lemma HalfExample(value: int, shown: SizeLabel)
    ensures Sink(value, shown, ProgressEvent(Downloading, NoPercent, Some(512000), Some(1024000), None, None)).0 == 50
  {
  }

  /** The events of one transfer applied in order. */
  function Replay(value: int, shown: SizeLabel, events: seq<ProgressEvent>): (int, SizeLabel)
  {
    if events == [] then (value, shown)
    else
      var before := Replay(value, shown, events[..|events| - 1]);
      Sink(before.0, before.1, events[|events| - 1])
  }

  /** Replaying a transfer keeps the value in range. */
  lemma {:induction false} ReplayInRange(value: int, shown: SizeLabel, events: seq<ProgressEvent>)
    requires 0 <= value <= 100
    ensures 0 <= Replay(value, shown, events).0 <= 100
  {
    if events != [] {
      ReplayInRange(value, shown, events[..|events| - 1]);
      var before := Replay(value, shown, events[..|events| - 1]);
      SinkInRange(before.0, before.1, events[|events| - 1]);
    }
  }

  /** After the last "finished" event of a transfer, later events with unknown
      status leave 100 and the merge message in place. */
  lemma {:induction false} FinishedSticks(value: int, shown: SizeLabel, events: seq<ProgressEvent>, k: nat)
    requires k < |events| && events[k].status == Finished
    requires forall i :: k < i < |events| ==> events[i].status.OtherStatus?
    ensures Replay(value, shown, events) == (100, Merging)
    decreases |events|
  {
    if k < |events| - 1 {
      var init := events[..|events| - 1];
      assert init[k] == events[k];
      forall i | k < i < |init| ensures init[i].status.OtherStatus? {
        assert init[i] == events[i];
      }
      FinishedSticks(value, shown, init, k);
    }
  }
}
