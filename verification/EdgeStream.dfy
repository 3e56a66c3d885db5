/** From samples to edge events: the state of one pin, the polling pass over all of them, and what the
    stream of dispatched values and events is. */
module EdgeStream {
  import opened Hooks
  import opened HookLife

  const EVENT_NONE := 4

  /** What `changed` leaves: its answer, the pin's value and the event variable it was given. */
  datatype Answer = Answer(changed: int, value: int, event: int)

  function EventOf(value: int): int {
    if value == 1 then EVENT_RISING else EVENT_FALLING
  }

  /** One sample, negative when reading failed. */
  function Sampled(value: int, sample: int, event: int): Answer {
    if sample < 0 then Answer(-1, value, event)
    else if sample == value then Answer(0, value, event)
    else Answer(1, sample, EventOf(sample))
  }

  class SampledPin {
    var value: int

    constructor (value: int)
      ensures this.value == value
    {
      this.value := value;
    }

    /** sysfs_changed_value, and uapi_changed_value of a polled pin. */
    method Changed(sample: int, event: int) returns (changed: int, newEvent: int)
      modifies this
      ensures changed == 1 ==> value == sample && newEvent == if sample == 1 then EVENT_RISING else EVENT_FALLING
      ensures changed != 1 ==> value == old(value) && newEvent == event
      ensures Answer(changed, value, newEvent) == Sampled(old(value), sample, event)
    {
      newEvent := event;
      if sample < 0 {
        return -1, newEvent;
      }
      if sample == value {
        return 0, newEvent;
      }
      if sample == 1 {
        newEvent := EVENT_RISING;
      } else {
        newEvent := EVENT_FALLING;
      }
      value := sample;
      return 1, newEvent;
    }
  }

  /** One call of dispatch and dispatch_hooks: pin k, with this value and event. */
  datatype Report = Report(pin: nat, value: int, event: int)

  datatype Sweep = Sweep(values: seq<int>, reports: seq<Report>, event: int)

  /** A polling pass over the first n pins. The event variable is shared by all of them, and any answer
      but 0 is dispatched. */
  function Swept(values: seq<int>, samples: seq<int>, event: int, n: nat): Sweep
    requires |samples| == |values| && n <= |values|
  {
    if n == 0 then Sweep([], [], event) else
      var s := Swept(values, samples, event, n - 1);
      var a := Sampled(values[n - 1], samples[n - 1], s.event);
      Sweep(s.values + [a.value],
            if a.changed != 0 then s.reports + [Report(n - 1, a.value, a.event)] else s.reports,
            a.event)
  }

  ghost function Values(pins: seq<SampledPin>): (r: seq<int>)
    reads pins
    ensures |r| == |pins| && forall k :: 0 <= k < |pins| ==> r[k] == pins[k].value
  {
    if pins == [] then [] else [pins[0].value] + Values(pins[1..])
  }

  /** The first k pins have been asked. */
  ghost predicate Polled(pins: seq<SampledPin>, before: seq<int>, values: seq<int>, k: nat)
    requires |before| == |pins|
    reads pins
  {
    && |values| == k <= |pins|
    && (forall i :: 0 <= i < k ==> pins[i].value == values[i])
    && (forall i :: k <= i < |pins| ==> pins[i].value == before[i])
  }

  lemma SweptSnoc(values: seq<int>, samples: seq<int>, event: int, k: nat)
    requires |samples| == |values| && k < |values|
    ensures var s := Swept(values, samples, event, k);
      var a := Sampled(values[k], samples[k], s.event);
      Swept(values, samples, event, k + 1)
        == Sweep(s.values + [a.value],
                 s.reports + if a.changed != 0 then [Report(k, a.value, a.event)] else [],
                 a.event)
  {
    hide Sampled;
  }

  /** Asking pin k. */
  method PollOne(pins: seq<SampledPin>, ghost before: seq<int>, ghost values: seq<int>, k: nat, sample: int, last: int)
    returns (changed: int, last': int)
    requires forall i, j :: 0 <= i < j < |pins| ==> pins[i] != pins[j]
    requires |before| == |pins| && k < |pins| && Polled(pins, before, values, k)
    modifies pins[k]
    ensures Answer(changed, pins[k].value, last') == Sampled(before[k], sample, last)
    ensures Polled(pins, before, values + [pins[k].value], k + 1)
  {
    hide Sampled;
    changed, last' := pins[k].Changed(sample, last);
  }

  lemma PolledAll(pins: seq<SampledPin>, before: seq<int>, values: seq<int>)
    requires |before| == |pins| && Polled(pins, before, values, |pins|)
    ensures values == Values(pins)
  {
    hide Values;
  }

  /** The TIMER_FD case of the event loop: every polled pin is asked once. */
  method Poll(pins: seq<SampledPin>, samples: seq<int>, event: int) returns (reports: seq<Report>, last: int)
    requires |samples| == |pins| && forall i, j :: 0 <= i < j < |pins| ==> pins[i] != pins[j]
    modifies pins
    ensures Sweep(Values(pins), reports, last) == Swept(old(Values(pins)), samples, event, |pins|)
  {
    ghost var before, values := Values(pins), [];
    reports, last := [], event;
    assert Swept(before, samples, event, 0) == Sweep(values, reports, last);
    assert Polled(pins, before, values, 0);
    hide *;
    var k := 0;
    while k < |pins|
      invariant k <= |pins| && Polled(pins, before, values, k)
      invariant Swept(before, samples, event, k) == Sweep(values, reports, last)
    {
      var changed;
      SweptSnoc(before, samples, event, k);
      changed, last := PollOne(pins, before, values, k, samples[k], last);
      values := values + [pins[k].value];
      if changed != 0 {
        reports := reports + [Report(k, pins[k].value, last)];
      }
      k := k + 1;
    }
    PolledAll(pins, before, values);
  }

  // ---------------------------------------------------------------- one pin

  /** The reports about pin k, in order. */
  function About(reports: seq<Report>, k: nat): seq<Report> {
    if reports == [] then [] else
      About(reports[..|reports| - 1], k) + if reports[|reports| - 1].pin == k then [reports[|reports| - 1]] else []
  }

  lemma {:induction false} AboutAppend(a: seq<Report>, b: seq<Report>, k: nat)
    ensures About(a + b, k) == About(a, k) + About(b, k)
  {
    if b == [] {
      assert a + b == a;
    } else {
      var r := a + b;
      assert r[..|r| - 1] == a + b[..|b| - 1];
      AboutAppend(a, b[..|b| - 1], k);
    }
  }

  lemma {:induction false} SweptPins(values: seq<int>, samples: seq<int>, event: int, n: nat)
    requires |samples| == |values| && n <= |values|
    ensures |Swept(values, samples, event, n).values| == n
    ensures var r := Swept(values, samples, event, n).reports; forall i :: 0 <= i < |r| ==> r[i].pin < n
  {
    if n > 0 {
      SweptPins(values, samples, event, n - 1);
    }
  }

  lemma {:induction false} AboutNone(reports: seq<Report>, k: nat)
    requires forall i :: 0 <= i < |reports| ==> reports[i].pin != k
    ensures About(reports, k) == []
  {
    if reports != [] {
      AboutNone(reports[..|reports| - 1], k);
    }
  }

  lemma AboutSnoc(reports: seq<Report>, r: Report, k: nat)
    ensures About(reports + [r], k) == About(reports, k) + if r.pin == k then [r] else []
  {
    assert (reports + [r])[..|reports|] == reports;
  }

  /** Visiting another pin changes nothing about pin k. */
  lemma SweptNext(values: seq<int>, samples: seq<int>, event: int, n: nat, k: nat)
    requires |samples| == |values| && k < n < |values|
    ensures About(Swept(values, samples, event, n + 1).reports, k) == About(Swept(values, samples, event, n).reports, k)
    ensures |Swept(values, samples, event, n).values| == n && |Swept(values, samples, event, n + 1).values| == n + 1
    ensures Swept(values, samples, event, n + 1).values[k] == Swept(values, samples, event, n).values[k]
  {
    SweptPins(values, samples, event, n);
    var s := Swept(values, samples, event, n);
    var a := Sampled(values[n], samples[n], s.event);
    AboutSnoc(s.reports, Report(n, a.value, a.event), k);
    hide About, Sampled;
  }

  lemma SweptSelf(values: seq<int>, samples: seq<int>, event: int, k: nat)
    requires |samples| == |values| && k < |values|
    ensures var s := Swept(values, samples, event, k + 1);
      && |s.values| == k + 1
      && s.values[k] == Follow(values[k], samples[k])
      && About(s.reports, k) == Reported(k, values[k], samples[k], Swept(values, samples, event, k).event)
  {
    SweptPins(values, samples, event, k);
    var s := Swept(values, samples, event, k);
    var a := Sampled(values[k], samples[k], s.event);
    AboutNone(s.reports, k);
    AboutSnoc(s.reports, Report(k, a.value, a.event), k);
    hide About;
  }

  /** A pin's value follows the sample unless reading failed. */
  function Follow(value: int, sample: int): int {
    if sample < 0 then value else sample
  }

  /** A pin is reported exactly when the sample is new or failed; a failed sample is reported with the
      old value and the event the variable happens to hold. */
  function Reported(k: nat, value: int, sample: int, stale: int): seq<Report> {
    if sample < 0 then [Report(k, value, stale)]
    else if sample == value then []
    else [Report(k, sample, EventOf(sample))]
  }

  /** What one pass does to pin k; the stale event is what the earlier pins of the pass left behind. */
  lemma {:induction false} SweptOne(values: seq<int>, samples: seq<int>, event: int, n: nat, k: nat)
    requires |samples| == |values| && k < n <= |values|
    ensures var s := Swept(values, samples, event, n);
      && |s.values| == n
      && s.values[k] == Follow(values[k], samples[k])
      && About(s.reports, k) == Reported(k, values[k], samples[k], Swept(values, samples, event, k).event)
  {
    hide Swept, About, Follow, Reported;
    if k == n - 1 {
      SweptSelf(values, samples, event, k);
    } else {
      SweptOne(values, samples, event, n - 1, k);
      SweptNext(values, samples, event, n - 1, k);
    }
  }

  // ---------------------------------------------------------------- the stream

  /** Pass t starts with its own event variable. */
  datatype Round = Round(samples: seq<int>, event: int)

  ghost predicate Fits(rounds: seq<Round>, n: nat) {
    forall t :: 0 <= t < |rounds| ==> |rounds[t].samples| == n
  }

  /** The values and all reports after a series of passes. */
  function Stream(values: seq<int>, rounds: seq<Round>): Sweep
    requires Fits(rounds, |values|)
    ensures |Stream(values, rounds).values| == |values|
    decreases |rounds|
  {
    if rounds == [] then Sweep(values, [], EVENT_NONE) else
      var t := |rounds| - 1;
      var s := Stream(values, rounds[..t]);
      SweptPins(s.values, rounds[t].samples, rounds[t].event, |values|);
      var w := Swept(s.values, rounds[t].samples, rounds[t].event, |values|);
      Sweep(w.values, s.reports + w.reports, w.event)
  }

  /** What pin k was seen to be, pass by pass. */
  function Column(rounds: seq<Round>, k: nat): (r: seq<int>)
    requires forall t :: 0 <= t < |rounds| ==> k < |rounds[t].samples|
    ensures |r| == |rounds| && forall t :: 0 <= t < |rounds| ==> r[t] == rounds[t].samples[k]
  {
    if rounds == [] then [] else Column(rounds[..|rounds| - 1], k) + [rounds[|rounds| - 1].samples[k]]
  }

  function Last(value: int, samples: seq<int>): int {
    if samples == [] then value else samples[|samples| - 1]
  }

  /** A stream with the repeats of the previous value left out. */
  function Changes(value: int, samples: seq<int>): seq<int> {
    if samples == [] then [] else
      var t := |samples| - 1;
      Changes(value, samples[..t]) + if samples[t] == Last(value, samples[..t]) then [] else [samples[t]]
  }

  function ReportsOf(k: nat, changes: seq<int>): (r: seq<Report>)
    ensures |r| == |changes| && forall i :: 0 <= i < |changes| ==> r[i] == Report(k, changes[i], EventOf(changes[i]))
  {
    if changes == [] then [] else [Report(k, changes[0], EventOf(changes[0]))] + ReportsOf(k, changes[1..])
  }

  /** A pin whose samples all succeed is reported with exactly its changes, each with its own event,
      whatever the other pins do, failed samples of theirs included. */
  lemma {:induction false} StreamIsChanges(values: seq<int>, rounds: seq<Round>, k: nat)
    requires Fits(rounds, |values|) && k < |values|
    requires forall t :: 0 <= t < |rounds| ==> rounds[t].samples[k] >= 0
    ensures var s := Stream(values, rounds);
      && s.values[k] == Last(values[k], Column(rounds, k))
      && About(s.reports, k) == ReportsOf(k, Changes(values[k], Column(rounds, k)))
    decreases |rounds|
  {
    hide Stream, About, Changes, Good, Column, Last, Swept;
    if rounds == [] {
      StreamStart(values, k);
    } else {
      var t := |rounds| - 1;
      var x, col := rounds[t].samples[k], Column(rounds[..t], k);
      StreamIsChanges(values, rounds[..t], k);
      StreamStep(values, rounds, k);
      ChangesSnoc(values[k], col, x);
      ReportsSnoc(k, Changes(values[k], col), x);
    }
  }

  lemma ReportsSnoc(k: nat, a: seq<int>, x: int)
    ensures ReportsOf(k, a + [x]) == ReportsOf(k, a) + [Report(k, x, EventOf(x))]
    ensures a + [] == a
  {
  }

  /** One more pass, seen from pin k. */
  lemma StreamStep(values: seq<int>, rounds: seq<Round>, k: nat)
    requires rounds != [] && Fits(rounds, |values|) && k < |values|
    ensures var t := |rounds| - 1;
      var s, s' := Stream(values, rounds[..t]), Stream(values, rounds);
      var before := Swept(s.values, rounds[t].samples, rounds[t].event, k);
      && Column(rounds, k) == Column(rounds[..t], k) + [rounds[t].samples[k]]
      && s'.values[k] == Follow(s.values[k], rounds[t].samples[k])
      && About(s'.reports, k) == About(s.reports, k) + Reported(k, s.values[k], rounds[t].samples[k], before.event)
  {
    hide Swept, About, Follow, Reported;
    var t := |rounds| - 1;
    var s := Stream(values, rounds[..t]);
    SweptOne(s.values, rounds[t].samples, rounds[t].event, |values|, k);
    AboutAppend(s.reports, Swept(s.values, rounds[t].samples, rounds[t].event, |values|).reports, k);
  }

  lemma ChangesSnoc(value: int, samples: seq<int>, x: int)
    ensures Changes(value, samples + [x]) == Changes(value, samples) + if x == Last(value, samples) then [] else [x]
    ensures Last(value, samples + [x]) == x
    ensures Good(samples + [x]) == Good(samples) + if x >= 0 then [x] else []
  {
    assert (samples + [x])[..|samples|] == samples;
  }

  /** A failed sample always adds a report, so a pin is reported as often as it changes if and only if
      none of its samples failed. */
  lemma {:induction false} ReportCount(values: seq<int>, rounds: seq<Round>, k: nat)
    requires Fits(rounds, |values|) && k < |values|
    ensures |About(Stream(values, rounds).reports, k)|
         == |Changes(values[k], Good(Column(rounds, k)))| + |rounds| - |Good(Column(rounds, k))|
    ensures Stream(values, rounds).values[k] == Last(values[k], Good(Column(rounds, k)))
    decreases |rounds|
  {
    hide Stream, About, Changes, Good, Column, Last, Swept;
    if rounds == [] {
      StreamStart(values, k);
    } else {
      var t := |rounds| - 1;
      var x, col := rounds[t].samples[k], Column(rounds[..t], k);
      ReportCount(values, rounds[..t], k);
      StreamStep(values, rounds, k);
      ChangesSnoc(values[k], col, x);
      ChangesSnoc(values[k], Good(col), x);
      assert Good(col) + [] == Good(col);
    }
  }

  lemma StreamStart(values: seq<int>, k: nat)
    requires k < |values|
    ensures Stream(values, []).values == values && About(Stream(values, []).reports, k) == []
    ensures Column([], k) == Good([]) == Changes(values[k], []) == [] && Last(values[k], []) == values[k]
  {
  }

  /** The samples that did not fail. */
  function Good(samples: seq<int>): (r: seq<int>)
    ensures |r| <= |samples|
  {
    if samples == [] then [] else
      Good(samples[..|samples| - 1]) + if samples[|samples| - 1] >= 0 then [samples[|samples| - 1]] else []
  }

  lemma {:induction false} AllGood(samples: seq<int>)
    ensures |Good(samples)| == |samples| <==> forall t :: 0 <= t < |samples| ==> samples[t] >= 0
  {
    if samples != [] {
      AllGood(samples[..|samples| - 1]);
    }
  }

  lemma FaithfulExactly(values: seq<int>, rounds: seq<Round>, k: nat)
    requires Fits(rounds, |values|) && k < |values|
    ensures About(Stream(values, rounds).reports, k) == ReportsOf(k, Changes(values[k], Good(Column(rounds, k))))
       <==> forall t :: 0 <= t < |rounds| ==> rounds[t].samples[k] >= 0
  {
    ReportCount(values, rounds, k);
    AllGood(Column(rounds, k));
    if forall t :: 0 <= t < |rounds| ==> rounds[t].samples[k] >= 0 {
      StreamIsChanges(values, rounds, k);
      GoodIsAll(Column(rounds, k));
    }
  }

  lemma {:induction false} GoodIsAll(samples: seq<int>)
    requires forall t :: 0 <= t < |samples| ==> samples[t] >= 0
    ensures Good(samples) == samples
  {
    if samples != [] {
      GoodIsAll(samples[..|samples| - 1]);
    }
  }

  /** A stale event: pin 0 rises, pin 1 cannot be read, and pin 1 is reported as rising too. */
  lemma StaleEvent()
    ensures Swept([0, 0], [1, -1], EVENT_NONE, 2).reports == [Report(0, 1, EVENT_RISING), Report(1, 0, EVENT_RISING)]
  {
    assert Swept([0, 0], [1, -1], EVENT_NONE, 1) == Sweep([1], [Report(0, 1, EVENT_RISING)], EVENT_RISING);
  }

  // ---------------------------------------------------------------- interrupt pins

  /** What a wakeup finds: the value of a sysfs pin, or the edge record of a character-device pin (1 rising,
      0 falling); negative if reading failed or the record is of no known kind. `event` is what the shared
      event variable holds when the pin's turn comes. */
  datatype Wakeup = SysfsWakeup(reading: int, event: int) | UapiWakeup(reading: int, event: int)

  /** uapi_changed_value of a pin that is not polled takes value and event from the record. */
  function Recorded(value: int, reading: int, event: int): Answer {
    if reading == 1 || reading == 0 then Answer(1, reading, EventOf(reading)) else Answer(-1, value, event)
  }

  function Answered(value: int, w: Wakeup): Answer {
    match w
    case SysfsWakeup(reading, event) => Sampled(value, reading, event)
    case UapiWakeup(reading, event) => Recorded(value, reading, event)
  }

  method OnRecord(pin: SampledPin, reading: int, event: int) returns (changed: int, newEvent: int)
    modifies pin
    ensures Answer(changed, pin.value, newEvent) == Recorded(old(pin.value), reading, event)
  {
    newEvent := event;
    if reading == 1 {
      pin.value := 1;
      newEvent := EVENT_RISING;
    } else if reading == 0 {
      pin.value := 0;
      newEvent := EVENT_FALLING;
    } else {
      return -1, newEvent;
    }
    changed := 1;
  }

  /** The pin cases of the event loop: only a pin that watches both edges is spared, when nothing changed. */
  function Told(k: nat, a: Answer, both: bool): seq<Report> {
    if a.changed == 0 && both then [] else [Report(k, a.value, a.event)]
  }

  method OnInterrupt(pin: SampledPin, k: nat, w: Wakeup, both: bool) returns (reports: seq<Report>)
    modifies pin
    ensures pin.value == Answered(old(pin.value), w).value && reports == Told(k, Answered(old(pin.value), w), both)
  {
    var changed, event;
    match w {
      case SysfsWakeup(reading, e) => changed, event := pin.Changed(reading, e);
      case UapiWakeup(reading, e) => changed, event := OnRecord(pin, reading, e);
    }
    if changed == 0 && both {
      return [];
    }
    reports := [Report(k, pin.value, event)];
  }

  datatype Watch = Watch(value: int, reports: seq<Report>)

  /** The wakeups of one pin, in order. */
  function Watched(value: int, ws: seq<Wakeup>, k: nat, both: bool): Watch {
    if ws == [] then Watch(value, []) else
      var v := Watched(value, ws[..|ws| - 1], k, both);
      var a := Answered(v.value, ws[|ws| - 1]);
      Watch(a.value, v.reports + Told(k, a, both))
  }

  function Readings(ws: seq<Wakeup>): (r: seq<int>)
    ensures |r| == |ws| && forall t :: 0 <= t < |ws| ==> r[t] == ws[t].reading
  {
    if ws == [] then [] else Readings(ws[..|ws| - 1]) + [ws[|ws| - 1].reading]
  }

  /** A wakeup that brings nothing, a failed reading or a record of no known kind, is reported all the same,
      with the old value and the event that happened to be there. */
  lemma FailedWakeup(value: int, w: Wakeup, k: nat, both: bool)
    requires w.SysfsWakeup? ==> w.reading < 0
    requires w.UapiWakeup? ==> w.reading != 0 && w.reading != 1
    ensures Answered(value, w).value == value && Told(k, Answered(value, w), both) == [Report(k, value, w.event)]
  {
  }

  /** A sysfs pin that watches both edges: its reports are the changes of the readings, and each reading
      that failed adds one. */
  lemma {:induction false} BothEdges(value: int, ws: seq<Wakeup>, k: nat)
    requires forall t :: 0 <= t < |ws| ==> ws[t].SysfsWakeup?
    ensures var v, c := Watched(value, ws, k, true), Changes(value, Good(Readings(ws)));
      && v.value == Last(value, Good(Readings(ws)))
      && |v.reports| == |c| + |ws| - |Good(Readings(ws))|
      && (|Good(Readings(ws))| == |ws| ==> v.reports == ReportsOf(k, c))
    decreases |ws|
  {
    hide Changes, Good, Last, Watched, Readings, ReportsOf;
    if ws == [] {
      NothingWatched(value, k, true);
    } else {
      var n := |ws| - 1;
      var x, good := ws[n].reading, Good(Readings(ws[..n]));
      BothEdges(value, ws[..n], k);
      WatchedSnoc(value, ws, k, true);
      ChangesSnoc(value, Readings(ws[..n]), x);
      ChangesSnoc(value, good, x);
      ReportsSnoc(k, Changes(value, good), x);
      assert good + [] == good;
    }
  }

  lemma NothingWatched(value: int, k: nat, both: bool)
    ensures Watched(value, [], k, both) == Watch(value, []) && Readings([]) == Good([]) == Changes(value, []) == []
    ensures ReportsOf(k, []) == [] && Last(value, []) == value
  {
  }

  lemma WatchedSnoc(value: int, ws: seq<Wakeup>, k: nat, both: bool)
    requires ws != []
    ensures var w, v := ws[|ws| - 1], Watched(value, ws[..|ws| - 1], k, both);
      var a := Answered(v.value, w);
      && Readings(ws) == Readings(ws[..|ws| - 1]) + [w.reading]
      && Watched(value, ws, k, both) == Watch(a.value, v.reports + Told(k, a, both))
  {
    hide Answered, Told;
  }

  /** So such a pin is reported with exactly its changes if and only if no reading failed. */
  lemma BothEdgesExactly(value: int, ws: seq<Wakeup>, k: nat)
    requires forall t :: 0 <= t < |ws| ==> ws[t].SysfsWakeup?
    ensures Watched(value, ws, k, true).reports == ReportsOf(k, Changes(value, Good(Readings(ws))))
       <==> forall t :: 0 <= t < |ws| ==> ws[t].reading >= 0
  {
    BothEdges(value, ws, k);
    AllGood(Readings(ws));
  }

  /** A sysfs pin that watches one edge is reported at every wakeup. Where no reading fails, its reports are
      its changes if and only if every reading is one. */
  lemma {:induction false} OneEdge(value: int, ws: seq<Wakeup>, k: nat)
    requires forall t :: 0 <= t < |ws| ==> ws[t].SysfsWakeup? && ws[t].reading >= 0
    ensures var v, c := Watched(value, ws, k, false), Changes(value, Readings(ws));
      && v.value == Last(value, Readings(ws))
      && |v.reports| == |ws| >= |c|
      && (v.reports == ReportsOf(k, c) <==> |c| == |ws|)
    decreases |ws|
  {
    hide Changes, Good, Last, Watched, Readings, ReportsOf;
    if ws == [] {
      NothingWatched(value, k, false);
    } else {
      var n := |ws| - 1;
      var x, c := ws[n].reading, Changes(value, Readings(ws[..n]));
      OneEdge(value, ws[..n], k);
      WatchedSnoc(value, ws, k, false);
      ChangesSnoc(value, Readings(ws[..n]), x);
      ReportsSnoc(k, c, x);
    }
  }

  /** A character-device pin is reported once for every edge record, with the value and event of the
      record, whatever it watches. */
  lemma {:induction false} EveryRecord(value: int, ws: seq<Wakeup>, k: nat, both: bool)
    requires forall t :: 0 <= t < |ws| ==> ws[t].UapiWakeup? && (ws[t].reading == 0 || ws[t].reading == 1)
    ensures Watched(value, ws, k, both) == Watch(Last(value, Readings(ws)), ReportsOf(k, Readings(ws)))
    decreases |ws|
  {
    hide Last, Watched, Readings, ReportsOf;
    if ws == [] {
      NothingWatched(value, k, both);
    } else {
      var n := |ws| - 1;
      EveryRecord(value, ws[..n], k, both);
      WatchedSnoc(value, ws, k, both);
      ChangesSnoc(value, Readings(ws[..n]), ws[n].reading);
      ReportsSnoc(k, Readings(ws[..n]), ws[n].reading);
    }
  }

  // ---------------------------------------------------------------- edges alternate and balance

  ghost predicate Binary(samples: seq<int>) {
    forall t :: 0 <= t < |samples| ==> samples[t] == 0 || samples[t] == 1
  }

  function CountEvents(changes: seq<int>, event: int): nat {
    if changes == [] then 0 else
      CountEvents(changes[..|changes| - 1], event) + if EventOf(changes[|changes| - 1]) == event then 1 else 0
  }

  /** The changes of a 0/1 stream alternate, the first differs from the initial value, and rising minus
      falling edges is final minus initial value. */
  lemma {:induction false} EdgesBalance(value: int, samples: seq<int>)
    requires Binary(samples) && (value == 0 || value == 1)
    ensures Balanced(value, Changes(value, samples), Last(value, samples))
    decreases |samples|
  {
    if samples != [] {
      var t := |samples| - 1;
      EdgesBalance(value, samples[..t]);
      BalancedSnoc(value, Changes(value, samples[..t]), Last(value, samples[..t]), samples[t]);
      hide Balanced;
    }
  }

  /** 0/1 edges that start away from `value`, alternate, and end at `last`. */
  ghost predicate Balanced(value: int, c: seq<int>, last: int) {
    && Binary(c) && (last == 0 || last == 1)
    && (c != [] ==> c[0] != value)
    && (forall i :: 1 <= i < |c| ==> EventOf(c[i]) != EventOf(c[i - 1]))
    && Last(value, c) == last
    && CountEvents(c, EVENT_RISING) - CountEvents(c, EVENT_FALLING) == last - value
  }

  lemma BalancedSnoc(value: int, c: seq<int>, last: int, x: int)
    requires Balanced(value, c, last) && (value == 0 || value == 1) && (x == 0 || x == 1)
    ensures Balanced(value, c + if x == last then [] else [x], x)
  {
    if x == last {
      assert c + [] == c;
    } else {
      assert (c + [x])[..|c|] == c;
    }
  }
}
