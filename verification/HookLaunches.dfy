/** How often a hook is started: the guards of a visit and the launches of a run, from the number that the
    hook's flags make, and from samples to launches. */
module HookLaunches {
  import opened Hooks
  import opened HookLife
  import opened EdgeStream
  import opened FlagBits

  /** The guards, by the number of the flags: 1 for rising, 2 for falling, 4 while no child is in progress,
      8 only once. */
  lemma WantsByNumber(h: HookState, event: int)
    ensures var n := Number(h.flags);
      Wants(h, event) <==>
        && ((event == EVENT_RISING && n % 2 == 1) || (event == EVENT_FALLING && n / 2 % 2 == 1))
        && (n / 4 % 2 == 1 ==> h.spawned == -1)
        && (n / 8 % 2 == 1 ==> h.fired <= 0)
  {
    hide Wants, Bit, Number;
    WantsByBits(h, event);
    BitsByNumber(h.flags);
  }

  lemma WantsByBits(h: HookState, event: int)
    ensures Wants(h, event) <==>
      && ((event == EVENT_RISING && Bit(h.flags, 1)) || (event == EVENT_FALLING && Bit(h.flags, 2)))
      && (Bit(h.flags, 4) ==> h.spawned == -1)
      && (Bit(h.flags, 8) ==> h.fired <= 0)
  {
  }

  /** One visit starts the hook exactly when its number says so and the fork succeeds; else nothing at all
      changes. */
  lemma VisitLaunches<H>(s: State<H>, h: H, event: int, exec: Exec)
    requires Possible(s, Visit(h, event, exec))
    ensures var t, n := Next(s, Visit(h, event, exec)), Number(s.hooks[h].flags);
      var edge := (event == EVENT_RISING && n % 2 == 1) || (event == EVENT_FALLING && n / 2 % 2 == 1);
      var free := (n / 4 % 2 == 1 ==> s.hooks[h].spawned == -1) && (n / 8 % 2 == 1 ==> s.hooks[h].fired <= 0);
      if edge && free && exec.Forked?
      then t.launches == s.launches + [h] && t.hooks == s.hooks[h := HookState(s.hooks[h].flags, 1, exec.pid)]
      else t == s
  {
    hide Wants, Number;
    WantsByNumber(s.hooks[h], event);
  }

  // ---------------------------------------------------------------- runs

  /** The events with which a run visits hook h. */
  function VisitsTo<H(==)>(steps: seq<Step<H>>, h: H): seq<int> {
    if steps == [] then [] else
      (if steps[0].Visit? && steps[0].hook == h then [steps[0].event] else []) + VisitsTo(steps[1..], h)
  }

  ghost predicate AllForked<H>(steps: seq<Step<H>>, h: H) {
    forall i :: 0 <= i < |steps| && steps[i].Visit? && steps[i].hook == h ==> steps[i].exec.Forked?
  }

  /** How often an event occurs. */
  function Times(events: seq<int>, event: int): nat {
    if events == [] then 0 else (if events[0] == event then 1 else 0) + Times(events[1..], event)
  }

  /** Hooks with these flags listen to rising edges (r) and falling edges (f), and nothing holds them back. */
  ghost predicate Listens(flags: bv16, r: bool, f: bool) {
    forall fired, spawned, event :: Wants(HookState(flags, fired, spawned), event) <==>
      (event == EVENT_RISING && r) || (event == EVENT_FALLING && f)
  }

  ghost function Heard(events: seq<int>, r: bool, f: bool): nat {
    (if r then Times(events, EVENT_RISING) else 0) + (if f then Times(events, EVENT_FALLING) else 0)
  }

  lemma HeardCons(event: int, events: seq<int>, r: bool, f: bool)
    ensures Heard([event] + events, r, f) == Heard([event], r, f) + Heard(events, r, f)
    ensures Heard([event], r, f) == if (event == EVENT_RISING && r) || (event == EVENT_FALLING && f) then 1 else 0
  {
    TimesCons(event, events);
    TimesCons(event, []);
    assert [event] + [] == [event];
    hide Times;
  }

  lemma TimesCons(x: int, events: seq<int>)
    ensures forall event :: Times([x] + events, event) == (if x == event then 1 else 0) + Times(events, event)
    ensures forall event :: Times([], event) == 0
  {
    assert ([x] + events)[1..] == events;
  }

  lemma HeardNothing(r: bool, f: bool)
    ensures Heard([], r, f) == 0
  {
  }

  lemma {:induction false} ListenerLaunches<H>(s: State<H>, steps: seq<Step<H>>, h: H, r: bool, f: bool)
    requires PossibleRun(s, steps) && AllForked(steps, h) && h in s.hooks && Listens(s.hooks[h].flags, r, f)
    ensures Count(End(s, steps).launches, h) == Count(s.launches, h) + Heard(VisitsTo(steps, h), r, f)
    decreases |steps|
  {
    hide Listens, Possible, Heard;
    HeardNothing(r, f);
    if steps != [] {
      ListenerStep(s, steps[0], h, r, f);
      assert AllForked(steps[1..], h) by {
        assert forall i :: 0 <= i < |steps[1..]| ==> steps[1..][i] == steps[i + 1];
      }
      ListenerLaunches(Next(s, steps[0]), steps[1..], h, r, f);
      if steps[0].Visit? && steps[0].hook == h {
        HeardCons(steps[0].event, VisitsTo(steps[1..], h), r, f);
      } else {
        assert VisitsTo(steps, h) == VisitsTo(steps[1..], h);
      }
    }
  }

  lemma ListenerStep<H>(s: State<H>, step: Step<H>, h: H, r: bool, f: bool)
    requires Possible(s, step) && h in s.hooks && Listens(s.hooks[h].flags, r, f)
    requires step.Visit? && step.hook == h ==> step.exec.Forked?
    ensures var t := Next(s, step);
      && h in t.hooks && t.hooks[h].flags == s.hooks[h].flags
      && Count(t.launches, h) == Count(s.launches, h) +
           if step.Visit? && step.hook == h then Heard([step.event], r, f) else 0
  {
    hide Wants;
    if step.Visit? {
      var g := s.hooks[h];
      assert g == HookState(g.flags, g.fired, g.spawned);
      CountSnoc(s.launches, step.hook, h);
      HeardCons(step.event, [], r, f);
    }
  }

  /** The launch law, for any flags without 4 and 8: if every launch succeeds, the hook is started once for
      every visit with a rising edge if its number is odd, and once for every visit with a falling edge if
      half its number is, whatever exits and signals come between. */
  lemma EdgeLaunches<H>(s: State<H>, steps: seq<Step<H>>, h: H)
    requires PossibleRun(s, steps) && AllForked(steps, h) && h in s.hooks
    requires Number(s.hooks[h].flags) / 4 % 2 == 0 && Number(s.hooks[h].flags) / 8 % 2 == 0
    ensures var n, visits := Number(s.hooks[h].flags), VisitsTo(steps, h);
      Count(End(s, steps).launches, h) == Count(s.launches, h)
        + (if n % 2 == 1 then Times(visits, EVENT_RISING) else 0)
        + (if n / 2 % 2 == 1 then Times(visits, EVENT_FALLING) else 0)
  {
    var flags := s.hooks[h].flags;
    var n := Number(flags);
    FlagsListen(flags);
    hide Number, Listens, PossibleRun, End;
    ListenerLaunches(s, steps, h, n % 2 == 1, n / 2 % 2 == 1);
  }

  lemma FlagsListen(flags: bv16)
    requires Number(flags) / 4 % 2 == 0 && Number(flags) / 8 % 2 == 0
    ensures Listens(flags, Number(flags) % 2 == 1, Number(flags) / 2 % 2 == 1)
  {
    hide Wants, Number;
    forall fired, spawned, event
      ensures Wants(HookState(flags, fired, spawned), event) <==>
        (event == EVENT_RISING && Number(flags) % 2 == 1) || (event == EVENT_FALLING && Number(flags) / 2 % 2 == 1)
    {
      WantsByNumber(HookState(flags, fired, spawned), event);
    }
  }

  /** A hook with the flags of EDGE_BOTH is started once for every visit with either edge. */
  lemma BothLaunches<H>(s: State<H>, steps: seq<Step<H>>, h: H)
    requires PossibleRun(s, steps) && AllForked(steps, h) && h in s.hooks && s.hooks[h].flags == 3
    requires forall i :: 0 <= i < |VisitsTo(steps, h)| ==> VisitsTo(steps, h)[i] in {EVENT_RISING, EVENT_FALLING}
    ensures Count(End(s, steps).launches, h) == Count(s.launches, h) + |VisitsTo(steps, h)|
  {
    SmallNumber(3);
    EdgeLaunches(s, steps, h);
    TimesAll(VisitsTo(steps, h));
    hide PossibleRun, End;
  }

  lemma {:induction false} TimesAll(events: seq<int>)
    requires forall i :: 0 <= i < |events| ==> events[i] in {EVENT_RISING, EVENT_FALLING}
    ensures Times(events, EVENT_RISING) + Times(events, EVENT_FALLING) == |events|
  {
    if events != [] {
      TimesAll(events[1..]);
    }
  }

  // ---------------------------------------------------------------- from samples to launches

  function Events(reports: seq<Report>): (r: seq<int>)
    ensures |r| == |reports| && forall i :: 0 <= i < |r| ==> r[i] == reports[i].event
  {
    if reports == [] then [] else [reports[0].event] + Events(reports[1..])
  }

  lemma {:induction false} TimesSnoc(events: seq<int>, x: int, event: int)
    ensures Times(events + [x], event) == Times(events, event) + if x == event then 1 else 0
  {
    if events != [] {
      assert (events + [x])[1..] == events[1..] + [x];
      TimesSnoc(events[1..], x, event);
    }
  }

  lemma {:induction false} EventsOfChanges(k: nat, changes: seq<int>, event: int)
    ensures Times(Events(ReportsOf(k, changes)), event) == CountEvents(changes, event)
  {
    if changes != [] {
      var n := |changes| - 1;
      EventsOfChanges(k, changes[..n], event);
      var r := ReportsOf(k, changes);
      assert Events(r) == Events(ReportsOf(k, changes[..n])) + [EventOf(changes[n])];
      TimesSnoc(Events(ReportsOf(k, changes[..n])), EventOf(changes[n]), event);
    }
  }

  /** The reports of a 0/1 pin: rising minus falling events is the final value minus the initial one. */
  lemma ReportsBalance(values: seq<int>, rounds: seq<Round>, k: nat)
    requires Fits(rounds, |values|) && k < |values|
    requires Binary(Column(rounds, k)) && (values[k] == 0 || values[k] == 1)
    ensures var events := Events(About(Stream(values, rounds).reports, k));
      Times(events, EVENT_RISING) - Times(events, EVENT_FALLING) == Stream(values, rounds).values[k] - values[k]
  {
    hide Stream, Swept, About, Changes;
    var col := Column(rounds, k);
    assert forall t :: 0 <= t < |rounds| ==> col[t] == rounds[t].samples[k];
    StreamIsChanges(values, rounds, k);
    EdgesBalance(values[k], col);
    EventsOfChanges(k, Changes(values[k], col), EVENT_RISING);
    EventsOfChanges(k, Changes(values[k], col), EVENT_FALLING);
  }

  /** When every report about a 0/1 pin reaches one hook for rising and one for falling edges, and every
      launch succeeds, rising launches minus falling launches is the final value minus the initial one. */
  lemma LaunchBalance<H>(values: seq<int>, rounds: seq<Round>, k: nat, s: State<H>, steps: seq<Step<H>>, up: H,
                         down: H)
    requires Fits(rounds, |values|) && k < |values|
    requires Binary(Column(rounds, k)) && (values[k] == 0 || values[k] == 1)
    requires PossibleRun(s, steps) && s.launches == []
    requires up in s.hooks && s.hooks[up].flags == 1 && AllForked(steps, up)
    requires down in s.hooks && s.hooks[down].flags == 2 && AllForked(steps, down)
    requires VisitsTo(steps, up) == VisitsTo(steps, down) == Events(About(Stream(values, rounds).reports, k))
    ensures Count(End(s, steps).launches, up) - Count(End(s, steps).launches, down)
         == Stream(values, rounds).values[k] - values[k]
  {
    hide *;
    ReportsBalance(values, rounds, k);
    OneEdgeLaunches(s, steps, up);
    OneEdgeLaunches(s, steps, down);
    NoneYet(s.launches, up);
    NoneYet(s.launches, down);
  }

  lemma NoneYet<H>(launches: seq<H>, h: H)
    requires launches == []
    ensures Count(launches, h) == 0
  {
  }

  lemma OneEdgeLaunches<H>(s: State<H>, steps: seq<Step<H>>, h: H)
    requires PossibleRun(s, steps) && AllForked(steps, h) && h in s.hooks && s.hooks[h].flags in [1, 2]
    ensures Count(End(s, steps).launches, h) == Count(s.launches, h)
      + Times(VisitsTo(steps, h), if s.hooks[h].flags == 1 then EVENT_RISING else EVENT_FALLING)
  {
    SmallNumber(s.hooks[h].flags);
    hide *;
    EdgeLaunches(s, steps, h);
  }
}
