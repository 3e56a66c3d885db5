/** From a hook tab to a running dispatcher: what loading leaves is a state the state machine starts from,
    and what is written on a line decides how often its hook is started. */
module HookBoot {
  import opened Hooks
  import opened HookLife
  import opened HookTab
  import opened HookTabMods
  import opened HookTabFacts
  import opened HookLaunches
  import FlagBits
  import opened HookDispatch

  ghost function AllHooks(pins: seq<PinTab>): set<Hook>
    reads pins
  {
    set k, h | 0 <= k < |pins| && h in pins[k].hooks :: h
  }

  /** Every hook idle, nothing listed, no child yet. */
  ghost function Fresh(hooks: set<Hook>): State<Hook> {
    State(map h | h in hooks :: HookState(h.flags, 0, -1), map[], {}, {}, map[], [])
  }

  lemma FreshStart(pins: seq<PinTab>)
    requires forall k, h :: 0 <= k < |pins| && h in pins[k].hooks ==> Idle(h)
    ensures var s := Fresh(AllHooks(pins));
      Init(s) && s.hooks.Keys == AllHooks(pins) && forall h :: h in s.hooks ==> h.Snapshot() == s.hooks[h]
  {
    var hooks := AllHooks(pins);
    forall h | h in hooks
      ensures Idle(h)
    {
      var k :| 0 <= k < |pins| && h in pins[k].hooks;
    }
  }

  lemma WholeTexts(before: seq<Hook>, after: seq<Hook>, texts: seq<Text>)
    requires before == [] && Extends(after, before, texts)
    ensures Texts(after) == texts
  {
    assert after[0..] == after;
  }

  /** loadTabs and then the dispatcher: if the tab is safe to read, the dispatcher starts out valid, with
      exactly the hooks the tab describes. */
  method Boot(lines: seq<string>, pins: seq<PinTab>, hash: int -> nat) returns (safe: bool, d: Dispatcher?)
    requires forall i, j :: 0 <= i < j < |pins| ==> pins[i] != pins[j]
    requires forall k :: 0 <= k < |pins| ==> pins[k].hooks == []
    modifies pins
    ensures safe <==> forall n :: 0 <= n < |lines| ==> ParseLine(lines[n], Labels(pins)) != Unsafe
    ensures safe <==> d != null
    ensures safe ==> fresh(d) && d.Valid() && Init(d.s) && d.s.hooks.Keys == AllHooks(pins)
    ensures safe ==> forall k :: 0 <= k < |pins| ==> Texts(pins[k].hooks) == TextsFor(lines, Labels(pins), k)
  {
    hide *;
    safe := LoadTab(lines, pins);
    d := null;
    if safe {
      forall k | 0 <= k < |pins|
        ensures Texts(pins[k].hooks) == TextsFor(lines, Labels(pins), k)
      {
        WholeTexts([], pins[k].hooks, TextsFor(lines, Labels(pins), k));
      }
      FreshStart(pins);
      d := new Dispatcher(hash, Fresh(AllHooks(pins)));
    }
  }

  /** From a printed line to launches: without NO_LOOP on the line, and if every launch succeeds, its hook is
      started once for every visit with a rising edge if EDGE_RISING or EDGE_BOTH stands on the line, and
      once for every visit with a falling edge if EDGE_FALLING or EDGE_BOTH does. */
  lemma LineToLaunches<H>(l: LineText, labels: seq<string>, pin: nat, s: State<H>, steps: seq<Step<H>>, h: H)
    requires LineFor(l, labels, pin)
    requires forall k :: 0 <= k < |l.mods| ==> FourNames(l.mods[k].word) && l.mods[k].word != "NO_LOOP"
    requires ParseLine(Print(l), labels).Hooked? ==>
      h in s.hooks && s.hooks[h].flags == ParseLine(Print(l), labels).text.flags
    requires PossibleRun(s, steps) && AllForked(steps, h)
    ensures ParseLine(Print(l), labels).Hooked?
    ensures Count(End(s, steps).launches, h) == Count(s.launches, h)
      + (if Occurs(l.mods, "EDGE_RISING") || Occurs(l.mods, "EDGE_BOTH")
         then Times(VisitsTo(steps, h), EVENT_RISING) else 0)
      + (if Occurs(l.mods, "EDGE_FALLING") || Occurs(l.mods, "EDGE_BOTH")
         then Times(VisitsTo(steps, h), EVENT_FALLING) else 0)
  {
    hide *;
    NoLoopAbsent(l.mods);
    NamesBack(l, labels, pin);
    var n := FlagBits.Number(ParseLine(Print(l), labels).text.flags);
    var rises := Occurs(l.mods, "EDGE_RISING") || Occurs(l.mods, "EDGE_BOTH");
    var falls := Occurs(l.mods, "EDGE_FALLING") || Occurs(l.mods, "EDGE_BOTH");
    TwoDigits(n, rises, falls);
    EdgeLaunches(s, steps, h);
  }

  lemma TwoDigits(n: nat, r: bool, f: bool)
    requires n == (if r then 1 else 0) + (if f then 2 else 0)
    ensures (n % 2 == 1 <==> r) && (n / 2 % 2 == 1 <==> f) && n / 4 % 2 == 0 && n / 8 % 2 == 0
  {
  }

  lemma NoLoopAbsent(mods: seq<ModText>)
    requires forall k :: 0 <= k < |mods| ==> mods[k].word != "NO_LOOP"
    ensures !Occurs(mods, "NO_LOOP")
  {
  }
}
