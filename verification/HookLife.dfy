/** The life of hooks and their children as a state machine: edge events, fork, child exit and SIGCHLD
    interleave in any order, and the kernel is the environment. */
module HookLife {
  import opened Hooks

  predicate NoLoop(h: HookState) { h.flags & NO_LOOP != 0 }

  predicate OneShot(h: HookState) { h.flags & ONESHOT != 0 }

  predicate Reacts(h: HookState, event: int) {
    if event == EVENT_RISING then h.flags & RISE != 0
    else if event == EVENT_FALLING then h.flags & FALL != 0
    else false
  }

  /** The three guards of dispatch_hooks. */
  predicate Wants(h: HookState, event: int) {
    && !(NoLoop(h) && h.spawned != -1)
    && !(OneShot(h) && h.fired > 0)
    && Reacts(h, event)
  }

  /** `hooks` and `pidList` belong to the daemon, `live` and `zombies` (terminated but not yet waited
      for) to the kernel. `owner` and `launches` are history: who started each child the kernel still
      knows, and which hooks were started, in order. */
  datatype State<H(==)> = State(
    hooks: map<H, HookState>,
    pidList: map<int, H>,
    live: set<int>,
    zombies: set<int>,
    owner: map<int, H>,
    launches: seq<H>)

  datatype Exec = Failed | Forked(pid: int)

  datatype Step<H(==)> =
    | Visit(hook: H, event: int, exec: Exec)
    | ChildExit(pid: int)
    | Sigchld(pid: int)

  /** What is assumed of the kernel: fork returns a positive pid that no unreaped child has, and only
      live children exit. A SIGCHLD may name any process, and may come late, twice or never. */
  ghost predicate Possible<H>(s: State<H>, step: Step<H>) {
    match step
    case Visit(h, event, exec) =>
      && h in s.hooks
      && (Wants(s.hooks[h], event) && exec.Forked? ==> exec.pid > 0 && exec.pid !in s.live + s.zombies)
    case ChildExit(p) => p in s.live
    case Sigchld(p) => true
  }

  /** waitpid with WNOHANG: -1 for no child of ours, 0 for one that has not terminated. */
  function WaitPid<H>(s: State<H>, pid: int): int {
    if pid in s.zombies then pid else if pid in s.live then 0 else -1
  }

  /** hook_clear_spawned */
  function Cleared<H>(s: State<H>, pid: int): State<H> {
    if pid !in s.pidList || s.pidList[pid] !in s.hooks then s else
      var h := s.pidList[pid];
      s.(hooks := s.hooks[h := s.hooks[h].(spawned := -1)], pidList := s.pidList - {pid})
  }

  function Launched<H>(s: State<H>, h: H, pid: int): State<H>
    requires h in s.hooks
  {
    s.(hooks := s.hooks[h := s.hooks[h].(spawned := pid, fired := 1)],
       pidList := s.pidList[pid := h],
       live := s.live + {pid},
       owner := s.owner[pid := h],
       launches := s.launches + [h])
  }

  function Reaped<H>(s: State<H>, pid: int): State<H> {
    if pid in s.zombies then s.(zombies := s.zombies - {pid}, owner := s.owner - {pid}) else s
  }

  function Next<H>(s: State<H>, step: Step<H>): State<H> {
    match step
    case Visit(h, event, exec) =>
      if h in s.hooks && Wants(s.hooks[h], event) && exec.Forked? then Launched(s, h, exec.pid) else s
    case ChildExit(p) =>
      s.(live := s.live - {p}, zombies := s.zombies + {p})
    case Sigchld(p) =>
      if WaitPid(s, p) != -1 then Cleared(Reaped(s, p), p) else s
  }

  ghost predicate PossibleRun<H>(s: State<H>, steps: seq<Step<H>>)
    decreases |steps|
  {
    steps == [] || (Possible(s, steps[0]) && PossibleRun(Next(s, steps[0]), steps[1..]))
  }

  ghost function End<H>(s: State<H>, steps: seq<Step<H>>): State<H>
    decreases |steps|
  {
    if steps == [] then s else End(Next(s, steps[0]), steps[1..])
  }

  lemma RunCons<H>(s: State<H>, a: Step<H>, rest: seq<Step<H>>)
    ensures End(s, [a] + rest) == End(Next(s, a), rest)
    ensures PossibleRun(s, [a] + rest) <==> Possible(s, a) && PossibleRun(Next(s, a), rest)
  {
    assert ([a] + rest)[1..] == rest;
  }

  ghost function Count<H>(s: seq<H>, h: H): nat {
    if s == [] then 0 else (if s[|s| - 1] == h then 1 else 0) + Count(s[..|s| - 1], h)
  }

  // ---------------------------------------------------------------- what every step keeps

  /** Every pid on pid_list belongs to an unreaped child that its hook started. */
  ghost predicate PidsUnreaped<H>(s: State<H>) {
    && s.live !! s.zombies
    && (forall p :: p in s.pidList ==> p > 0 && p in s.owner && s.owner[p] == s.pidList[p])
    && (forall p :: p in s.owner ==> p in s.live + s.zombies && s.owner[p] in s.hooks)
  }

  /** A hook in progress is on pid_list under the pid it remembers; a NO_LOOP hook under no other. */
  ghost predicate SpawnedListed<H>(s: State<H>) {
    && (forall h :: h in s.hooks && s.hooks[h].spawned != -1 ==>
          s.hooks[h].spawned in s.pidList && s.pidList[s.hooks[h].spawned] == h)
    && (forall p :: p in s.pidList && s.pidList[p] in s.hooks && NoLoop(s.hooks[s.pidList[p]]) ==>
          s.hooks[s.pidList[p]].spawned == p)
  }

  /** `fired` records exactly whether the hook was ever started, and ONESHOT hooks start once. */
  ghost predicate FiredCounts<H>(s: State<H>) {
    forall h :: h in s.hooks ==>
      && s.hooks[h].fired == (if Count(s.launches, h) > 0 then 1 else 0)
      && (OneShot(s.hooks[h]) ==> Count(s.launches, h) <= 1)
  }

  ghost predicate Inv<H>(s: State<H>) {
    PidsUnreaped(s) && SpawnedListed(s) && FiredCounts(s)
  }

  /** Tabs freshly loaded: nothing fired, nothing spawned; the daemon may have unrelated children. */
  ghost predicate Init<H>(s: State<H>) {
    && s.pidList == map[] && s.owner == map[] && s.launches == [] && s.live !! s.zombies
    && forall h :: h in s.hooks ==> s.hooks[h].fired == 0 && s.hooks[h].spawned == -1
  }

  lemma CountSnoc<H>(s: seq<H>, x: H, h: H)
    ensures Count(s + [x], h) == Count(s, h) + if x == h then 1 else 0
  {
    assert (s + [x])[..|s|] == s;
  }

  lemma LaunchKeepsInv<H>(s: State<H>, h: H, event: int, pid: int)
    requires Inv(s) && h in s.hooks && Wants(s.hooks[h], event) && pid > 0 && pid !in s.live + s.zombies
    ensures Inv(Launched(s, h, pid)) && pid !in s.pidList
  {
    assert pid !in s.owner && pid !in s.pidList;
    forall g | g in s.hooks
      ensures Count(s.launches + [h], g) == Count(s.launches, g) + if h == g then 1 else 0
    {
      CountSnoc(s.launches, h, g);
    }
  }

  lemma StepKeepsInv<H>(s: State<H>, step: Step<H>)
    requires Inv(s) && Possible(s, step)
    ensures Inv(Next(s, step))
  {
    match step
    case Visit(h, event, exec) =>
      if Wants(s.hooks[h], event) && exec.Forked? {
        LaunchKeepsInv(s, h, event, exec.pid);
      }
    case ChildExit(p) =>
      ExitKeepsInv(s, p);
    case Sigchld(p) =>
      SignalKeepsInv(s, p);
  }

  lemma ExitKeepsInv<H>(s: State<H>, p: int)
    requires Inv(s) && p in s.live
    ensures Inv(Next(s, ChildExit(p)))
  {
    hide SpawnedListed, FiredCounts;
    SameDaemon(s, Next(s, ChildExit(p)));
  }

  lemma SameDaemon<H>(s: State<H>, t: State<H>)
    requires SpawnedListed(s) && FiredCounts(s)
    requires t.hooks == s.hooks && t.pidList == s.pidList && t.launches == s.launches
    ensures SpawnedListed(t) && FiredCounts(t)
  {
  }

  lemma SignalKeepsInv<H>(s: State<H>, p: int)
    requires Inv(s)
    ensures Inv(Next(s, Sigchld(p)))
    ensures WaitPid(s, p) != -1 ==>
      && Next(s, Sigchld(p)).hooks == Cleared(s, p).hooks
      && Next(s, Sigchld(p)).pidList == Cleared(s, p).pidList
  {
    if WaitPid(s, p) != -1 {
      ClearKeepsInv(s, p);
      ReapedCleared(s, p);
      hide Inv, Cleared;
      ReapKeepsInv(Cleared(s, p), p);
    }
  }

  lemma ReapedCleared<H>(s: State<H>, p: int)
    ensures Cleared(Reaped(s, p), p) == Reaped(Cleared(s, p), p)
  {
  }

  lemma ReapKeepsInv<H>(s: State<H>, p: int)
    requires Inv(s) && p !in s.pidList
    ensures Inv(Reaped(s, p))
  {
    hide SpawnedListed, FiredCounts;
    SameDaemon(s, Reaped(s, p));
  }

  lemma ClearKeepsInv<H>(s: State<H>, pid: int)
    requires Inv(s)
    ensures Inv(Cleared(s, pid)) && pid !in Cleared(s, pid).pidList
    ensures pid in s.pidList ==>
      && s.pidList[pid] in s.hooks
      && Cleared(s, pid).pidList == s.pidList - {pid}
      && Cleared(s, pid).hooks == s.hooks[s.pidList[pid] := s.hooks[s.pidList[pid]].(spawned := -1)]
  {
  }

  lemma {:induction false} RunKeepsInv<H>(s: State<H>, steps: seq<Step<H>>)
    requires Inv(s) && PossibleRun(s, steps)
    ensures Inv(End(s, steps))
    decreases |steps|
  {
    if steps != [] {
      StepKeepsInv(s, steps[0]);
      RunKeepsInv(Next(s, steps[0]), steps[1..]);
    }
  }

  /** Over every run, whatever SIGCHLDs are lost, merged or repeated: pid_list only holds unreaped
      children, a hook in progress is listed under its pid, a NO_LOOP hook has exactly the entry its
      `spawned` names, and a launch never meets a pid that is already listed. */
  lemma RunFromStart<H>(s: State<H>, steps: seq<Step<H>>)
    requires Init(s) && PossibleRun(s, steps)
    ensures var e := End(s, steps);
      && (forall p :: p in e.pidList ==> p in e.live + e.zombies)
      && (forall h :: h in e.hooks && e.hooks[h].spawned != -1 ==>
            e.hooks[h].spawned in e.pidList && e.pidList[e.hooks[h].spawned] == h)
      && (forall h :: h in e.hooks && NoLoop(e.hooks[h]) ==>
            Entries(e, h) == if e.hooks[h].spawned == -1 then {} else {e.hooks[h].spawned})
      && (forall h, event, pid :: Possible(e, Visit(h, event, Forked(pid))) && Wants(e.hooks[h], event) ==>
            pid !in e.pidList)
  {
    RunKeepsInv(s, steps);
    var e := End(s, steps);
    forall h | h in e.hooks && NoLoop(e.hooks[h])
      ensures Entries(e, h) == if e.hooks[h].spawned == -1 then {} else {e.hooks[h].spawned}
    {
      OneEntry(e, h);
    }
  }

  lemma OneEntry<H>(s: State<H>, h: H)
    requires Inv(s) && h in s.hooks && NoLoop(s.hooks[h])
    ensures Entries(s, h) == if s.hooks[h].spawned == -1 then {} else {s.hooks[h].spawned}
  {
    forall p | p in Entries(s, h)
      ensures p == s.hooks[h].spawned && p != -1
    {
      assert p in s.pidList && s.pidList[p] == h;
    }
  }

  /** The pids under which a hook is listed. */
  ghost function Entries<H>(s: State<H>, h: H): set<int> {
    set p | p in s.pidList && s.pidList[p] == h
  }

  // ---------------------------------------------------------------- exits during a dispatch

  /** A child that exits before a visit might as well exit after it. */
  lemma ExitCommutes<H>(s: State<H>, p: int, visit: Step<H>)
    requires PidsUnreaped(s) && visit.Visit?
    requires Possible(s, ChildExit(p)) && Possible(Next(s, ChildExit(p)), visit)
    ensures Possible(s, visit) && Possible(Next(s, visit), ChildExit(p))
    ensures Next(Next(s, ChildExit(p)), visit) == Next(Next(s, visit), ChildExit(p))
  {
    var h, event, exec := visit.hook, visit.event, visit.exec;
    if Wants(s.hooks[h], event) && exec.Forked? {
      assert exec.pid !in s.live + s.zombies;
      assert (s.live - {p}) + {exec.pid} == (s.live + {exec.pid}) - {p};
    }
  }

  ghost function VisitsOf<H>(steps: seq<Step<H>>): seq<Step<H>> {
    if steps == [] then [] else (if steps[0].Visit? then [steps[0]] else []) + VisitsOf(steps[1..])
  }

  ghost function ExitsOf<H>(steps: seq<Step<H>>): seq<Step<H>> {
    if steps == [] then [] else (if steps[0].ChildExit? then [steps[0]] else []) + ExitsOf(steps[1..])
  }

  lemma {:induction false} ExitPastVisits<H>(s: State<H>, p: int, vs: seq<Step<H>>, rest: seq<Step<H>>)
    requires Inv(s) && Possible(s, ChildExit(p)) && PossibleRun(Next(s, ChildExit(p)), vs + rest)
    requires forall k :: 0 <= k < |vs| ==> vs[k].Visit?
    ensures PossibleRun(s, vs + ([ChildExit(p)] + rest))
    ensures End(s, vs + ([ChildExit(p)] + rest)) == End(Next(s, ChildExit(p)), vs + rest)
    decreases |vs|
  {
    hide Next, Possible, Inv, PossibleRun, End;
    var exit: Step<H> := ChildExit(p);
    var tail := [exit] + rest;
    if vs == [] {
      assert vs + tail == tail && vs + rest == rest;
      RunCons(s, exit, rest);
    } else {
      var v, vs' := vs[0], vs[1..];
      assert vs + rest == [v] + (vs' + rest) && vs + tail == [v] + (vs' + tail);
      RunCons(Next(s, exit), v, vs' + rest);
      SwapFacts(s, p, v);
      RunCons(s, v, vs' + tail);
      ExitPastVisits(Next(s, v), p, vs', rest);
    }
  }

  lemma SwapFacts<H>(s: State<H>, p: int, visit: Step<H>)
    requires Inv(s) && visit.Visit?
    requires Possible(s, ChildExit(p)) && Possible(Next(s, ChildExit(p)), visit)
    ensures Possible(s, visit) && Possible(Next(s, visit), ChildExit(p)) && Inv(Next(s, visit))
    ensures Next(Next(s, ChildExit(p)), visit) == Next(Next(s, visit), ChildExit(p))
  {
    ExitCommutes(s, p, visit);
    hide Next, Possible, Inv;
    StepKeepsInv(s, visit);
  }

  /** Whatever children exit while hooks are being visited, the run ends where it would have ended had all
      visits come first, in their order, and the exits then. */
  lemma {:induction false} ExitsLast<H>(s: State<H>, steps: seq<Step<H>>)
    requires Inv(s) && PossibleRun(s, steps) && forall k :: 0 <= k < |steps| ==> !steps[k].Sigchld?
    ensures PossibleRun(s, VisitsOf(steps) + ExitsOf(steps))
    ensures End(s, VisitsOf(steps) + ExitsOf(steps)) == End(s, steps)
    decreases |steps|
  {
    if steps == [] {
      assert VisitsOf(steps) + ExitsOf(steps) == steps;
    } else {
      hide *;
      var a, rest := steps[0], steps[1..];
      var vs, xs := VisitsOf(rest), ExitsOf(rest);
      assert steps == [a] + rest;
      RunCons(s, a, rest);
      SharesCons(a, rest);
      StepKeepsInv(s, a);
      ExitsLast(Next(s, a), rest);
      VisitsAre(rest);
      if a.Visit? {
        RunCons(s, a, vs + xs);
      } else {
        ExitPastVisits(s, a.pid, vs, xs);
      }
    }
  }

  lemma SharesCons<H>(a: Step<H>, rest: seq<Step<H>>)
    ensures var vs, xs := VisitsOf(rest), ExitsOf(rest);
      && (a.Visit? ==> VisitsOf([a] + rest) + ExitsOf([a] + rest) == [a] + (vs + xs))
      && (a.ChildExit? ==> VisitsOf([a] + rest) + ExitsOf([a] + rest) == vs + ([a] + xs))
  {
    assert ([a] + rest)[1..] == rest;
  }

  lemma {:induction false} VisitsAre<H>(steps: seq<Step<H>>)
    ensures forall k :: 0 <= k < |VisitsOf(steps)| ==> VisitsOf(steps)[k].Visit?
  {
    if steps != [] {
      VisitsAre(steps[1..]);
    }
  }

  // ---------------------------------------------------------------- ONESHOT

  lemma FiredStep<H>(s: State<H>, step: Step<H>, h: H)
    requires Inv(s) && Possible(s, step) && h in s.hooks
    ensures var t := Next(s, step);
      h in t.hooks && s.hooks[h].fired <= t.hooks[h].fired && t.hooks[h].flags == s.hooks[h].flags
    ensures s.hooks[h].fired <= 1
  {
    hide PidsUnreaped, SpawnedListed, Wants, WaitPid;
  }

  lemma {:induction false} FiredStays<H>(s: State<H>, steps: seq<Step<H>>, h: H)
    requires Inv(s) && PossibleRun(s, steps) && h in s.hooks
    ensures h in End(s, steps).hooks && s.hooks[h].fired <= End(s, steps).hooks[h].fired <= 1
    ensures End(s, steps).hooks[h].flags == s.hooks[h].flags
    decreases |steps|
  {
    hide Inv, Next, Possible;
    if steps == [] {
      SignalPossible(s);
      FiredStep(s, Sigchld(0), h);
    } else {
      FiredStep(s, steps[0], h);
      StepKeepsInv(s, steps[0]);
      FiredStays(Next(s, steps[0]), steps[1..], h);
    }
  }

  lemma SignalPossible<H>(s: State<H>)
    ensures Possible(s, Sigchld(0))
  {
  }

  /** A ONESHOT hook is started at most once, `fired` says whether it was, and so launches that failed
      do not use it up. */
  lemma OneShotOnce<H>(s: State<H>, steps: seq<Step<H>>, h: H)
    requires Init(s) && PossibleRun(s, steps) && h in s.hooks
    ensures var e := End(s, steps);
      && h in e.hooks && e.hooks[h].flags == s.hooks[h].flags
      && (OneShot(s.hooks[h]) ==> Count(e.launches, h) <= 1)
      && (e.hooks[h].fired == 0 <==> Count(e.launches, h) == 0)
  {
    RunKeepsInv(s, steps);
    FiredStays(s, steps, h);
  }

  // ---------------------------------------------------------------- signals

  /** All that a signal does: a terminated child is reaped, and whoever is listed under the pid is taken off
      the list, its hook no longer in progress. */
  lemma SignalEffect<H>(s: State<H>, p: int)
    requires Inv(s) && p > 0
    ensures var t := Next(s, Sigchld(p));
      && t.live == s.live && t.zombies == s.zombies - {p} && t.launches == s.launches
      && t.owner == (if p in s.zombies then s.owner - {p} else s.owner)
      && t.pidList == s.pidList - {p}
      && (p !in s.pidList ==> t.hooks == s.hooks)
      && (p in s.pidList ==>
            var h := s.pidList[p]; h in s.hooks && t.hooks == s.hooks[h := s.hooks[h].(spawned := -1)])
  {
    hide SpawnedListed, FiredCounts;
    assert p !in s.pidList ==> s.pidList - {p} == s.pidList;
    assert p !in s.zombies ==> s.zombies - {p} == s.zombies;
  }

  // ---------------------------------------------------------------- NO_LOOP

  /** The children of a hook that are still running. */
  ghost function LiveChildren<H>(s: State<H>, h: H): set<int> {
    set p | p in s.owner && s.owner[p] == h && p in s.live
  }

  ghost predicate Exclusive<H>(s: State<H>, h: H) {
    forall p, q :: p in LiveChildren(s, h) && q in LiveChildren(s, h) ==> p == q
  }

  /** No running child of the hook has been forgotten. */
  ghost predicate Tracked<H>(s: State<H>, h: H) {
    forall p :: p in LiveChildren(s, h) ==> p in s.pidList
  }

  /** A hook that no event will start again. */
  ghost predicate Dormant(h: HookState) {
    (OneShot(h) && h.fired > 0) || !(Reacts(h, EVENT_RISING) || Reacts(h, EVENT_FALLING))
  }

  /** The step is a SIGCHLD that names a running child listed for the hook. */
  ghost predicate Forgets<H>(s: State<H>, step: Step<H>, h: H) {
    step.Sigchld? && step.pid in s.live && step.pid in s.pidList && s.pidList[step.pid] == h
  }

  /** For this hook, SIGCHLD means terminated: no step of the run is a signal for a running child of it. */
  ghost predicate Truthful<H>(s: State<H>, steps: seq<Step<H>>, h: H)
    decreases |steps|
  {
    steps == [] || (!Forgets(s, steps[0], h) && Truthful(Next(s, steps[0]), steps[1..], h))
  }

  /** One signal forgets a running child exactly when it names one that is listed for the hook: the
      guard at fault is `waitpid(...) != -1`, which 0 passes. */
  lemma SignalForgets<H>(s: State<H>, h: H, p: int)
    requires Inv(s) && Tracked(s, h)
    ensures Tracked(Next(s, Sigchld(p)), h) <==> !Forgets(s, Sigchld(p), h)
  {
    if Forgets(s, Sigchld(p), h) {
      assert p in LiveChildren(Next(s, Sigchld(p)), h);
    }
  }

  ghost predicate Safe<H>(s: State<H>, h: H) {
    h in s.hooks && NoLoop(s.hooks[h]) && Exclusive(s, h) && (Tracked(s, h) || Dormant(s.hooks[h]))
  }

  lemma StepKeepsSafe<H>(s: State<H>, step: Step<H>, h: H)
    requires Inv(s) && Possible(s, step) && Safe(s, h)
    requires !Forgets(s, step, h)
    ensures Safe(Next(s, step), h)
  {
    hide *;
    match step
    case Visit(_, _, _) => VisitKeepsSafe(s, step, h);
    case ChildExit(p) => ExitKeepsSafe(s, p, h);
    case Sigchld(p) => SignalKeepsSafe(s, p, h);
  }

  lemma ExitKeepsSafe<H>(s: State<H>, p: int, h: H)
    requires Safe(s, h)
    ensures Safe(Next(s, ChildExit(p)), h)
  {
    assert forall q :: q in LiveChildren(Next(s, ChildExit(p)), h) ==> q in LiveChildren(s, h);
  }

  lemma SignalKeepsSafe<H>(s: State<H>, p: int, h: H)
    requires Inv(s) && Safe(s, h) && !Forgets(s, Sigchld(p), h)
    ensures Safe(Next(s, Sigchld(p)), h)
  {
    hide SpawnedListed, FiredCounts;
    assert forall q :: q in LiveChildren(Next(s, Sigchld(p)), h) ==> q in LiveChildren(s, h);
  }

  lemma VisitKeepsSafe<H>(s: State<H>, step: Step<H>, h: H)
    requires Inv(s) && Possible(s, step) && Safe(s, h) && step.Visit?
    ensures Safe(Next(s, step), h)
  {
    var g, exec := step.hook, step.exec;
    if Wants(s.hooks[g], step.event) && exec.Forked? {
      if g == h {
        NoChildren(s, h);
      }
      NewChild(s, step);
      assert forall p :: p in LiveChildren(Next(s, step), h) ==> p in LiveChildren(s, h) || (g == h && p == exec.pid);
    }
  }

  /** What a launch adds: a child with a new pid. */
  lemma NewChild<H>(s: State<H>, step: Step<H>)
    requires Inv(s) && Possible(s, step)
    requires step.Visit? && Wants(s.hooks[step.hook], step.event) && step.exec.Forked?
    ensures step.exec.pid !in s.owner && step.exec.pid !in s.live
  {
  }

  /** A NO_LOOP hook that an event can start has no running child, or has lost track of it. */
  lemma NoChildren<H>(s: State<H>, h: H)
    requires Inv(s) && h in s.hooks && NoLoop(s.hooks[h]) && s.hooks[h].spawned == -1 && Tracked(s, h)
    ensures forall p :: p !in LiveChildren(s, h)
  {
    OneEntry(s, h);
    assert forall p :: p in LiveChildren(s, h) ==> p in Entries(s, h);
  }

  lemma {:induction false} RunKeepsSafe<H>(s: State<H>, steps: seq<Step<H>>, h: H)
    requires Inv(s) && PossibleRun(s, steps) && Truthful(s, steps, h) && Safe(s, h)
    ensures Safe(End(s, steps), h)
    decreases |steps|
  {
    if steps != [] {
      StepKeepsInv(s, steps[0]);
      StepKeepsSafe(s, steps[0], h);
      RunKeepsSafe(Next(s, steps[0]), steps[1..], h);
    }
  }

  /** A hook that lost track of a running child, and that some event can still start, gets a second
      one within two steps. */
  lemma SecondChild<H>(s: State<H>, h: H, q: int) returns (steps: seq<Step<H>>)
    requires Inv(s) && h in s.hooks && NoLoop(s.hooks[h]) && !Safe(s, h)
    requires q > 0 && q !in s.live + s.zombies
    ensures PossibleRun(s, steps) && Truthful(s, steps, h) && !Exclusive(End(s, steps), h)
  {
    if !Exclusive(s, h) {
      return [];
    }
    var p :| p in LiveChildren(s, h) && p !in s.pidList;
    var event := if Reacts(s.hooks[h], EVENT_RISING) then EVENT_RISING else EVENT_FALLING;
    var launch: Step<H> := Visit(h, event, Forked(q));
    var r := s.hooks[h].spawned;
    if r == -1 {
      steps := [launch];
      assert End(s, steps) == Next(s, launch) by {
        assert steps[1..] == [];
      }
      assert p in LiveChildren(End(s, steps), h) && q in LiveChildren(End(s, steps), h);
    } else {
      assert r in s.pidList && s.owner[r] == h;
      assert r !in s.live by {
        assert r in s.live ==> r in LiveChildren(s, h);
      }
      var signal: Step<H> := Sigchld(r);
      steps := [signal, launch];
      var s1 := Next(s, signal);
      assert steps[1..] == [launch] && [launch][1..] == [];
      assert End(s, steps) == End(s1, [launch]) == Next(s1, launch);
      assert Possible(s1, launch) && Wants(s1.hooks[h], event);
      assert PossibleRun(s1, [launch]);
      assert p in LiveChildren(End(s, steps), h) && q in LiveChildren(End(s, steps), h);
    }
  }

  /** Exactly when a NO_LOOP hook can never again have two running children, provided SIGCHLD means
      terminated for it from now on: it has at most one, and either none of its running children has been
      forgotten or no event will start the hook again. Some pid must still be free. */
  lemma ExclusionExactly<H>(s: State<H>, h: H, free: int)
    requires Inv(s) && h in s.hooks && NoLoop(s.hooks[h])
    requires free > 0 && free !in s.live + s.zombies
    ensures (forall steps :: PossibleRun(s, steps) && Truthful(s, steps, h) ==> Exclusive(End(s, steps), h))
       <==> Exclusive(s, h) && (Tracked(s, h) || Dormant(s.hooks[h]))
  {
    if Safe(s, h) {
      forall steps | PossibleRun(s, steps) && Truthful(s, steps, h)
        ensures Exclusive(End(s, steps), h)
      {
        RunKeepsSafe(s, steps, h);
      }
    } else {
      var steps := SecondChild(s, h, free);
    }
  }

  /** NO_LOOP exclusion over every run from the start in which SIGCHLD means terminated for the hook. */
  lemma NoLoopExclusion<H>(s: State<H>, steps: seq<Step<H>>, h: H)
    requires Init(s) && PossibleRun(s, steps) && Truthful(s, steps, h)
    requires h in s.hooks && NoLoop(s.hooks[h])
    ensures Exclusive(End(s, steps), h) && LiveChildren(End(s, steps), h) <= Entries(End(s, steps), h)
  {
    RunKeepsSafeTracked(s, steps, h);
    var e := End(s, steps);
    assert forall p :: p in LiveChildren(e, h) ==> p in e.pidList && e.pidList[p] == e.owner[p];
  }

  lemma {:induction false} RunKeepsSafeTracked<H>(s: State<H>, steps: seq<Step<H>>, h: H)
    requires Inv(s) && PossibleRun(s, steps) && Truthful(s, steps, h) && Safe(s, h) && Tracked(s, h)
    ensures Safe(End(s, steps), h) && Tracked(End(s, steps), h) && Inv(End(s, steps))
    decreases |steps|
  {
    if steps != [] {
      StepKeepsInv(s, steps[0]);
      StepKeepsSafe(s, steps[0], h);
      StepKeepsTracked(s, steps[0], h);
      RunKeepsSafeTracked(Next(s, steps[0]), steps[1..], h);
    }
  }

  lemma StepKeepsTracked<H>(s: State<H>, step: Step<H>, h: H)
    requires Inv(s) && Possible(s, step) && Tracked(s, h)
    requires !Forgets(s, step, h)
    ensures Tracked(Next(s, step), h)
  {
  }

  /** Without that assumption exclusion fails: a child that stops raises SIGCHLD, waitpid answers 0,
      the hook forgets it, and the next edge starts a second child beside it. */
  lemma StoppedChild() returns (s: State<nat>, steps: seq<Step<nat>>)
    ensures Init(s) && 0 in s.hooks && NoLoop(s.hooks[0]) && PossibleRun(s, steps)
    ensures LiveChildren(End(s, steps), 0) == {100, 101}
  {
    s := State(map[0 := HookState(NO_LOOP | RISE, 0, -1)], map[], {}, {}, map[], []);
    var a: Step<nat>, b: Step<nat> := Visit(0, EVENT_RISING, Forked(100)), Sigchld(100);
    var c: Step<nat> := Visit(0, EVENT_RISING, Forked(101));
    steps := [a, b, c];
    var s1 := Next(s, a);
    var s2 := Next(s1, b);
    var s3 := Next(s2, c);
    RunCons(s2, c, []);
    RunCons(s1, b, [c]);
    RunCons(s, a, [b, c]);
    assert [c] + [] == [c] && [b] + [c] == [b, c] && [a] + [b, c] == steps;
    assert s2.hooks[0].spawned == -1 && Wants(s2.hooks[0], EVENT_RISING);
    assert s3.owner == map[100 := 0, 101 := 0] && s3.live == {100, 101};
  }

  /** A hook waits for its own signal: while no SIGCHLD names its child, a NO_LOOP hook in progress is
      never started again, even if that child is long gone. */
  lemma {:induction false} WaitsForSignal<H>(s: State<H>, steps: seq<Step<H>>, h: H)
    requires Inv(s) && PossibleRun(s, steps) && h in s.hooks && NoLoop(s.hooks[h]) && s.hooks[h].spawned != -1
    requires forall k :: 0 <= k < |steps| ==> steps[k] != Sigchld(s.hooks[h].spawned)
    ensures h in End(s, steps).hooks && End(s, steps).hooks[h] == s.hooks[h]
    ensures Count(End(s, steps).launches, h) == Count(s.launches, h)
    decreases |steps|
  {
    hide Inv, Next, Possible, Count;
    if steps != [] {
      StepKeepsInv(s, steps[0]);
      WaitingStep(s, steps[0], h);
      WaitsForSignal(Next(s, steps[0]), steps[1..], h);
    }
  }

  lemma WaitingStep<H>(s: State<H>, step: Step<H>, h: H)
    requires Inv(s) && Possible(s, step) && h in s.hooks && NoLoop(s.hooks[h]) && s.hooks[h].spawned != -1
    requires step != Sigchld(s.hooks[h].spawned)
    ensures var t := Next(s, step);
      h in t.hooks && t.hooks[h] == s.hooks[h] && Count(t.launches, h) == Count(s.launches, h)
  {
    hide PidsUnreaped, FiredCounts;
    if step.Visit? {
      CountSnoc(s.launches, step.hook, h);
    }
  }
}
