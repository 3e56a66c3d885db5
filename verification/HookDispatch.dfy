/** dispatch_hooks and hook_clear_spawned: the code that moves the state machine of HookLife, with
    pid_list kept in a hash index, and the argument vector each child is started with. */
module HookDispatch {
  import opened Seqs
  import opened HashTypes
  import HashModel
  import HashTable
  import opened Hooks
  import opened Options
  import opened HookLife
  import EdgeStream
  import FlagBits
  import HookLaunches
  import Packets

  // ---------------------------------------------------------------- the argument vector

  function EventText(event: int): string
    requires event == EVENT_RISING || event == EVENT_FALLING
  {
    if event == EVENT_RISING then "RISE" else "FALL"
  }

  function EventNum(event: int): string
    requires event == EVENT_RISING || event == EVENT_FALLING
  {
    if event == EVENT_RISING then "1" else "0"
  }

  /** What one stored argument becomes. */
  function Word(arg: Arg, name: string, event: int): Option<string>
    requires event == EVENT_RISING || event == EVENT_FALLING
  {
    match arg.kind
    case ArgMax => arg.text
    case ArgLabel => Some(name)
    case ArgEventText => Some(EventText(event))
    case ArgEventNum => Some(EventNum(event))
  }

  function Words(args: seq<Arg>, name: string, event: int): (r: seq<Option<string>>)
    requires event == EVENT_RISING || event == EVENT_FALLING
    ensures |r| == |args| && forall k :: 0 <= k < |args| ==> r[k] == Word(args[k], name, event)
  {
    if args == [] then [] else [Word(args[0], name, event)] + Words(args[1..], name, event)
  }

  /** What a stored argument becomes: the pin's label, RISE or FALL, the pin's value in digits, or its text. */
  ghost predicate InSlot(slot: Option<string>, arg: Arg, name: string, event: int) {
    match arg.kind
    case ArgLabel => slot == Some(name)
    case ArgEventText => slot == Some(if event == EVENT_RISING then "RISE" else "FALL")
    case ArgEventNum => ValueInDigits(slot, event)
    case ArgMax => slot == arg.text
  }

  /** What a child is handed: the path, and then every stored argument. */
  ghost predicate Handed(argv: seq<Option<string>>, hook: Hook, name: string, event: int) {
    && |argv| == |hook.args| + 1 && argv[0] == Some(hook.path)
    && forall k :: 0 <= k < |hook.args| ==> InSlot(argv[k + 1], hook.args[k], name, event)
  }

  /** The decimal print of the pin value that raised the event. */
  ghost predicate ValueInDigits(slot: Option<string>, event: int) {
    forall v :: (v == 0 || v == 1) && EdgeStream.EventOf(v) == event ==> slot == Some(Packets.Digits(v))
  }

  lemma WordsHand(hook: Hook, name: string, event: int)
    requires event == EVENT_RISING || event == EVENT_FALLING
    ensures Handed([Some(hook.path)] + Words(hook.args, name, event), hook, name, event)
  {
    var argv := [Some(hook.path)] + Words(hook.args, name, event);
    forall k | 0 <= k < |hook.args|
      ensures InSlot(argv[k + 1], hook.args[k], name, event)
    {
      WordInSlot(hook.args[k], name, event);
      assert argv[k + 1] == Word(hook.args[k], name, event);
    }
  }

  lemma WordInSlot(arg: Arg, name: string, event: int)
    requires event == EVENT_RISING || event == EVENT_FALLING
    ensures InSlot(Word(arg, name, event), arg, name, event)
  {
    assert Packets.Digits(0) == "0" && Packets.Digits(1) == "1";
  }

  /** The size of the vector as the code computes it: arg_list_size is an 8-bit counter. */
  function Slots(args: seq<Arg>): nat {
    |args| % 256 + 1
  }

  /** The loop that fills argv. With 256 or more stored arguments the counter has wrapped and the loop
      writes behind the vector; exactly then it is not safe. */
  method BuildArgv(hook: Hook, name: string, event: int) returns (safe: bool, argv: array<Option<string>>)
    requires event == EVENT_RISING || event == EVENT_FALLING
    ensures fresh(argv) && argv.Length == Slots(hook.args)
    ensures safe <==> |hook.args| < 256
    ensures safe ==> argv[..] == [Some(hook.path)] + Words(hook.args, name, event)
    ensures safe ==> Handed(argv[..], hook, name, event)
  {
    hide Words, Word, Vector, Handed, Slots;
    SlotsFit(hook.args);
    VectorStart(hook, name, event);
    argv := new Option<string>[Slots(hook.args)](_ => None);
    var i := 0;
    argv[i] := Some(hook.path);
    i := i + 1;
    for k := 0 to |hook.args|
      invariant i == k + 1 <= argv.Length
      invariant argv[..i] == Vector(hook, k, name, event)
    {
      if i == argv.Length {
        return false, argv;
      }
      VectorNext(hook, k, name, event);
      Store(argv, i, hook.args[k], name, event);
      i := i + 1;
    }
    safe := true;
    assert argv[..argv.Length] == argv[..];
    VectorAll(hook, name, event);
  }

  lemma SlotsFit(args: seq<Arg>)
    ensures 1 <= Slots(args) <= |args| + 1
    ensures Slots(args) == |args| + 1 <==> |args| < 256
  {
  }

  /** The path and the first k arguments. */
  ghost function Vector(hook: Hook, k: nat, name: string, event: int): seq<Option<string>>
    requires k <= |hook.args| && (event == EVENT_RISING || event == EVENT_FALLING)
  {
    [Some(hook.path)] + Words(hook.args[..k], name, event)
  }

  lemma VectorStart(hook: Hook, name: string, event: int)
    requires event == EVENT_RISING || event == EVENT_FALLING
    ensures Vector(hook, 0, name, event) == [Some(hook.path)]
  {
  }

  lemma VectorAll(hook: Hook, name: string, event: int)
    requires event == EVENT_RISING || event == EVENT_FALLING
    ensures Vector(hook, |hook.args|, name, event) == [Some(hook.path)] + Words(hook.args, name, event)
    ensures Handed(Vector(hook, |hook.args|, name, event), hook, name, event)
  {
    assert hook.args[..|hook.args|] == hook.args;
    WordsHand(hook, name, event);
    hide Words, Handed;
  }

  lemma VectorNext(hook: Hook, k: nat, name: string, event: int)
    requires k < |hook.args| && (event == EVENT_RISING || event == EVENT_FALLING)
    ensures Vector(hook, k + 1, name, event) == Vector(hook, k, name, event) + [Word(hook.args[k], name, event)]
  {
    hide Words, Word;
    WordsSnoc(hook.args, k, name, event);
  }

  lemma WordsSnoc(args: seq<Arg>, k: nat, name: string, event: int)
    requires k < |args| && (event == EVENT_RISING || event == EVENT_FALLING)
    ensures Words(args[..k + 1], name, event) == Words(args[..k], name, event) + [Word(args[k], name, event)]
  {
    hide Word;
  }

  method Store(argv: array<Option<string>>, i: nat, arg: Arg, name: string, event: int)
    requires event == EVENT_RISING || event == EVENT_FALLING
    requires i < argv.Length
    modifies argv
    ensures argv[..i + 1] == old(argv[..i]) + [Word(arg, name, event)]
  {
    match arg.kind
    case ArgMax => argv[i] := arg.text;
    case ArgLabel => argv[i] := Some(name);
    case ArgEventText => argv[i] := Some(EventText(event));
    case ArgEventNum => argv[i] := Some(EventNum(event));
  }

  /** The three checks at the top of the loop body, as the code nests them. */
  method Guards(hook: Hook, event: int) returns (go: bool)
    ensures go == Wants(HookState(hook.flags, hook.fired, hook.spawned), event)
  {
    if hook.flags & NO_LOOP != 0 && hook.spawned != -1 {
      return false;
    }
    if hook.flags & ONESHOT != 0 && hook.fired > 0 {
      return false;
    }
    if event == EVENT_RISING {
      if hook.flags & RISE != 0 {
        return true;
      }
      return false;
    } else if event == EVENT_FALLING {
      if hook.flags & FALL != 0 {
        return true;
      }
    }
    return false;
  }

  // ---------------------------------------------------------------- pid_list as a map

  ghost function Keys(order: HashModel.Items<int, Hook>): set<int> {
    set x | x in order :: x.key
  }

  /** The items of the index are the entries of the map. */
  ghost predicate Lists(order: HashModel.Items<int, Hook>, pids: map<int, Hook>) {
    && (forall x :: x in order ==> x.key in pids && pids[x.key] == x.value)
    && (forall p :: p in pids ==> p in Keys(order))
  }

  lemma ListsAdd(order: HashModel.Items<int, Hook>, pids: map<int, Hook>, x: Item<int, Hook>)
    requires Lists(order, pids) && x.key !in pids
    ensures Lists(order + [x], pids[x.key := x.value])
    ensures forall y :: y in order ==> y.key != x.key
  {
    assert forall p :: p in Keys(order) ==> p in Keys(order + [x]);
    assert x in order + [x];
  }

  lemma ListsRemove(order: HashModel.Items<int, Hook>, pids: map<int, Hook>, x: Item<int, Hook>)
    requires Lists(order, pids) && HashModel.UniqueKeys(order) && x in order
    ensures Lists(Without(order, x), pids - {x.key})
  {
    WithoutMembers(order, x);
    var rest := Without(order, x);
    forall y | y in rest
      ensures y.key != x.key
    {
    }
    forall p | p in pids - {x.key}
      ensures p in Keys(rest)
    {
      var y :| y in order && y.key == p;
      assert y in rest;
    }
  }

  // ---------------------------------------------------------------- the dispatcher

  /** Every hook of the abstract state is an object outside repr whose fields it records. */
  ghost predicate Mirrors(s: State<Hook>, repr: set<object>)
    reads s.hooks.Keys
  {
    forall h :: h in s.hooks ==> h !in repr && h.Snapshot() == s.hooks[h]
  }

  lemma MirrorsAt(s: State<Hook>, repr: set<object>, h: Hook)
    requires Mirrors(s, repr) && h in s.hooks
    ensures s.hooks[h] == HookState(h.flags, h.fired, h.spawned)
    ensures s.hooks.Keys !! repr
  {
  }

  /** A hook's `spawned` and `fired` change, and the abstract state with them. */
  method Set(hook: Hook, spawned: int, fired: int, ghost s: State<Hook>, ghost after: State<Hook>,
             ghost repr: set<object>)
    requires Mirrors(s, repr) && hook in s.hooks
    requires after.hooks == s.hooks[hook := s.hooks[hook].(spawned := spawned, fired := fired)]
    modifies hook
    ensures Mirrors(after, repr)
  {
    hook.spawned := spawned;
    hook.fired := fired;
  }

  class Dispatcher {
    const pidList: HashTable.HashIndex<int, Hook>
    /** The abstract state, kernel and history included. */
    ghost var s: State<Hook>
    /** Every argument vector handed to exec_start, in order. */
    ghost var execs: Vectors

    ghost predicate Valid()
      reads `s, pidList, pidList.Repr, s.hooks.Keys
    {
      && pidList.Valid() && this !in pidList.Repr
      && Mirrors(s, pidList.Repr)
      && Lists(pidList.model.Order(), s.pidList)
      && Inv(s)
    }

    lemma Open()
      requires Valid()
      ensures pidList.Valid() && this !in pidList.Repr && Mirrors(s, pidList.Repr)
      ensures Lists(pidList.model.Order(), s.pidList) && Inv(s)
    {
    }

    lemma Close()
      requires pidList.Valid() && this !in pidList.Repr && Mirrors(s, pidList.Repr)
      requires Lists(pidList.model.Order(), s.pidList) && Inv(s)
      ensures Valid()
    {
    }

    constructor (hash: int -> nat, ghost s: State<Hook>)
      requires Init(s) && forall h :: h in s.hooks ==> h.Snapshot() == s.hooks[h]
      ensures Valid() && fresh(pidList) && fresh(pidList.Repr) && this.s == s && execs == []
    {
      pidList := new HashTable.HashIndex<int, Hook>(hash);
      this.s, execs := s, [];
    }

    /** hook_clear_spawned */
    method ClearSpawned(pid: int) returns (ret: int)
      requires Valid()
      modifies this`s, pidList, pidList.Repr, s.hooks.Keys
      ensures Valid() && s == Cleared(old(s), pid)
      ensures ret == if pid in old(s).pidList then 0 else -1
    {
      hide *;
      Open();
      ghost var order, after := pidList.model.Order(), Cleared(s, pid);
      pidList.Distinct();
      var found := pidList.Find(pid);
      if found == null {
        ClearNothing(s, order, pid);
        return -1;
      }
      ClearFacts(s, order, found);
      var hook := found.value;
      MirrorsAt(s, pidList.Repr, hook);
      Set(hook, -1, hook.fired, s, after, pidList.Repr);
      pidList.Delete(found);
      s := after;
      Close();
      return 0;
    }

    /** SIGCHLD: waitpid answers `result`, and anything but -1 clears the hook. */
    method OnSigchld(pid: int, result: int)
      requires Valid() && result == WaitPid(s, pid)
      modifies this`s, pidList, pidList.Repr, s.hooks.Keys
      ensures Valid() && s == Next(old(s), Sigchld(pid))
    {
      hide Lists, Inv, HashTable.HashIndex.Valid;
      ghost var before := s;
      SignalKeepsInv(before, pid);
      if result != -1 {
        var _ := ClearSpawned(pid);
        s := Next(before, Sigchld(pid));
      }
    }

    /** What follows a fork: the hook remembers the child, and the child enters pid_list. That its pid
        is a new key is what HASH_ADD asks for. */
    method Start(hook: Hook, event: int, pid: int)
      requires Valid() && hook in s.hooks && Wants(s.hooks[hook], event)
      requires Possible(s, Visit(hook, event, Forked(pid)))
      modifies this`s, pidList, pidList.Repr, hook
      ensures Valid() && s == Launched(old(s), hook, pid)
      ensures fresh(pidList.Repr - old(pidList.Repr))
    {
      hide *;
      Open();
      ghost var order, after := pidList.model.Order(), Launched(s, hook, pid);
      var entry := new Item<int, Hook>(pid, hook);
      StartFacts(s, order, event, entry);
      MirrorsAt(s, pidList.Repr, hook);
      Set(hook, pid, 1, s, after, pidList.Repr);
      pidList.Add(entry);
      s := after;
      Close();
    }

    /** One pass of the loop in dispatch_hooks. It is not safe exactly when a hook with 256 or more stored
        arguments wants the event. */
    method VisitHook(hook: Hook, name: string, event: int, exec: Exec) returns (safe: bool)
      requires Valid() && hook in s.hooks && Possible(s, Visit(hook, event, exec))
      modifies this, pidList, pidList.Repr, hook
      ensures Valid() && fresh(pidList.Repr - old(pidList.Repr))
      ensures safe <==> !TooLong(old(s), hook, event)
      ensures safe ==> s == Next(old(s), Visit(hook, event, exec))
      ensures safe ==> execs == old(execs) + Attempt(old(s), hook, name, event)
    {
      hide *;
      Open();
      MirrorsAt(s, pidList.Repr, hook);
      VisitCases(s, hook, name, event, exec);
      var go := Guards(hook, event);
      if !go {
        return true;
      }
      var argv;
      safe, argv := BuildArgv(hook, name, event);
      if !safe {
        return;
      }
      execs := execs + [argv[..]];
      match exec
      case Failed =>
      case Forked(pid) => Start(hook, event, pid);
    }

    /** dispatch_hooks: the hooks of one pin, in list order; outcome k is what exec_start answers if
        hook k gets that far. */
    method DispatchHooks(hooks: seq<Hook>, name: string, event: int, outcomes: seq<Exec>) returns (safe: bool)
      requires Valid() && |outcomes| == |hooks| && (forall h :: h in hooks ==> h in s.hooks)
      requires PossibleRun(s, Visits(hooks, event, outcomes))
      modifies this, pidList, pidList.Repr, s.hooks.Keys
      ensures safe <==> !Overruns(old(s), hooks, event, outcomes)
      ensures safe ==> Valid() && s == End(old(s), Visits(hooks, event, outcomes))
      ensures safe ==> execs == old(execs) + Attempts(old(s), hooks, name, event, outcomes)
    {
      hide *;
      ghost var s0, x0 := s, execs;
      DispatchStart(s0, x0, hooks, name, event, outcomes);
      var k := 0;
      while k < |hooks|
        invariant k <= |hooks| && Valid() && fresh(pidList.Repr - old(pidList.Repr))
        invariant s.hooks.Keys == s0.hooks.Keys
        invariant Dispatching(s0, x0, s, execs, hooks, name, event, outcomes, k)
      {
        assert hooks[k] in hooks;
        DispatchStep(s0, x0, s, execs, hooks, name, event, outcomes, k);
        safe := VisitHook(hooks[k], name, event, outcomes[k]);
        if !safe {
          return;
        }
        k := k + 1;
      }
      DispatchEnd(s0, x0, s, execs, hooks, name, event, outcomes);
      safe := true;
    }

    /** A child of the daemon terminates; the daemon does not know yet. */
    ghost method KernelExit(pid: int)
      requires Valid() && Possible(s, ChildExit(pid))
      modifies this`s
      ensures Valid() && s == Next(old(s), ChildExit(pid))
    {
      StepKeepsInv(s, ChildExit(pid));
      s := Next(s, ChildExit(pid));
    }
  }

  /** The hook would be started, and its arguments do not fit the vector. */
  ghost predicate TooLong(s: State<Hook>, hook: Hook, event: int) {
    hook in s.hooks && Wants(s.hooks[hook], event) && |hook.args| >= 256
  }

  /** A dispatch comes to such a hook. */
  ghost predicate Overruns(s: State<Hook>, hooks: seq<Hook>, event: int, outcomes: seq<Exec>)
    requires |outcomes| == |hooks|
    decreases |hooks|
  {
    hooks != []
    && (TooLong(s, hooks[0], event)
        || Overruns(Next(s, Visit(hooks[0], event, outcomes[0])), hooks[1..], event, outcomes[1..]))
  }

  /** The steps of one dispatch. */
  ghost function Visits(hooks: seq<Hook>, event: int, outcomes: seq<Exec>): seq<Step<Hook>>
    requires |outcomes| == |hooks|
  {
    if hooks == [] then [] else [Visit(hooks[0], event, outcomes[0])] + Visits(hooks[1..], event, outcomes[1..])
  }

  ghost function Attempt(s: State<Hook>, hook: Hook, name: string, event: int): Vectors {
    if hook in s.hooks && Wants(s.hooks[hook], event) then [[Some(hook.path)] + Words(hook.args, name, event)] else []
  }

  /** A visit hands over one vector, or none: by the number of the hook's flags, 1 for rising, 2 for falling,
      4 while no child is in progress, 8 only once. */
  lemma AttemptHands(s: State<Hook>, hook: Hook, name: string, event: int)
    requires hook in s.hooks
    ensures var a, h := Attempt(s, hook, name, event), s.hooks[hook];
      var n := FlagBits.Number(h.flags);
      if && ((event == EVENT_RISING && n % 2 == 1) || (event == EVENT_FALLING && n / 2 % 2 == 1))
         && (n / 4 % 2 == 1 ==> h.spawned == -1)
         && (n / 8 % 2 == 1 ==> h.fired <= 0)
      then |a| == 1 && Handed(a[0], hook, name, event)
      else a == []
  {
    hide Wants, Words, Handed, FlagBits.Number;
    HookLaunches.WantsByNumber(s.hooks[hook], event);
    if event == EVENT_RISING || event == EVENT_FALLING {
      WordsHand(hook, name, event);
    }
  }

  /** The argument vectors of one dispatch: one for every hook that wants the event when its turn comes,
      whether or not it can then be started. */
  ghost function Attempts(s: State<Hook>, hooks: seq<Hook>, name: string, event: int,
                          outcomes: seq<Exec>): Vectors
    requires |outcomes| == |hooks|
    decreases |hooks|
  {
    if hooks == [] then [] else
      Attempt(s, hooks[0], name, event)
      + Attempts(Next(s, Visit(hooks[0], event, outcomes[0])), hooks[1..], name, event, outcomes[1..])
  }

  type Vectors = seq<seq<Option<string>>>

  /** A dispatch that began in state s0 with x0 executed has come to hook k, with s and x. */
  ghost predicate Dispatching(s0: State<Hook>, x0: Vectors, s: State<Hook>, x: Vectors, hooks: seq<Hook>, name: string,
                              event: int, outcomes: seq<Exec>, k: nat)
    requires |outcomes| == |hooks| && k <= |hooks|
  {
    var hs, os := hooks[k..], outcomes[k..];
    && PossibleRun(s, Visits(hs, event, os))
    && End(s, Visits(hs, event, os)) == End(s0, Visits(hooks, event, outcomes))
    && (Overruns(s, hs, event, os) <==> Overruns(s0, hooks, event, outcomes))
    && x + Attempts(s, hs, name, event, os) == x0 + Attempts(s0, hooks, name, event, outcomes)
  }

  lemma DispatchStart(s: State<Hook>, x: Vectors, hooks: seq<Hook>, name: string, event: int, outcomes: seq<Exec>)
    requires |outcomes| == |hooks| && PossibleRun(s, Visits(hooks, event, outcomes))
    ensures Dispatching(s, x, s, x, hooks, name, event, outcomes, 0)
  {
    assert hooks[0..] == hooks && outcomes[0..] == outcomes;
  }

  lemma DispatchStep(s0: State<Hook>, x0: Vectors, s: State<Hook>, x: Vectors, hooks: seq<Hook>, name: string,
                     event: int, outcomes: seq<Exec>, k: nat)
    requires |outcomes| == |hooks| && k < |hooks| && hooks[k] in s.hooks
    requires Dispatching(s0, x0, s, x, hooks, name, event, outcomes, k)
    ensures var step := Visit(hooks[k], event, outcomes[k]);
      && Possible(s, step) && Next(s, step).hooks.Keys == s.hooks.Keys
      && (TooLong(s, hooks[k], event) ==> Overruns(s0, hooks, event, outcomes))
      && (!TooLong(s, hooks[k], event) ==>
            Dispatching(s0, x0, Next(s, step), x + Attempt(s, hooks[k], name, event),
                        hooks, name, event, outcomes, k + 1))
  {
    var step, hs, os := Visit(hooks[k], event, outcomes[k]), hooks[k + 1..], outcomes[k + 1..];
    assert hooks[k..][1..] == hs && outcomes[k..][1..] == os;
    RunCons(s, step, Visits(hs, event, os));
    Assoc(x, Attempt(s, hooks[k], name, event), Attempts(Next(s, step), hs, name, event, os));
    hide Wants, Attempt, TooLong;
  }

  lemma DispatchEnd(s0: State<Hook>, x0: Vectors, s: State<Hook>, x: Vectors, hooks: seq<Hook>, name: string,
                    event: int, outcomes: seq<Exec>)
    requires |outcomes| == |hooks| && Dispatching(s0, x0, s, x, hooks, name, event, outcomes, |hooks|)
    ensures s == End(s0, Visits(hooks, event, outcomes)) && !Overruns(s0, hooks, event, outcomes)
    ensures x == x0 + Attempts(s0, hooks, name, event, outcomes)
  {
    assert hooks[|hooks|..] == [] && outcomes[|hooks|..] == [];
    assert x + [] == x;
  }

  lemma VisitCases(s: State<Hook>, hook: Hook, name: string, event: int, exec: Exec)
    requires hook in s.hooks
    ensures var wants, t := Wants(s.hooks[hook], event), Next(s, Visit(hook, event, exec));
      var a := Attempt(s, hook, name, event);
      && (TooLong(s, hook, event) <==> wants && |hook.args| >= 256)
      && (wants ==> event == EVENT_RISING || event == EVENT_FALLING)
      && (!wants ==> t == s && a == [])
      && (wants ==> a == [[Some(hook.path)] + Words(hook.args, name, event)])
      && (wants ==> t == if exec.Forked? then Launched(s, hook, exec.pid) else s)
  {
  }

  lemma StartFacts(s: State<Hook>, order: HashModel.Items<int, Hook>, event: int, entry: Item<int, Hook>)
    requires Inv(s) && Lists(order, s.pidList) && entry.value in s.hooks && Wants(s.hooks[entry.value], event)
    requires Possible(s, Visit(entry.value, event, Forked(entry.key)))
    ensures forall x :: x in order ==> x.key != entry.key
    ensures var after := Launched(s, entry.value, entry.key);
      && Inv(after)
      && Lists(order + [entry], after.pidList)
      && after.hooks == s.hooks[entry.value := s.hooks[entry.value].(spawned := entry.key, fired := 1)]
  {
    LaunchKeepsInv(s, entry.value, event, entry.key);
    ListsAdd(order, s.pidList, entry);
  }

  lemma ClearNothing(s: State<Hook>, order: HashModel.Items<int, Hook>, pid: int)
    requires Lists(order, s.pidList) && forall x :: x in order ==> x.key != pid
    ensures pid !in s.pidList && Cleared(s, pid) == s
  {
    assert pid !in Keys(order);
  }

  lemma ClearFacts(s: State<Hook>, order: HashModel.Items<int, Hook>, found: Item<int, Hook>)
    requires Inv(s) && Lists(order, s.pidList) && HashModel.UniqueKeys(order) && found in order
    ensures found.key in s.pidList && found.value in s.hooks
    ensures var after := Cleared(s, found.key);
      && Inv(after)
      && Lists(Without(order, found), after.pidList)
      && after.hooks == s.hooks[found.value := s.hooks[found.value].(spawned := -1)]
  {
    assert found.key in s.pidList && s.pidList[found.key] == found.value;
    ListsRemove(order, s.pidList, found);
    hide Lists, HashModel.UniqueKeys, Without;
    ClearKeepsInv(s, found.key);
  }
}
