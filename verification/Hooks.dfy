/** Hooks as a tab describes them and as the daemon keeps them. */
module Hooks {

  import opened Options

  const RISE: bv16 := 1
  const FALL: bv16 := 2
  const NO_LOOP: bv16 := 4
  const ONESHOT: bv16 := 8

  const EVENT_RISING := 0
  const EVENT_FALLING := 1

  datatype ArgKind = ArgLabel | ArgEventText | ArgEventNum | ArgMax

  /** A stored hook argument: a special one, or (ArgMax) literal text, where None is a null pointer. */
  datatype Arg = Arg(kind: ArgKind, text: Option<string>)

  /** The mutable part of a hook; `spawned` is -1 or the pid of the child in progress. */
  datatype HookState = HookState(flags: bv16, fired: int, spawned: int)

  class Hook {
    const path: string
    const flags: bv16
    const args: seq<Arg>
    var fired: int
    var spawned: int

    constructor (path: string, flags: bv16, args: seq<Arg>)
      ensures this.path == path && this.flags == flags && this.args == args
      ensures Snapshot() == HookState(flags, 0, -1)
    {
      this.path, this.flags, this.args := path, flags, args;
      fired, spawned := 0, -1;
    }

    ghost function Snapshot(): HookState
      reads this
    {
      HookState(flags, fired, spawned)
    }
  }
}
