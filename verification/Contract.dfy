/** The device contract, told from the client's events alone.

    A read returns the last acknowledged write. A lost process leaves, at each LBA, what the last
    flush or restart found there or some later write.
 */
module Contract {
  import opened Blocks

  datatype Command = Write(lba: nat, data: nat) | Read(lba: nat) | Flush

  /** A command that runs, or one cut off at an image `at` picks, with openings cut off likewise before one runs. */
  datatype Step = Run(c: Command) | Crash(c: Command, at: nat, tries: seq<nat>)

  datatype Event =
    | Wrote(lba: nat, data: nat)
    | Tried(lba: nat, data: nat)
    | ReadBack(lba: nat, data: nat)
    | Flushed
    | Lost
    | Denied(why: Error)

  /** A write touched `lba` since the last flush or restart. */
  ghost predicate Unsettled(ev: seq<Event>, lba: nat) {
    ev != [] &&
    match ev[|ev| - 1]
    case Wrote(l, _) => l == lba || Unsettled(ev[..|ev| - 1], lba)
    case Tried(l, _) => l == lba || Unsettled(ev[..|ev| - 1], lba)
    case ReadBack(_, _) => Unsettled(ev[..|ev| - 1], lba)
    case Denied(_) => Unsettled(ev[..|ev| - 1], lba)
    case Flushed => false
    case Lost => false
  }

  /** What a read of `lba` may return after these events. */
  ghost function Seen(ev: seq<Event>, lba: nat): set<nat> {
    if ev == [] then {0}
    else
      match ev[|ev| - 1]
      case Wrote(l, d) => if l == lba then {d} else Seen(ev[..|ev| - 1], lba)
      case Tried(l, d) => Seen(ev[..|ev| - 1], lba) + if l == lba then {d} else {}
      case ReadBack(l, d) => if l == lba then {d} else Seen(ev[..|ev| - 1], lba)
      case Flushed => Seen(ev[..|ev| - 1], lba)
      case Denied(_) => Seen(ev[..|ev| - 1], lba)
      case Lost => Kept(ev[..|ev| - 1], lba)
  }

  /** What a lost process may leave at `lba` after these events. */
  ghost function Kept(ev: seq<Event>, lba: nat): set<nat> {
    if ev == [] then {0}
    else
      match ev[|ev| - 1]
      case Wrote(l, d) => Kept(ev[..|ev| - 1], lba) + if l == lba then {d} else {}
      case Tried(l, d) => Kept(ev[..|ev| - 1], lba) + if l == lba then {d} else {}
      case ReadBack(l, d) =>
        if l == lba && !Unsettled(ev[..|ev| - 1], lba) then {d} else Kept(ev[..|ev| - 1], lba)
      case Flushed => Seen(ev[..|ev| - 1], lba)
      case Denied(_) => Kept(ev[..|ev| - 1], lba)
      case Lost => Kept(ev[..|ev| - 1], lba)
  }

  /** Every value a client read is one the contract allows at that point. */
  ghost predicate Consistent(ev: seq<Event>) {
    forall j :: 0 <= j < |ev| && ev[j].ReadBack? ==> ev[j].data in Seen(ev[..j], ev[j].lba)
  }

  lemma ConsistentSnoc(ev: seq<Event>, e: Event)
    requires Consistent(ev) && (e.ReadBack? ==> e.data in Seen(ev, e.lba))
    ensures Consistent(ev + [e])
  {
    var more := ev + [e];
    forall j | 0 <= j < |more| && more[j].ReadBack? ensures more[j].data in Seen(more[..j], more[j].lba) {
      if j < |ev| { assert more[j] == ev[j] && more[..j] == ev[..j]; } else { assert more[..j] == ev; }
    }
  }

  /** What a command may already have done when its process is lost. */
  function Attempt(c: Command): seq<Event> { if c.Write? then [Tried(c.lba, c.data)] else [] }

  lemma ConsistentAttempt(ev: seq<Event>, c: Command)
    requires Consistent(ev)
    ensures Consistent(ev + Attempt(c))
  {
    hide Seen;
    if c.Write? { ConsistentSnoc(ev, Tried(c.lba, c.data)); } else { assert ev + [] == ev; }
  }
}
