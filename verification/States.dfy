/** What each command does to an open volume, and what a loss and a reopening leave: the steps of a run. */
module States {
  import opened Blocks
  import opened Log
  import opened Disk
  import opened Device
  import opened Publish
  import opened Buffer
  import opened Volume
  import opened Open
  import opened Contract

  /** An open volume: the disk it is on, the log and root found there, its buffer, and whether it works. */
  datatype State = State(
    disk: Image, recs: seq<Rec>, root: Checkpoint, lbas: seq<nat>, contents: map<nat, nat>, failed: bool, faulted: bool)

  ghost function StateOf(vol: Volume): State
    reads vol.Repr(), vol.m.dev.faults
  {
    State(vol.m.dev.image, vol.Recs(), if vol.m.dev.trace == [] then vol.m.c else vol.m.dev.Now().c,
          vol.buffer.lbas, vol.buffer.contents, vol.failed, vol.m.dev.Faulted())
  }

  /** The logical block that a read must return. */
  ghost function Shown(s: State, lba: nat): nat { Overlay(s.recs, s.contents, lba) }

  /** The block that the log ends at once all that is touched or buffered is appended. */
  ghost function Weight(v: Vol, s: State): nat {
    Promised(v, s.recs, s.root) + |s.lbas| + Records(|s.lbas|) + |PagesOf(s.lbas)|
  }

  /** The disk holds that log and loads that root; a working volume buffers what it lists, and it all fits. */
  ghost predicate Sound(v: Vol, s: State) {
    && DiskInv(v, s.disk, s.recs, s.root) && Aged(v, s.root.desc) && (s.failed ==> s.faulted)
    && (!s.failed ==> Distinct(s.lbas) && (forall l :: l in s.contents <==> l in s.lbas) && Weight(v, s) < v.backing)
  }

  /** A write of this LBA needs no new log blocks, or they are there. */
  ghost predicate Fits(v: Vol, s: State, lba: nat) {
    lba in s.contents ||
    Promised(v, s.recs, s.root) + |s.lbas| + 1 + Records(|s.lbas| + 1) + |PagesOf(s.lbas + [lba])| < v.backing
  }

  // ---- commands ----

  /**
    * The reply to a command, and the volume after it. A denial has its cause: a bad address, a full log, an
    * earlier failure, or a device request that failed just now.
    */
  ghost predicate Replies(v: Vol, s: State, c: Command, e: Event, t: State) {
    match c
    case Write(lba, data) => RepliesWrite(v, s, lba, data, e, t)
    case Read(lba) => RepliesRead(v, s, lba, e, t)
    case Flush => RepliesFlush(v, s, e, t)
  }

  ghost predicate RepliesWrite(v: Vol, s: State, lba: nat, data: nat, e: Event, t: State) {
    if s.failed then e == Denied(Failed) && t == s
    else if lba >= v.blocks then e == Denied(InvalidInput) && t == s
    else if !Fits(v, s, lba) then e == Denied(NoSpace) && t == s
    else
      && Mixed(s.recs, t.recs, s.contents[lba := data])
      && if e == Tried(lba, data) then t.failed && t.faulted
         else e == Wrote(lba, data) && !t.failed && Weight(v, t) <= Weight(v, s) + 3 && Written(s, t, lba, data)
  }

  ghost predicate RepliesRead(v: Vol, s: State, lba: nat, e: Event, t: State) {
    if s.failed then e == Denied(Failed) && t == s
    else if lba >= v.blocks then e == Denied(InvalidInput) && t == s
    else
      && OnlySnaps(s.recs, t.recs)
      && if e == Denied(Io) then t.failed && t.faulted
         else e == ReadBack(lba, Shown(s, lba)) && !t.failed && Weight(v, t) <= Weight(v, s) && Unmoved(s, t)
  }

  ghost predicate RepliesFlush(v: Vol, s: State, e: Event, t: State) {
    if s.failed then e == Denied(Failed) && t == s
    else
      && Mixed(s.recs, t.recs, s.contents)
      && if e == Denied(Io) then t.failed && t.faulted
         else e == Flushed && !t.failed && Weight(v, t) <= Weight(v, s) && t.contents == map[] && Unmoved(s, t)
  }

  /** One logical block differs, and the buffer holds it or was released. */
  ghost predicate Written(s: State, t: State, lba: nat, data: nat) {
    && (t.contents == s.contents[lba := data] || t.contents == map[])
    && forall x: nat :: Shown(t, x) == if x == lba then data else Shown(s, x)
  }

  /** No logical block differs. */
  ghost predicate Unmoved(s: State, t: State) { forall x: nat :: Shown(t, x) == Shown(s, x) }

  /** The payloads that can reach the log while the command runs. */
  function Pending(contents: map<nat, nat>, c: Command): map<nat, nat> {
    if c.Write? then contents[c.lba := c.data] else contents
  }

  /** The log blocks that a command can ask for. */
  function Extra(c: Command): nat { if c.Write? then 3 else 0 }

  // ---- a loss and what follows ----

  /**
    * What a loss left on a device, which may have failed before (`struck`), and what the last opening after it found,
    * with a device failing on the way or not (`faulted`).
    */
  datatype Opening = Opening(struck: bool, lost: Crash, found: Crash, faulted: bool)

  /**
    * A process lost inside command `c` leaves a recoverable device: whole records on top of the old log, each LBA with
    * its old content or with one that was buffered or being written, and no more log than was reserved.
    */
  ghost predicate Leaves(v: Vol, s: State, c: Command, o: Opening) {
    && CrashOk(v, o.lost) && Mixed(s.recs, o.lost.recs, Pending(s.contents, c))
    && (o.struck || Tail(v, o.lost.recs) <= Weight(v, s) + Extra(c))
  }

  /** Openings that are lost themselves add only snapshots, at most one a page each. */
  ghost predicate Chained(v: Vol, tries: nat, o: Opening) {
    && CrashOk(v, o.found) && OnlySnaps(o.lost.recs, o.found.recs) && (tries == 0 ==> o.found == o.lost)
    && (o.faulted || Tail(v, o.found.recs) <= Tail(v, o.lost.recs) + tries * v.Pages())
  }

  /** An opening succeeds exactly where it can, unless its device fails. */
  ghost predicate Decided(v: Vol, options: Options, o: Opening, success: bool) {
    if success then Opens(v, o.found.recs, o.found.c, options)
    else o.faulted || !Opens(v, o.found.recs, o.found.c, options)
  }

  /** It shows exactly the content of the log that was lost, adds only snapshots, and promises the same end of it. */
  ghost predicate Opened(v: Vol, o: Opening, t: State) {
    && OnlySnaps(o.found.recs, t.recs) && t.contents == map[] && t.lbas == [] && !t.failed
    && (forall x: nat :: Shown(t, x) == Content(o.lost.recs, |o.lost.recs|, x))
    && Promised(v, t.recs, t.root) == Promised(v, o.found.recs, o.found.c)
  }

  ghost predicate Calm(faultless: bool, o: Opening) { faultless ==> !o.struck && !o.faulted }

  ghost predicate Restarts(v: Vol, options: Options, faultless: bool, s: State, c: Command, tries: nat, o: Opening,
                           t: State) {
    Leaves(v, s, c, o) && Chained(v, tries, o) && Calm(faultless, o) && Decided(v, options, o, true) && Opened(v, o, t)
  }

  /** After a loss inside command `c` the reopened volume shows the content of some log that the loss can leave. */
  ghost predicate Resumes(v: Vol, options: Options, faultless: bool, s: State, c: Command, tries: nat, t: State) {
    exists o :: Restarts(v, options, faultless, s, c, tries, o, t)
  }

  /** A reopening was refused: a device failed, or the log found left no room for replay under these options. */
  ghost predicate Stuck(v: Vol, options: Options, s: State, step: Step, o: Opening) {
    step.Crash? && Leaves(v, s, step.c, o) && Chained(v, |step.tries|, o) && Decided(v, options, o, false)
  }

  // ---- whole scripts ----

  /** Options that a newly formatted volume can be opened with. */
  predicate Usable(v: Vol, options: Options) {
    options.Ok() && CapacityOk(v, options, ClampBuffer(options.writeBuffer, v.backing, v.LogStart()))
  }

  /** A newly formatted volume: an empty log, and zeros everywhere. */
  ghost predicate Blank(v: Vol, t: State) {
    && Sound(v, t) && !t.failed && t.recs == [] && t.contents == map[] && Weight(v, t) + 1 == v.LogStart()
    && forall x: nat :: Shown(t, x) == 0
  }

  /** One step of the story: one reply to a command that ran; the trace of one that was cut off, and a restart. */
  ghost predicate StepTold(v: Vol, options: Options, faultless: bool, step: Step, s: State, tail: seq<Event>,
                           t: State) {
    && Sound(v, t) && (faultless ==> !t.faulted)
    && match step
       case Run(c) => |tail| == 1 && Replies(v, s, c, tail[0], t)
       case Crash(c, _, tries) => tail == Attempt(c) + [Lost] && Resumes(v, options, faultless, s, c, |tries|, t)
  }

  /** How many events a step adds. */
  function Length(step: Step): (n: nat)
    ensures n > 0
  {
    if step.Run? then 1 else |Attempt(step.c)| + 1
  }

  /** The events and states after each step. */
  ghost predicate Tells(v: Vol, options: Options, faultless: bool, script: seq<Step>, ev: seq<Event>,
                        states: seq<State>) {
    |states| == |script| + 1 &&
    if script == [] then ev == [Lost] && Blank(v, states[0])
    else
      var n, k := |script| - 1, |ev| - Length(script[|script| - 1]);
      && k >= 0 && StepTold(v, options, faultless, script[n], states[n], ev[k..], states[n + 1])
      && Tells(v, options, faultless, script[..n], ev[..k], states[..n + 1])
  }

  lemma TellsStep(v: Vol, options: Options, faultless: bool, script: seq<Step>, n: nat, ev: seq<Event>,
                  states: seq<State>, tail: seq<Event>, t: State)
    requires n < |script| && Tells(v, options, faultless, script[..n], ev, states)
    requires StepTold(v, options, faultless, script[n], states[n], tail, t)
    ensures Tells(v, options, faultless, script[..n + 1], ev + tail, states + [t])
  {
    hide Replies, Resumes, Sound;
    var more, after := ev + tail, states + [t];
    assert |tail| == Length(script[n]);
    assert script[..n + 1][..n] == script[..n] && after[..n + 1] == states;
    assert more[..|ev|] == ev && more[|ev|..] == tail;
  }

  // ---- enough log for a whole script ----

  /** The log blocks that a step can ask for: three a write, and a snapshot a page for every opening after a loss. */
  function Cost(v: Vol, step: Step): nat {
    Extra(step.c) + if step.Crash? then (|step.tries| + 1) * v.Pages() else 0
  }

  /** The block that the log ends at, at most, after a script. */
  function Budget(v: Vol, script: seq<Step>): nat {
    if script == [] then v.LogStart() - 1 else Budget(v, script[..|script| - 1]) + Cost(v, script[|script| - 1])
  }

  /** No command is denied but for its address, and every step is carried out. */
  predicate StepServed(v: Vol, step: Step, tail: seq<Event>) {
    match step
    case Run(c) =>
      |tail| == 1 &&
      (match c
       case Write(lba, data) => tail[0] == if lba < v.blocks then Wrote(lba, data) else Denied(InvalidInput)
       case Read(lba) =>
         if lba < v.blocks then tail[0].ReadBack? && tail[0].lba == lba else tail[0] == Denied(InvalidInput)
       case Flush => tail[0] == Flushed)
    case Crash(c, _, _) => tail == Attempt(c) + [Lost]
  }

  predicate Served(v: Vol, script: seq<Step>, ev: seq<Event>) {
    if script == [] then ev == [Lost]
    else
      var n, k := |script| - 1, |ev| - Length(script[|script| - 1]);
      k >= 0 && StepServed(v, script[n], ev[k..]) && Served(v, script[..n], ev[..k])
  }

  lemma TouchedFew(v: Vol, recs: seq<Rec>, a: nat)
    ensures |TouchedPages(v, recs, a, |recs|)| <= v.Pages()
  {
    hide Touched;
    SmallSet(TouchedPages(v, recs, a, |recs|), v.Pages());
  }

  /** A write asks for at most three more blocks. */
  lemma FitsNear(v: Vol, s: State, lba: nat)
    requires Weight(v, s) + 3 < v.backing
    ensures Fits(v, s, lba)
  {
    hide Promised, Records;
    RecordsNext(|s.lbas|);
    PagesOfSnoc(s.lbas, lba);
  }

  /** What an opening after a loss finds needs at most a snapshot a page for each attempt. */
  lemma FoundNear(v: Vol, s: State, c: Command, tries: nat, o: Opening)
    requires Leaves(v, s, c, o) && Chained(v, tries, o) && !o.struck && !o.faulted
    ensures Promised(v, o.found.recs, o.found.c) <= Weight(v, s) + Extra(c) + (tries + 1) * v.Pages()
  {
    hide CrashOk, OnlySnaps, Mixed, Weight, Tail, Vol.Pages;
    TouchedFew(v, o.found.recs, o.found.c.desc.lsn);
    assert (tries + 1) * v.Pages() == tries * v.Pages() + v.Pages();
  }

  /** A step that the log has room for is served, and asks for no more than its cost. */
  lemma StepWithin(v: Vol, options: Options, step: Step, s: State, tail: seq<Event>, t: State)
    requires StepTold(v, options, true, step, s, tail, t) && Sound(v, s) && !s.failed
    requires Weight(v, s) + Cost(v, step) < v.backing
    ensures StepServed(v, step, tail) && !t.failed && Weight(v, t) <= Weight(v, s) + Cost(v, step)
  {
    hide Replies, Resumes, Weight, Fits, Vol.Pages;
    match step {
      case Run(c) => RunWithin(v, s, c, tail[0], t);
      case Crash(c, _, tries) => CrashWithin(v, options, s, c, |tries|, t);
    }
  }

  lemma RunWithin(v: Vol, s: State, c: Command, e: Event, t: State)
    requires Replies(v, s, c, e, t) && !t.faulted && (t.failed ==> t.faulted) && !s.failed
    requires Weight(v, s) + Extra(c) < v.backing
    ensures StepServed(v, Run(c), [e]) && !t.failed && Weight(v, t) <= Weight(v, s) + Extra(c)
  {
    hide Mixed, OnlySnaps, Written, Unmoved, Fits, Weight;
    if c.Write? { FitsNear(v, s, c.lba); }
  }

  lemma CrashWithin(v: Vol, options: Options, s: State, c: Command, tries: nat, t: State)
    requires Resumes(v, options, true, s, c, tries, t)
    ensures !t.failed && Weight(v, t) <= Weight(v, s) + Extra(c) + (tries + 1) * v.Pages()
  {
    hide Leaves, Chained, Decided, Promised, Weight, Vol.Pages;
    var o :| Restarts(v, options, true, s, c, tries, o, t);
    FoundNear(v, s, c, tries, o);
    LightBuffer(v, t);
  }

  lemma LightBuffer(v: Vol, t: State)
    requires t.lbas == []
    ensures Weight(v, t) == Promised(v, t.recs, t.root)
  {
    assert PagesOf(t.lbas) == {};
  }

  /** Enough log for a whole script, reckoned from the script alone: every step is served. */
  lemma {:induction false} BudgetServes(v: Vol, options: Options, script: seq<Step>, ev: seq<Event>, states: seq<State>)
    requires Tells(v, options, true, script, ev, states) && Budget(v, script) < v.backing
    ensures Served(v, script, ev) && Sound(v, states[|script|])
    ensures !states[|script|].failed && Weight(v, states[|script|]) <= Budget(v, script)
  {
    hide StepTold, StepServed, Weight, Cost, Sound;
    if script != [] {
      var n, k := |script| - 1, |ev| - Length(script[|script| - 1]);
      BudgetServes(v, options, script[..n], ev[..k], states[..n + 1]);
      StepWithin(v, options, script[n], states[n], ev[k..], states[n + 1]);
      StepSound(v, options, script[n], states[n], ev[k..], states[n + 1]);
    } else {
      BlankLight(v, states[0]);
    }
  }

  lemma StepSound(v: Vol, options: Options, step: Step, s: State, tail: seq<Event>, t: State)
    requires StepTold(v, options, true, step, s, tail, t)
    ensures Sound(v, t)
  {
  }

  lemma BlankLight(v: Vol, t: State)
    requires Blank(v, t)
    ensures Sound(v, t) && !t.failed && Weight(v, t) <= v.LogStart() - 1
  {
  }

  /** Nor is an opening refused that the log has room for. */
  lemma NeverStuck(v: Vol, options: Options, s: State, step: Step, o: Opening)
    requires Stuck(v, options, s, step, o) && !o.struck && !o.faulted && Usable(v, options)
    ensures Weight(v, s) + Cost(v, step) >= v.backing
  {
    hide CrashOk, OnlySnaps, Mixed, Weight, Promised, Vol.Pages, CapacityOk, ClampBuffer;
    FoundNear(v, s, step.c, |step.tries|, o);
  }

  lemma {:induction false} BudgetGrows(v: Vol, script: seq<Step>, n: nat)
    requires n <= |script|
    ensures Budget(v, script[..n]) <= Budget(v, script)
    ensures n < |script| ==> Budget(v, script[..n]) + Cost(v, script[n]) <= Budget(v, script)
    decreases |script|
  {
    hide Cost;
    if n < |script| {
      var m := |script| - 1;
      if n < m {
        BudgetGrows(v, script[..m], n);
        assert script[..m][..n] == script[..n];
      }
    } else {
      assert script[..n] == script;
    }
  }
}
