/** The shared I/O ledger: one writer's atomic stores, many readers' atomic loads, and the write budget. */
module Ledger {
  const MAX: nat := 0xFFFF_FFFF_FFFF_FFFF
  const ATTEMPTS: nat := 100
  const INCOMPLETE: nat := 1
  const EXHAUSTED: nat := 2

  datatype Field =
    Epoch | Reserved | WriteBytes | ReadBytes | ReadOps | WriteOps | FlushOps | PendingOps | Errors | Flags

  /** The ledger's atomic words. */
  datatype Words = Words(
    epoch: nat, reserved: nat, writeBytes: nat, readBytes: nat, readOps: nat,
    writeOps: nat, flushOps: nat, pending: nat, errors: nat, flags: nat)
  {
    function Get(f: Field): nat {
      match f
      case Epoch => epoch
      case Reserved => reserved
      case WriteBytes => writeBytes
      case ReadBytes => readBytes
      case ReadOps => readOps
      case WriteOps => writeOps
      case FlushOps => flushOps
      case PendingOps => pending
      case Errors => errors
      case Flags => flags
    }

    function Put(f: Field, v: nat): Words {
      match f
      case Epoch => this.(epoch := v)
      case Reserved => this.(reserved := v)
      case WriteBytes => this.(writeBytes := v)
      case ReadBytes => this.(readBytes := v)
      case ReadOps => this.(readOps := v)
      case WriteOps => this.(writeOps := v)
      case FlushOps => this.(flushOps := v)
      case PendingOps => this.(pending := v)
      case Errors => this.(errors := v)
      case Flags => this.(flags := v)
    }

    predicate Quiet() { epoch % 2 == 0 }

    /** What the reader validates of a snapshot. */
    predicate CountersOk(limit: nat) { flags < 4 && writeBytes <= reserved <= limit && pending <= 1 }
  }

  function SetBit(flags: nat, bit: nat): nat
    requires bit == INCOMPLETE || bit == EXHAUSTED
  {
    if HasBit(flags, bit) then flags else flags + bit
  }

  predicate HasBit(flags: nat, bit: nat)
    requires bit == INCOMPLETE || bit == EXHAUSTED
  {
    flags / bit % 2 == 1
  }

  const BLANK := Words(0, 0, 0, 0, 0, 0, 0, 0, 0, 0)

  // ---- the memory as a run of single-word stores ----

  /** One store: the epoch moves by one, or another word changes while the epoch is odd. */
  predicate StoreOk(a: Words, b: Words) {
    b == a.(epoch := a.epoch + 1) || (b.epoch == a.epoch && !a.Quiet())
  }

  ghost predicate Linked(trace: seq<Words>, i: nat) { i + 1 < |trace| ==> StoreOk(trace[i], trace[i + 1]) }

  /** Every memory state of a run, in the one order all threads agree on. */
  ghost predicate Coherent(trace: seq<Words>, limit: nat) {
    && |trace| > 0
    && (forall i :: 0 <= i < |trace| ==> Linked(trace, i))
    && forall i :: 0 <= i < |trace| && trace[i].Quiet() ==> trace[i].CountersOk(limit)
  }

  lemma CoherentAppend(trace: seq<Words>, limit: nat, next: Words)
    requires Coherent(trace, limit) && StoreOk(trace[|trace| - 1], next) && (next.Quiet() ==> next.CountersOk(limit))
    ensures Coherent(trace + [next], limit)
  {
    var more := trace + [next];
    forall i | 0 <= i < |more| ensures Linked(more, i) {
      if i < |trace| { assert Linked(trace, i); }
    }
  }

  lemma {:induction false} EpochsGrow(trace: seq<Words>, limit: nat, i: nat, j: nat)
    requires Coherent(trace, limit) && i <= j < |trace|
    ensures trace[i].epoch <= trace[j].epoch
    decreases j
  {
    if i < j {
      EpochsGrow(trace, limit, i, j - 1);
      assert Linked(trace, j - 1);
    }
  }

  /** While an even epoch lasts nothing in the ledger changes. */
  lemma {:induction false} EvenEpochFrozen(trace: seq<Words>, limit: nat, i: nat, j: nat)
    requires Coherent(trace, limit) && i <= j < |trace| && trace[i].Quiet() && trace[i].epoch == trace[j].epoch
    ensures trace[i] == trace[j]
    decreases j
  {
    if i < j {
      EpochsGrow(trace, limit, i, j - 1);
      EpochsGrow(trace, limit, j - 1, j);
      EvenEpochFrozen(trace, limit, i, j - 1);
      assert Linked(trace, j - 1);
    }
  }

  // ---- the reader ----

  datatype Snapshot = Snapshot(
    limit: nat, reserved: nat, writeBytes: nat, readBytes: nat, readOps: nat, writeOps: nat,
    flushOps: nat, pending: nat, errors: nat, incomplete: bool, exhausted: bool)

  datatype Reading = Accepted(snapshot: Snapshot) | InvalidData | WouldBlock

  function SnapshotOf(w: Words, limit: nat): Snapshot {
    Snapshot(limit, w.reserved, w.writeBytes, w.readBytes, w.readOps, w.writeOps, w.flushOps, w.pending, w.errors,
             HasBit(w.flags, INCOMPLETE), HasBit(w.flags, EXHAUSTED))
  }

  /** An interleaving: load number `k` sees memory state `at(k)`, later loads later states. */
  ghost predicate Schedule(at: nat -> nat, states: nat) {
    && (forall k :: at(k) < states)
    && forall j, k :: j <= k ==> at(j) <= at(k)
  }

  /** Load number `k` of a reader under a schedule. */
  function Load(trace: seq<Words>, at: nat -> nat, k: nat, f: Field): nat
    requires at(k) < |trace|
  {
    trace[at(k)].Get(f)
  }

  /** Loads between two that saw the same even epoch all saw the same memory. */
  lemma UndisturbedLoads(trace: seq<Words>, limit: nat, at: nat -> nat, first: nat, last: nat)
    requires Coherent(trace, limit) && Schedule(at, |trace|) && first <= last
    requires trace[at(first)].Quiet() && trace[at(first)].epoch == trace[at(last)].epoch
    ensures forall j :: first <= j <= last ==> trace[at(j)] == trace[at(first)]
  {
    forall j | first <= j <= last ensures trace[at(j)] == trace[at(first)] {
      EpochsGrow(trace, limit, at(first), at(j));
      EpochsGrow(trace, limit, at(j), at(last));
      EvenEpochFrozen(trace, limit, at(first), at(j));
    }
  }

  /** The loads of one attempt, the first of which is number `k` and saw an even epoch. */
  method Attempt(trace: seq<Words>, limit: nat, at: nat -> nat, k: nat) returns (r: Reading, next: nat)
    requires Coherent(trace, limit) && Schedule(at, |trace|)
    ensures r == WouldBlock <==> !trace[at(k)].Quiet() || trace[at(k)].epoch != trace[at(k + 10)].epoch
    ensures r != WouldBlock ==> r == Accepted(SnapshotOf(trace[at(k)], limit))
    ensures next == if trace[at(k)].Quiet() then k + 11 else k + 1
  {
    var before := Load(trace, at, k, Epoch);
    if before % 2 != 0 { return WouldBlock, k + 1; }
    var flags := Load(trace, at, k + 1, Flags);
    var reserved := Load(trace, at, k + 2, Reserved);
    var writeBytes := Load(trace, at, k + 3, WriteBytes);
    var readBytes := Load(trace, at, k + 4, ReadBytes);
    var readOps := Load(trace, at, k + 5, ReadOps);
    var writeOps := Load(trace, at, k + 6, WriteOps);
    var flushOps := Load(trace, at, k + 7, FlushOps);
    var pending := Load(trace, at, k + 8, PendingOps);
    var errors := Load(trace, at, k + 9, Errors);
    var snapshot := Snapshot(limit, reserved, writeBytes, readBytes, readOps, writeOps, flushOps, pending, errors,
                             HasBit(flags, INCOMPLETE), HasBit(flags, EXHAUSTED));
    next := k + 11;
    r := WouldBlock;
    if before != Load(trace, at, k + 10, Epoch) { return; }
    UndisturbedLoads(trace, limit, at, k, k + 10);
    var invalid := flags >= 4 || reserved > limit || writeBytes > reserved || pending > 1;
    r := if invalid then InvalidData else Accepted(snapshot);
  }

  /** How many loads a reader has made after at most `n` attempts, the first of which begins at load `k`. */
  function LoadsMade(trace: seq<Words>, at: nat -> nat, k: nat, n: nat): (loads: nat)
    requires forall j :: at(j) < |trace|
    ensures k <= loads <= k + 11 * n
    decreases n
  {
    if n == 0 then k
    else if !trace[at(k)].Quiet() then LoadsMade(trace, at, k + 1, n - 1)
    else if trace[at(k)].epoch == trace[at(k + 10)].epoch then k + 11
    else LoadsMade(trace, at, k + 11, n - 1)
  }

  /**
    * Every accepted snapshot is the whole ledger at one moment of even epoch, between the first and the last of the
    * eleven loads that made it. Validation never trips, and a reader that sees one even epoch throughout is never
    * turned away.
    */
  method StableSnapshot(trace: seq<Words>, limit: nat, at: nat -> nat) returns (r: Reading, loads: nat, moment: nat)
    requires Coherent(trace, limit) && Schedule(at, |trace|)
    ensures r != InvalidData && loads == LoadsMade(trace, at, 0, ATTEMPTS)
    ensures r.Accepted? ==>
              && 11 <= loads && at(loads - 11) == moment <= at(loads - 1)
              && trace[moment].Quiet() && trace[moment].CountersOk(limit)
              && r.snapshot == SnapshotOf(trace[moment], limit)
    ensures trace[at(0)].Quiet() && trace[at(0)].epoch == trace[at(10)].epoch ==>
              r == Accepted(SnapshotOf(trace[at(0)], limit))
    ensures r == WouldBlock ==> trace[at(0)].epoch % 2 == 1 || trace[at(0)].epoch < trace[at(10)].epoch
  {
    var attempt, k := 0, 0;
    while attempt < ATTEMPTS
      invariant attempt <= ATTEMPTS && (attempt == 0 ==> k == 0)
      invariant LoadsMade(trace, at, 0, ATTEMPTS) == LoadsMade(trace, at, k, ATTEMPTS - attempt)
      invariant attempt > 0 ==> !trace[at(0)].Quiet() || trace[at(0)].epoch != trace[at(10)].epoch
    {
      var next;
      r, next := Attempt(trace, limit, at, k);
      if r != WouldBlock { return r, next, at(k); }
      k := next;
      attempt := attempt + 1;
    }
    EpochsGrow(trace, limit, at(0), at(10));
    r, loads, moment := WouldBlock, k, 0;
  }

  // ---- the writer ----

  datatype Operation = Read(bytes: nat) | Write(bytes: nat) | Flush

  /** An operation that ended, and whether it completed exactly. */
  datatype Ended = Ended(operation: Operation, success: bool)

  datatype Option<T> = None | Some(value: T)

  datatype Guard = Guard(operation: Operation, finishEpoch: nat, errorAfterFailure: nat)

  datatype Error = InvalidInput | AlreadyPending | ErrorOverflow | EpochExhausted | NoBudget | CountOverflow

  datatype Status = Success | Failure(error: Error)

  function WrittenBytes(o: Operation): nat { if o.Write? then o.bytes else 0 }

  /** Bytes of the writes that ended with the given result. */
  function TotalWritten(log: seq<Ended>, success: bool): nat {
    if log == [] then 0
    else
      TotalWritten(log[..|log| - 1], success) +
      if log[|log| - 1].success == success then WrittenBytes(log[|log| - 1].operation) else 0
  }

  function TotalRead(log: seq<Ended>): nat {
    if log == [] then 0
    else
      var e := log[|log| - 1];
      TotalRead(log[..|log| - 1]) + if e.success && e.operation.Read? then e.operation.bytes else 0
  }

  function Kind(o: Operation): Field {
    match o
    case Read(_) => ReadOps
    case Write(_) => WriteOps
    case Flush => FlushOps
  }

  function Completed(log: seq<Ended>, kind: Field): nat {
    if log == [] then 0
    else
      var e := log[|log| - 1];
      Completed(log[..|log| - 1], kind) + if e.success && Kind(e.operation) == kind then 1 else 0
  }

  function Failures(log: seq<Ended>): nat {
    if log == [] then 0 else Failures(log[..|log| - 1]) + if log[|log| - 1].success then 0 else 1
  }

  /** The words are exactly the totals of the operations that ended, plus what the pending one reserved. */
  ghost predicate Balanced(w: Words, limit: nat, log: seq<Ended>, waiting: Option<Operation>, refused: bool) {
    && w.reserved == TotalWritten(log, true) + TotalWritten(log, false) + Waiting(waiting) <= limit
    && w.writeBytes == TotalWritten(log, true) && w.readBytes == TotalRead(log)
    && w.readOps == Completed(log, ReadOps) && w.writeOps == Completed(log, WriteOps)
    && w.flushOps == Completed(log, FlushOps)
    && w.pending == (if waiting.Some? then 1 else 0) && w.errors == Failures(log)
    && w.flags == (if Failures(log) > 0 then INCOMPLETE else 0) + (if refused then EXHAUSTED else 0)
  }

  function Waiting(waiting: Option<Operation>): nat { if waiting.Some? then WrittenBytes(waiting.value) else 0 }

  predicate InRange(w: Words) { forall f: Field :: w.Get(f) <= MAX }

  lemma PutInRange(w: Words, f: Field, v: nat)
    requires InRange(w) && v <= MAX
    ensures InRange(w.Put(f, v))
  {
    forall g: Field ensures w.Put(f, v).Get(g) <= MAX {
      assert w.Get(g) <= MAX;
      assert w.Put(f, v).Get(g) == if f == g then v else w.Get(g);
    }
  }

  /** One more operation ended. */
  lemma EndedStep(log: seq<Ended>, e: Ended)
    ensures var more := log + [e];
            && (forall s :: TotalWritten(more, s) ==
                            TotalWritten(log, s) + if e.success == s then WrittenBytes(e.operation) else 0)
            && TotalRead(more) == TotalRead(log) + (if e.success && e.operation.Read? then e.operation.bytes else 0)
            && (forall k :: Completed(more, k) ==
                            Completed(log, k) + if e.success && Kind(e.operation) == k then 1 else 0)
            && Failures(more) == Failures(log) + if e.success then 0 else 1
  {
    assert (log + [e])[..|log|] == log;
  }

  lemma BalancedOk(w: Words, limit: nat, log: seq<Ended>, waiting: Option<Operation>, refused: bool)
    requires Balanced(w, limit, log, waiting, refused)
    ensures w.CountersOk(limit)
  {
  }

  /** The words after admitting an operation. */
  function Admitted(w: Words, o: Operation): Words {
    w.(epoch := w.epoch + 2, reserved := w.reserved + WrittenBytes(o), pending := 1)
  }

  function Refused(w: Words): Words { w.(epoch := w.epoch + 2, flags := SetBit(w.flags, EXHAUSTED)) }

  function Failed(w: Words): Words {
    w.(epoch := w.epoch + 2, pending := 0, errors := w.errors + 1, flags := SetBit(w.flags, INCOMPLETE))
  }

  function Finished(w: Words, o: Operation): Words {
    var done := w.(epoch := w.epoch + 2, pending := 0);
    match o
    case Read(n) => done.(readOps := w.readOps + 1, readBytes := w.readBytes + n)
    case Write(n) => done.(writeOps := w.writeOps + 1, writeBytes := w.writeBytes + n)
    case Flush => done.(flushOps := w.flushOps + 1)
  }

  lemma AdmittedBalanced(w: Words, limit: nat, log: seq<Ended>, refused: bool, o: Operation)
    requires Balanced(w, limit, log, None, refused) && w.reserved + WrittenBytes(o) <= limit
    ensures Balanced(Admitted(w, o), limit, log, Some(o), refused)
  {
  }

  lemma RefusedBalanced(w: Words, limit: nat, log: seq<Ended>, waiting: Option<Operation>, refused: bool)
    requires Balanced(w, limit, log, waiting, refused)
    ensures Balanced(Refused(w), limit, log, waiting, true)
  {
  }

  /** The bytes of a failed write move from the pending operation to the lost total. */
  lemma FailedBalanced(w: Words, limit: nat, log: seq<Ended>, refused: bool, o: Operation)
    requires Balanced(w, limit, log, Some(o), refused)
    ensures Balanced(Failed(w), limit, log + [Ended(o, false)], None, refused)
  {
    EndedStep(log, Ended(o, false));
    hide TotalWritten, TotalRead, Completed, Failures;
  }

  /** The bytes of a completed write move from the pending operation to the completed total. */
  lemma FinishedBalanced(w: Words, limit: nat, log: seq<Ended>, refused: bool, o: Operation)
    requires Balanced(w, limit, log, Some(o), refused)
    ensures Balanced(Finished(w, o), limit, log + [Ended(o, true)], None, refused)
    ensures o.Write? ==> w.writeBytes + o.bytes <= limit
  {
    EndedStep(log, Ended(o, true));
    hide TotalWritten, TotalRead, Completed, Failures;
  }

  // ---- what a run of the writer amounts to ----

  /** Dropping the guard abandons its operation; forgetting it leaves the ledger with a pending operation for good. */
  datatype Command = Begin(operation: Operation) | Finish(success: bool) | Drop | Forget

  /** The ledger between two commands. `held` is whether the guard of the pending operation still lives. */
  datatype Audit = Audit(words: Words, log: seq<Ended>, waiting: Option<Operation>, held: bool, refused: bool)

  /** When an operation is admitted, and why it is not. */
  function Admission(w: Words, limit: nat, o: Operation): Status {
    if !o.Flush? && o.bytes == 0 then Failure(InvalidInput)
    else if w.pending != 0 then Failure(AlreadyPending)
    else if w.errors >= MAX then Failure(ErrorOverflow)
    else if w.epoch + 4 > MAX then Failure(EpochExhausted)
    else if w.reserved + WrittenBytes(o) > limit then Failure(NoBudget)
    else Success
  }

  /** Completing `o` would overflow one of its totals. */
  predicate Overflows(w: Words, o: Operation) { w.Get(Kind(o)) >= MAX || (o.Read? && w.readBytes + o.bytes > MAX) }

  function End(a: Audit, o: Operation, success: bool): Audit {
    Audit(if success then Finished(a.words, o) else Failed(a.words),
          a.log + [Ended(o, success)], None, false, a.refused)
  }

  function After(limit: nat, a: Audit, c: Command): Audit {
    match c
    case Begin(o) =>
      if a.held then a
      else if Admission(a.words, limit, o) == Success then Audit(Admitted(a.words, o), a.log, Some(o), true, a.refused)
      else if Admission(a.words, limit, o) == Failure(NoBudget) then a.(words := Refused(a.words), refused := true)
      else a
    case Finish(success) =>
      if a.held && a.waiting.Some? then End(a, a.waiting.value, success && !Overflows(a.words, a.waiting.value)) else a
    case Drop => if a.held && a.waiting.Some? then End(a, a.waiting.value, false) else a
    case Forget => a.(held := false)
  }

  /** The ledger after a whole script. */
  function Play(limit: nat, script: seq<Command>): Audit {
    if script == [] then Audit(BLANK, [], None, false, false)
    else After(limit, Play(limit, script[..|script| - 1]), script[|script| - 1])
  }

  class Writer {
    const limit: nat
    var words: Words
    var guard: Option<Guard>
    /** Every memory state so far. */
    ghost var trace: seq<Words>
    ghost var log: seq<Ended>
    ghost var waiting: Option<Operation>
    ghost var refused: bool

    /** What holds between any two of the writer's stores. */
    ghost predicate Stored() reads this`words, this`trace {
      InRange(words) && Coherent(trace, limit) && trace[|trace| - 1] == words
    }

    ghost predicate Valid() reads this {
      && Stored() && limit <= MAX && words.Quiet() && Balanced(words, limit, log, waiting, refused)
      && (guard.Some? ==>
            && waiting == Some(guard.value.operation)
            && guard.value.finishEpoch == words.epoch + 2 <= MAX
            && guard.value.errorAfterFailure == words.errors + 1 <= MAX)
    }

    ghost function State(): Audit reads this { Audit(words, log, waiting, guard.Some?, refused) }

    constructor (writeLimit: nat)
      requires writeLimit <= MAX
      ensures Valid() && limit == writeLimit && guard == None && words == BLANK && log == [] && waiting == None
      ensures !refused
      ensures trace == [BLANK]
    {
      limit, words, guard := writeLimit, BLANK, None;
      trace, log, waiting, refused := [BLANK], [], None, false;
    }

    /** One atomic store. */
    method Store(f: Field, v: nat)
      requires Stored() && v <= MAX && StoreOk(words, words.Put(f, v))
      requires f == Epoch && v % 2 == 0 ==> words.CountersOk(limit)
      modifies this`words, this`trace
      ensures Stored() && words == old(words).Put(f, v) && old(trace) <= trace
    {
      CoherentAppend(trace, limit, words.Put(f, v));
      PutInRange(words, f, v);
      words := words.Put(f, v);
      trace := trace + [words];
    }

    /** The stores of a refused write. */
    method MarkExhausted()
      requires Valid() && waiting == None && guard == None && words.epoch + 2 <= MAX
      modifies this`words, this`trace, this`refused
      ensures Valid() && refused && words == Refused(old(words)) && old(trace) <= trace
    {
      hide Balanced, Coherent, InRange, Writer.Stored;
      var epoch := words.epoch;
      assert words.flags < 4 by { BalancedOk(words, limit, log, waiting, refused); }
      RefusedBalanced(words, limit, log, waiting, refused);
      BalancedOk(Refused(words), limit, log, waiting, true);
      refused := true;
      Store(Epoch, epoch + 1);
      Store(Flags, SetBit(words.flags, EXHAUSTED));
      Store(Epoch, epoch + 2);
    }

    /** The stores of an admitted operation. */
    method Admit(o: Operation)
      requires Valid() && waiting == None && guard == None && words.epoch + 2 <= MAX
      requires words.reserved + WrittenBytes(o) <= limit
      modifies this`words, this`trace, this`waiting
      ensures Valid() && waiting == Some(o) && words == Admitted(old(words), o) && old(trace) <= trace
    {
      hide Balanced, Coherent, InRange, Writer.Stored;
      var epoch := words.epoch;
      AdmittedBalanced(words, limit, log, refused, o);
      BalancedOk(Admitted(words, o), limit, log, Some(o), refused);
      Store(Epoch, epoch + 1);
      if o.Write? { Store(Reserved, words.reserved + o.bytes); }
      Store(PendingOps, 1);
      Store(Epoch, epoch + 2);
      waiting := Some(o);
    }

    /** Admits one operation and reserves all that ending it will need, or refuses, exactly as `Admission` says. */
    method Begin(o: Operation) returns (r: Status)
      requires Valid() && guard == None
      modifies this
      ensures Valid() && r == Admission(old(words), limit, o)
      ensures State() == After(limit, old(State()), Command.Begin(o)) && old(trace) <= trace
    {
      assert words.pending == (if waiting.Some? then 1 else 0);
      hide Balanced, Coherent, InRange, Writer.Stored;
      if !o.Flush? && o.bytes == 0 { return Failure(InvalidInput); }
      if words.pending != 0 { return Failure(AlreadyPending); }
      if words.errors + 1 > MAX { return Failure(ErrorOverflow); }
      var failed, epoch := words.errors + 1, words.epoch;
      if epoch % 2 != 0 || epoch + 4 > MAX { return Failure(EpochExhausted); }
      if o.Write? && words.reserved + o.bytes > limit {
        MarkExhausted();
        return Failure(NoBudget);
      }
      Admit(o);
      guard := Some(Guard(o, epoch + 4, failed));
      r := Success;
    }

    /** A failed or abandoned operation keeps its reservation; nothing here can overflow or fail. */
    method RecordFailure()
      requires Valid() && guard.Some?
      modifies this
      ensures Valid() && State() == End(old(State()), old(guard.value.operation), false) && old(trace) <= trace
    {
      hide Balanced, Coherent, InRange, Writer.Stored;
      var g := guard.value;
      FailedBalanced(words, limit, log, refused, g.operation);
      BalancedOk(Failed(words), limit, log + [Ended(g.operation, false)], None, refused);
      MarkFailed(g);
      guard, waiting := None, None;
      log := log + [Ended(g.operation, false)];
    }

    /** The stores of a failure. */
    method MarkFailed(g: Guard)
      requires Valid() && guard == Some(g)
      requires Failed(words).CountersOk(limit) && words.flags < 4
      modifies this`words, this`trace
      ensures Stored() && words == Failed(old(words)) && old(trace) <= trace
    {
      hide Balanced, Coherent, InRange, Writer.Stored;
      Store(Epoch, g.finishEpoch - 1);
      Store(PendingOps, 0);
      Store(Errors, g.errorAfterFailure);
      Store(Flags, SetBit(words.flags, INCOMPLETE));
      Store(Epoch, g.finishEpoch);
    }

    /** Exact success adds to the totals; an overflowing total is a failure of the operation, never of the ledger. */
    method Finish(success: bool) returns (r: Status)
      requires Valid() && guard.Some?
      modifies this
      ensures Valid() && State() == After(limit, old(State()), Command.Finish(success)) && old(trace) <= trace
      ensures r == if success && old(Overflows(words, guard.value.operation)) then Failure(CountOverflow) else Success
    {
      assert words.Get(Kind(guard.value.operation)) <= MAX;
      hide Balanced, Coherent, InRange, Writer.Stored;
      if !success {
        RecordFailure();
        return Success;
      }
      var g := guard.value;
      var kind := Kind(g.operation);
      var operations := words.Get(kind) + 1;
      var bytes :=
        match g.operation
        case Read(n) => words.readBytes + n
        case Write(n) => words.writeBytes + n
        case Flush => 0;
      assert g.operation.Write? ==> bytes <= limit by { FinishedBalanced(words, limit, log, refused, g.operation); }
      if operations > MAX || bytes > MAX {
        RecordFailure();
        return Failure(CountOverflow);
      }
      Complete(operations, bytes);
      r := Success;
    }

    method StoreTotals(o: Operation, operations: nat, bytes: nat)
      requires Stored() && !words.Quiet() && operations <= MAX && bytes <= MAX
      requires operations == words.Get(Kind(o)) + 1
      requires (o.Read? ==> bytes == words.readBytes + o.bytes) && (o.Write? ==> bytes == words.writeBytes + o.bytes)
      modifies this`words, this`trace
      ensures Stored() && old(trace) <= trace
      ensures words == Finished(old(words), o).(epoch := old(words.epoch), pending := old(words.pending))
    {
      hide Coherent, InRange, Writer.Stored;
      match o
      case Read(_) =>
        Store(ReadOps, operations);
        Store(ReadBytes, bytes);
      case Write(_) =>
        Store(WriteOps, operations);
        Store(WriteBytes, bytes);
      case Flush =>
        Store(FlushOps, operations);
    }

    /** The stores of an exact completion. */
    method Complete(operations: nat, bytes: nat)
      requires Valid() && guard.Some? && operations <= MAX && bytes <= MAX
      requires var o := guard.value.operation;
               && operations == words.Get(Kind(o)) + 1
               && (o.Read? ==> bytes == words.readBytes + o.bytes) && (o.Write? ==> bytes == words.writeBytes + o.bytes)
      modifies this
      ensures Valid() && State() == End(old(State()), old(guard.value.operation), true) && old(trace) <= trace
    {
      hide Balanced, Coherent, InRange, Writer.Stored;
      var g := guard.value;
      FinishedBalanced(words, limit, log, refused, g.operation);
      BalancedOk(Finished(words, g.operation), limit, log + [Ended(g.operation, true)], None, refused);
      Store(Epoch, g.finishEpoch - 1);
      StoreTotals(g.operation, operations, bytes);
      Store(PendingOps, 0);
      Store(Epoch, g.finishEpoch);
      guard, waiting := None, None;
      log := log + [Ended(g.operation, true)];
    }
  }

  method Step(w: Writer, command: Command)
    requires w.Valid()
    modifies w
    ensures w.Valid() && w.State() == After(w.limit, old(w.State()), command) && old(w.trace) <= w.trace
  {
    hide Balanced, Coherent, InRange, Writer.Stored, Admission, Admitted, Refused, Failed, Finished;
    match command
    case Begin(o) => if w.guard.None? { var r := w.Begin(o); }
    case Finish(success) => if w.guard.Some? { var r := w.Finish(success); }
    case Drop => if w.guard.Some? { w.RecordFailure(); }
    case Forget => w.guard := None;
  }

  /** Every command leaves the epoch alone or moves it by two. */
  lemma EpochStep(limit: nat, a: Audit, c: Command)
    ensures After(limit, a, c).words == a.words || After(limit, a, c).words.epoch == a.words.epoch + 2
  {
  }

  /** Some prefix of the script leaves the ledger as the words `w`. */
  ghost predicate Reached(limit: nat, script: seq<Command>, n: nat, w: Words) {
    exists k :: 0 <= k <= n <= |script| && PlayedTo(limit, script, k, w)
  }

  ghost predicate PlayedTo(limit: nat, script: seq<Command>, k: nat, w: Words)
    requires k <= |script|
  {
    Play(limit, script[..k]).words == w
  }

  /** The quiet states that one command adds to the memory are the ledger before it and after it. */
  lemma QuietStates(limit: nat, before: seq<Words>, trace: seq<Words>, j: nat)
    requires Coherent(trace, limit) && before != [] && before <= trace && |before| <= j < |trace| && trace[j].Quiet()
    requires before[|before| - 1].Quiet() && trace[|trace| - 1].Quiet()
    requires trace[|trace| - 1] == before[|before| - 1] || trace[|trace| - 1].epoch == before[|before| - 1].epoch + 2
    ensures trace[j] == before[|before| - 1] || trace[j] == trace[|trace| - 1]
  {
    EpochsGrow(trace, limit, |before| - 1, j);
    EpochsGrow(trace, limit, j, |trace| - 1);
    if trace[j].epoch == before[|before| - 1].epoch {
      EvenEpochFrozen(trace, limit, |before| - 1, j);
    } else {
      EvenEpochFrozen(trace, limit, j, |trace| - 1);
    }
  }

  lemma PlayStep(limit: nat, script: seq<Command>, k: nat)
    requires k < |script|
    ensures Play(limit, script[..k + 1]) == After(limit, Play(limit, script[..k]), script[k])
  {
    assert script[..k + 1][..k] == script[..k];
  }

  /** The states that a reader may catch at an even epoch are the ledgers between commands. */
  lemma ReachedStep(limit: nat, script: seq<Command>, n: nat, before: seq<Words>, trace: seq<Words>)
    requires n < |script| && Coherent(trace, limit) && before != [] && before <= trace
    requires before[|before| - 1] == Play(limit, script[..n]).words
    requires trace[|trace| - 1] == Play(limit, script[..n + 1]).words
    requires before[|before| - 1].Quiet() && trace[|trace| - 1].Quiet()
    requires forall j :: 0 <= j < |before| && before[j].Quiet() ==> Reached(limit, script, n, before[j])
    ensures forall j :: 0 <= j < |trace| && trace[j].Quiet() ==> Reached(limit, script, n + 1, trace[j])
  {
    hide Coherent, After, Play;
    PlayStep(limit, script, n);
    EpochStep(limit, Play(limit, script[..n]), script[n]);
    forall j | 0 <= j < |trace| && trace[j].Quiet() ensures Reached(limit, script, n + 1, trace[j]) {
      if j < |before| {
        assert Reached(limit, script, n, before[j]);
        var k :| 0 <= k <= n && PlayedTo(limit, script, k, before[j]);
      } else {
        QuietStates(limit, before, trace, j);
        assert PlayedTo(limit, script, n, before[|before| - 1]);
        assert PlayedTo(limit, script, n + 1, trace[|trace| - 1]);
      }
    }
  }

  /** The ledger and its memory follow the first `n` commands. */
  ghost predicate Follows(w: Writer, limit: nat, script: seq<Command>, n: nat)
    requires n <= |script|
    reads w
  {
    && w.Valid() && w.limit == limit && w.State() == Play(limit, script[..n]) && w.trace[0] == BLANK
    && forall j :: 0 <= j < |w.trace| && w.trace[j].Quiet() ==> Reached(limit, script, n, w.trace[j])
  }

  method Advance(w: Writer, limit: nat, script: seq<Command>, n: nat)
    requires n < |script| && Follows(w, limit, script, n)
    modifies w
    ensures Follows(w, limit, script, n + 1)
  {
    hide Balanced, InRange, After, Play, Reached, StoreOk;
    ghost var before := w.trace;
    PlayStep(limit, script, n);
    Step(w, script[n]);
    ReachedStep(limit, script, n, before, w.trace);
  }

  /**
    * Every run of the writer leaves exactly the ledger its script adds up to. Its bytes are conserved: reserved is
    * completed plus failed plus pending, within the limit. Whatever a reader can catch at an even epoch is the ledger
    * after some prefix of the script.
    */
  method Run(limit: nat, script: seq<Command>) returns (w: Writer)
    requires limit <= MAX
    ensures w.Valid() && w.limit == limit && w.State() == Play(limit, script)
    ensures Balanced(w.words, limit, w.log, w.waiting, w.refused)
    ensures Coherent(w.trace, limit) && w.trace[0] == BLANK && w.trace[|w.trace| - 1] == w.words
    ensures forall j :: 0 <= j < |w.trace| && w.trace[j].Quiet() ==> Reached(limit, script, |script|, w.trace[j])
  {
    w := new Writer(limit);
    var n := 0;
    assert script[..0] == [] && PlayedTo(limit, script, 0, BLANK);
    while n < |script|
      invariant n <= |script| && fresh(w) && Follows(w, limit, script, n)
    {
      Advance(w, limit, script, n);
      n := n + 1;
    }
    assert script[..n] == script;
  }
}
