/** The simulated disk: a volatile write cache over durable blocks, with injected request failures. */
module Target {
  import opened Oracle

  datatype Pending = Nothing | Write | Discard
  datatype Injected = Healthy | NoSpace | IoErrorApplied | IoErrorDropped
  datatype IoResult = Done | OutOfSpace | Unsupported | Other

  /** What a request's result tells the checker about its effect. */
  function OutcomeOf(r: IoResult): Outcome {
    match r
    case Done => Acked
    case OutOfSpace => Refused
    case Unsupported => Refused
    case Other => Unknown
  }

  function ReplyOf(f: Injected): IoResult {
    match f
    case Healthy => Done
    case NoSpace => OutOfSpace
    case IoErrorApplied => Other
    case IoErrorDropped => Other
  }

  predicate Lands(f: Injected) { f == Healthy || f == IoErrorApplied }

  function Pick(pending: Pending, durable: Content, cached: Content): Content {
    match pending
    case Nothing => durable
    case Write => cached
    case Discard => Zero
  }

  predicate Survives(keep: seq<bool>, i: nat) { i < |keep| && keep[i] }

  /** A target without planned faults. Its blocks are named by what they decode to. */
  class MemoryTarget {
    var durable: seq<Content>
    var cached: seq<Content>
    var pending: seq<Pending>
    var injected: Injected
    const count: nat

    ghost predicate Valid() reads this { |durable| == |cached| == |pending| == count }

    /** What a read returns. */
    function Visible(i: nat): Content
      reads this
      requires Valid() && i < count
    {
      Pick(pending[i], durable[i], cached[i])
    }

    constructor (blocks: nat)
      ensures Valid() && count == blocks && injected == Healthy
      ensures forall i :: 0 <= i < blocks ==> durable[i] == Zero && Visible(i) == Zero
    {
      count := blocks;
      durable := seq(blocks, i => Zero);
      cached := seq(blocks, i => Zero);
      pending := seq(blocks, i => Nothing);
      injected := Healthy;
    }

    /** A request reaches the cache, and reports an error, as the injected failure says; nothing durable changes. */
    method Put(lba: nat, block: Content) returns (r: IoResult)
      requires Valid()
      modifies this
      ensures Valid() && durable == old(durable)
      ensures lba >= count ==> r == Other && injected == old(injected)
      ensures lba < count ==>
                && injected == Healthy && r == ReplyOf(old(injected))
                && Visible(lba) == (if Lands(old(injected)) then block else old(Visible(lba)))
      ensures forall i :: 0 <= i < count && i != lba ==> Visible(i) == old(Visible(i))
    {
      if lba >= count { return Other; }
      var failure := injected;
      injected := Healthy;
      match failure
      case NoSpace => r := OutOfSpace;
      case IoErrorDropped => r := Other;
      case IoErrorApplied =>
        cached, pending := cached[lba := block], pending[lba := Write];
        r := Other;
      case Healthy =>
        cached, pending := cached[lba := block], pending[lba := Write];
        r := Done;
    }

    /** A discard is a write of zeros to a whole range that lands or fails as one request. */
    method DiscardRange(lba: nat, blocks: nat) returns (r: IoResult)
      requires Valid()
      modifies this
      ensures Valid() && durable == old(durable)
      ensures lba >= count || lba + blocks > count ==>
                r == Other && injected == old(injected) && pending == old(pending) && cached == old(cached)
      ensures lba < count && lba + blocks <= count ==>
                && injected == Healthy && r == ReplyOf(old(injected))
                && forall i :: 0 <= i < count ==>
                     Visible(i) == if lba <= i < lba + blocks && Lands(old(injected)) then Zero else old(Visible(i))
    {
      if lba >= count || lba + blocks > count { return Other; }
      var failure := injected;
      injected := Healthy;
      match failure
      case NoSpace => r := OutOfSpace;
      case IoErrorDropped => r := Other;
      case IoErrorApplied =>
        FillDiscard(lba, lba + blocks);
        r := Other;
      case Healthy =>
        FillDiscard(lba, lba + blocks);
        r := Done;
    }

    method FillDiscard(start: nat, end: nat)
      requires Valid() && start <= end <= count
      modifies this`pending
      ensures Valid()
      ensures forall i :: 0 <= i < count ==> pending[i] == if start <= i < end then Discard else old(pending[i])
    {
      pending := seq(count, i requires 0 <= i < count && |pending| == count reads this =>
                            if start <= i < end then Discard else pending[i]);
    }

    /** Each unflushed request reaches the medium or is lost, block by block. */
    method SettleAll(keep: seq<bool>)
      requires Valid()
      modifies this`durable, this`pending
      ensures Valid()
      ensures forall i :: 0 <= i < count ==>
                durable[i] == if Survives(keep, i) then old(Visible(i)) else old(durable[i])
      ensures forall i :: 0 <= i < count ==> Visible(i) == durable[i]
    {
      var i := 0;
      while i < count
        invariant 0 <= i <= count && Valid()
        invariant forall j :: i <= j < count ==> durable[j] == old(durable[j]) && pending[j] == old(pending[j])
        invariant forall j :: 0 <= j < i ==>
                    && durable[j] == (if Survives(keep, j) then old(Visible(j)) else old(durable[j]))
                    && pending[j] == Nothing
      {
        if Survives(keep, i) { durable := durable[i := Pick(pending[i], durable[i], cached[i])]; }
        pending := pending[i := Nothing];
        i := i + 1;
      }
    }

    method Flush()
      requires Valid()
      modifies this`durable, this`pending
      ensures Valid()
      ensures forall i :: 0 <= i < count ==> durable[i] == Visible(i) == old(Visible(i))
    {
      SettleAll(seq(count, i => true));
    }

    /** Power loss keeps any subset of the unflushed requests and cancels an injected failure. */
    method Crash(keep: seq<bool>)
      requires Valid()
      modifies this
      ensures Valid() && injected == Healthy
      ensures forall i :: 0 <= i < count ==>
                durable[i] == if Survives(keep, i) then old(Visible(i)) else old(durable[i])
      ensures forall i :: 0 <= i < count ==> Visible(i) == durable[i]
    {
      injected := Healthy;
      SettleAll(keep);
    }
  }
}
