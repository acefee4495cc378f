/** The balance ledger: eight guarded operations over four components, a recomputed total
    and a version. */
module Balance {
  import opened Decimals

  datatype Error =
    | NegativeAmount | InsufficientBalance | InsufficientLocked | InsufficientOnChain | InsufficientPending

  datatype Outcome = Ok | Err(error: Error)

  /** The value of a balance at one moment. */
  datatype Ledger = Ledger(
    available: Decimal, locked: Decimal, onChain: Decimal, pending: Decimal, total: Decimal, version: int)

  datatype Op =
    | LockAmount(amount: Decimal)
    | UnlockAmount(amount: Decimal)
    | AddAvailable(amount: Decimal)
    | AddLocked(amount: Decimal)
    | AddOnChain(amount: Decimal)
    | AddPendingDeposit(amount: Decimal)
    | ConfirmDeposit(amount: Decimal)
    | SettleWithdrawal(amount: Decimal)

  /** The component an operation takes its amount from, with the error when that is too
      small. */
  function Guard(l: Ledger, op: Op): Outcome {
    if op.amount < 0.0 then Err(NegativeAmount)
    else
      match op
      case LockAmount(a) => if l.available < a then Err(InsufficientBalance) else Ok
      case UnlockAmount(a) => if l.locked < a then Err(InsufficientLocked) else Ok
      case ConfirmDeposit(a) => if l.pending < a then Err(InsufficientPending) else Ok
      case SettleWithdrawal(a) => if l.onChain < a then Err(InsufficientOnChain) else Ok
      case _ => Ok
  }

  function Components(l: Ledger): Decimal {
    l.available + l.locked + l.onChain + l.pending
  }

  function Recalculated(l: Ledger): Ledger {
    l.(total := Components(l), version := l.version + 1)
  }

  function Moved(l: Ledger, op: Op): Ledger {
    match op
    case LockAmount(a) => l.(available := l.available - a, locked := l.locked + a)
    case UnlockAmount(a) => l.(locked := l.locked - a, available := l.available + a)
    case AddAvailable(a) => l.(available := l.available + a)
    case AddLocked(a) => l.(locked := l.locked + a)
    case AddOnChain(a) => l.(onChain := l.onChain + a)
    case AddPendingDeposit(a) => l.(pending := l.pending + a)
    case ConfirmDeposit(a) => l.(pending := l.pending - a, onChain := l.onChain + a)
    case SettleWithdrawal(a) => l.(onChain := l.onChain - a)
  }

  function Apply(l: Ledger, op: Op): Ledger {
    if Guard(l, op).Ok? then Recalculated(Moved(l, op)) else l
  }

  // ---------------------------------------------------------------- the object

  class Balance {
    var available: Decimal
    var locked: Decimal
    var onChain: Decimal
    var pendingDeposit: Decimal
    var total: Decimal
    var version: int

    ghost function Value(): Ledger
      reads this
    {
      Ledger(available, locked, onChain, pendingDeposit, total, version)
    }

    constructor (
      available: Decimal, locked: Decimal, onChain: Decimal, pendingDeposit: Decimal, total: Decimal, version: int)
      ensures Value() == Ledger(available, locked, onChain, pendingDeposit, total, version)
    {
      this.available, this.locked, this.onChain := available, locked, onChain;
      this.pendingDeposit, this.total, this.version := pendingDeposit, total, version;
    }

    method RecalcTotal()
      modifies this`total
      ensures total == available + locked + onChain + pendingDeposit
    {
      total := available + locked + onChain + pendingDeposit;
    }

    method LockAmount(amount: Decimal) returns (r: Outcome)
      modifies this
      ensures r == Guard(old(Value()), Op.LockAmount(amount))
      ensures Value() == Apply(old(Value()), Op.LockAmount(amount))
    {
      if amount < 0.0 { return Err(NegativeAmount); }
      if available < amount { return Err(InsufficientBalance); }
      available := available - amount;
      locked := locked + amount;
      RecalcTotal();
      version := version + 1;
      return Ok;
    }

    method UnlockAmount(amount: Decimal) returns (r: Outcome)
      modifies this
      ensures r == Guard(old(Value()), Op.UnlockAmount(amount))
      ensures Value() == Apply(old(Value()), Op.UnlockAmount(amount))
    {
      if amount < 0.0 { return Err(NegativeAmount); }
      if locked < amount { return Err(InsufficientLocked); }
      locked := locked - amount;
      available := available + amount;
      RecalcTotal();
      version := version + 1;
      return Ok;
    }

    method AddAvailable(amount: Decimal) returns (r: Outcome)
      modifies this
      ensures r == Guard(old(Value()), Op.AddAvailable(amount))
      ensures Value() == Apply(old(Value()), Op.AddAvailable(amount))
    {
      if amount < 0.0 { return Err(NegativeAmount); }
      available := available + amount;
      RecalcTotal();
      version := version + 1;
      return Ok;
    }

    method AddLocked(amount: Decimal) returns (r: Outcome)
      modifies this
      ensures r == Guard(old(Value()), Op.AddLocked(amount))
      ensures Value() == Apply(old(Value()), Op.AddLocked(amount))
    {
      if amount < 0.0 { return Err(NegativeAmount); }
      locked := locked + amount;
      RecalcTotal();
      version := version + 1;
      return Ok;
    }

    method AddOnChain(amount: Decimal) returns (r: Outcome)
      modifies this
      ensures r == Guard(old(Value()), Op.AddOnChain(amount))
      ensures Value() == Apply(old(Value()), Op.AddOnChain(amount))
    {
      if amount < 0.0 { return Err(NegativeAmount); }
      onChain := onChain + amount;
      RecalcTotal();
      version := version + 1;
      return Ok;
    }

    method AddPendingDeposit(amount: Decimal) returns (r: Outcome)
      modifies this
      ensures r == Guard(old(Value()), Op.AddPendingDeposit(amount))
      ensures Value() == Apply(old(Value()), Op.AddPendingDeposit(amount))
    {
      if amount < 0.0 { return Err(NegativeAmount); }
      pendingDeposit := pendingDeposit + amount;
      RecalcTotal();
      version := version + 1;
      return Ok;
    }

    method ConfirmDeposit(amount: Decimal) returns (r: Outcome)
      modifies this
      ensures r == Guard(old(Value()), Op.ConfirmDeposit(amount))
      ensures Value() == Apply(old(Value()), Op.ConfirmDeposit(amount))
    {
      if amount < 0.0 { return Err(NegativeAmount); }
      if pendingDeposit < amount { return Err(InsufficientPending); }
      pendingDeposit := pendingDeposit - amount;
      onChain := onChain + amount;
      RecalcTotal();
      version := version + 1;
      return Ok;
    }

    method SettleWithdrawal(amount: Decimal) returns (r: Outcome)
      modifies this
      ensures r == Guard(old(Value()), Op.SettleWithdrawal(amount))
      ensures Value() == Apply(old(Value()), Op.SettleWithdrawal(amount))
    {
      if amount < 0.0 { return Err(NegativeAmount); }
      if onChain < amount { return Err(InsufficientOnChain); }
      onChain := onChain - amount;
      RecalcTotal();
      version := version + 1;
      return Ok;
    }

    /** CanTrade and CanWithdraw are the same test. It foretells LockAmount, except for a
        negative amount, which it lets pass and LockAmount refuses. */
    function CanTrade(amount: Decimal): (r: bool)
      reads this
      ensures amount >= 0.0 ==> (r <==> Guard(Value(), Op.LockAmount(amount)).Ok?)
      ensures r && amount < 0.0 ==> Guard(Value(), Op.LockAmount(amount)) == Err(NegativeAmount)
    {
      available >= amount
    }
  }

  // ---------------------------------------------------------------- runs of operations

  function Run(l: Ledger, ops: seq<Op>): Ledger {
    if ops == [] then l else Apply(Run(l, ops[..|ops| - 1]), ops[|ops| - 1])
  }

  /** The operation that comes last is not refused. */
  predicate LastSucceeds(l: Ledger, ops: seq<Op>)
    requires ops != []
  {
    Guard(Run(l, ops[..|ops| - 1]), ops[|ops| - 1]).Ok?
  }

  predicate Consistent(l: Ledger) {
    && l.available >= 0.0 && l.locked >= 0.0 && l.onChain >= 0.0 && l.pending >= 0.0
    && l.total == l.available + l.locked + l.onChain + l.pending
  }

  datatype Kind = Locking | Unlocking | ToAvailable | ToLocked | ToOnChain | ToPending | Confirming | Settling

  function KindOf(op: Op): Kind {
    match op
    case LockAmount(_) => Locking
    case UnlockAmount(_) => Unlocking
    case AddAvailable(_) => ToAvailable
    case AddLocked(_) => ToLocked
    case AddOnChain(_) => ToOnChain
    case AddPendingDeposit(_) => ToPending
    case ConfirmDeposit(_) => Confirming
    case SettleWithdrawal(_) => Settling
  }

  /** The sum of the amounts of one kind over the operations of a run that succeed. */
  function Volume(l: Ledger, ops: seq<Op>, kind: Kind): Decimal {
    if ops == [] then 0.0
    else
      Volume(l, ops[..|ops| - 1], kind)
      + (if LastSucceeds(l, ops) && KindOf(ops[|ops| - 1]) == kind then ops[|ops| - 1].amount else 0.0)
  }

  /** How many operations of a run succeed. */
  function Successes(l: Ledger, ops: seq<Op>): nat {
    if ops == [] then 0 else Successes(l, ops[..|ops| - 1]) + (if LastSucceeds(l, ops) then 1 else 0)
  }

  /** No run makes a component negative or lets the total drift from the sum. */
  lemma {:induction false} RunStaysConsistent(l: Ledger, ops: seq<Op>)
    requires Consistent(l)
    ensures Consistent(Run(l, ops))
  {
    if ops != [] {
      RunStaysConsistent(l, ops[..|ops| - 1]);
    }
  }

  /** An operation on a consistent ledger is refused if and only if its amount is negative or
      it would make a component negative, and the error names that component. */
  lemma RefusedIff(l: Ledger, op: Op)
    requires Consistent(l)
    ensures var m := Moved(l, op);
            && (Guard(l, op).Err? <==>
                  op.amount < 0.0 || m.available < 0.0 || m.locked < 0.0 || m.onChain < 0.0 || m.pending < 0.0)
            && (Guard(l, op) == Err(NegativeAmount) <==> op.amount < 0.0)
            && (op.amount >= 0.0 ==>
                  && (Guard(l, op) == Err(InsufficientBalance) <==> m.available < 0.0)
                  && (Guard(l, op) == Err(InsufficientLocked) <==> m.locked < 0.0)
                  && (Guard(l, op) == Err(InsufficientOnChain) <==> m.onChain < 0.0)
                  && (Guard(l, op) == Err(InsufficientPending) <==> m.pending < 0.0))
  {
  }

  /** Every component is its start plus what was moved into it minus what was moved out. */
  lemma {:induction false} ComponentsAreAccountedFor(l: Ledger, ops: seq<Op>)
    ensures var r := Run(l, ops);
            && r.available == l.available + Volume(l, ops, ToAvailable) + Volume(l, ops, Unlocking)
                              - Volume(l, ops, Locking)
            && r.locked == l.locked + Volume(l, ops, ToLocked) + Volume(l, ops, Locking) - Volume(l, ops, Unlocking)
            && r.onChain == l.onChain + Volume(l, ops, ToOnChain) + Volume(l, ops, Confirming)
                            - Volume(l, ops, Settling)
            && r.pending == l.pending + Volume(l, ops, ToPending) - Volume(l, ops, Confirming)
  {
    if ops != [] {
      ComponentsAreAccountedFor(l, ops[..|ops| - 1]);
    }
  }

  lemma {:induction false} VolumeIsNonNegative(l: Ledger, ops: seq<Op>, kind: Kind)
    ensures Volume(l, ops, kind) >= 0.0
  {
    if ops != [] {
      VolumeIsNonNegative(l, ops[..|ops| - 1], kind);
    }
  }

  /** The total is its start plus every credit that succeeded minus every withdrawal that was
      settled; locking, unlocking and confirming move nothing in or out. */
  lemma TotalIsAccountedFor(l: Ledger, ops: seq<Op>)
    requires Consistent(l)
    ensures Run(l, ops).total == l.total
              + Volume(l, ops, ToAvailable) + Volume(l, ops, ToLocked)
              + Volume(l, ops, ToOnChain) + Volume(l, ops, ToPending)
              - Volume(l, ops, Settling)
  {
    RunStaysConsistent(l, ops);
    ComponentsAreAccountedFor(l, ops);
  }

  function Tradable(l: Ledger): Decimal { l.available + l.locked }

  /** Available plus locked is its start plus the credits that went there: no operation takes
      anything out of it, and every payout comes from the on-chain part. */
  lemma {:induction false} TradableIsNeverDebited(l: Ledger, ops: seq<Op>)
    ensures Tradable(Run(l, ops)) == Tradable(l) + Volume(l, ops, ToAvailable) + Volume(l, ops, ToLocked)
    ensures Tradable(Run(l, ops)) >= Tradable(l)
  {
    ComponentsAreAccountedFor(l, ops);
    VolumeIsNonNegative(l, ops, ToAvailable);
    VolumeIsNonNegative(l, ops, ToLocked);
  }

  /** It never falls between any two moments of a run. */
  lemma TradableNeverFalls(l: Ledger, ops: seq<Op>, i: nat)
    requires i <= |ops|
    ensures Tradable(Run(l, ops[..i])) <= Tradable(Run(l, ops))
  {
    RunSplits(l, ops[..i], ops[i..]);
    assert ops[..i] + ops[i..] == ops;
    TradableIsNeverDebited(Run(l, ops[..i]), ops[i..]);
  }

  lemma {:induction false} RunSplits(l: Ledger, first: seq<Op>, second: seq<Op>)
    ensures Run(l, first + second) == Run(Run(l, first), second)
  {
    if second == [] {
      assert first + second == first;
    } else {
      var most := second[..|second| - 1];
      assert (first + second)[..|first + second| - 1] == first + most;
      RunSplits(l, first, most);
    }
  }

  /** The version counts the operations that succeeded. */
  lemma {:induction false} VersionCounts(l: Ledger, ops: seq<Op>)
    ensures Run(l, ops).version == l.version + Successes(l, ops)
    ensures Run(l, ops).version == l.version ==> Run(l, ops) == l
  {
    if ops != [] {
      VersionCounts(l, ops[..|ops| - 1]);
    }
  }

  /** Optimistic locking is sound: along a run two moments with the same version have the
      same state. */
  lemma EqualVersionsEqualStates(l: Ledger, ops: seq<Op>, i: nat, j: nat)
    requires i <= j <= |ops| && Run(l, ops[..i]).version == Run(l, ops[..j]).version
    ensures Run(l, ops[..i]) == Run(l, ops[..j])
  {
    assert ops[..j] == ops[..i] + ops[i..j];
    RunSplits(l, ops[..i], ops[i..j]);
    VersionCounts(Run(l, ops[..i]), ops[i..j]);
  }

  // ---------------------------------------------------------------- lists of locks

  function Locks(amounts: seq<Decimal>): seq<Op> {
    seq(|amounts|, i requires 0 <= i < |amounts| => LockAmount(amounts[i]))
  }

  function Sum(amounts: seq<Decimal>): Decimal {
    if amounts == [] then 0.0 else Sum(amounts[..|amounts| - 1]) + amounts[|amounts| - 1]
  }

  /** Every operation of the list succeeds in its turn. */
  predicate AllSucceed(l: Ledger, ops: seq<Op>) {
    ops == [] || (AllSucceed(l, ops[..|ops| - 1]) && LastSucceeds(l, ops))
  }

  /** What a list of locks that all succeed has done. */
  lemma {:induction false} LocksAddUp(l: Ledger, amounts: seq<Decimal>)
    requires forall i :: 0 <= i < |amounts| ==> amounts[i] >= 0.0
    ensures Sum(amounts) >= 0.0
    ensures AllSucceed(l, Locks(amounts)) <==> amounts == [] || Sum(amounts) <= l.available
    ensures AllSucceed(l, Locks(amounts)) && amounts != [] ==>
              Run(l, Locks(amounts)).(version := l.version + 1) == Apply(l, LockAmount(Sum(amounts)))
              && Run(l, Locks(amounts)).version == l.version + |amounts|
    ensures AllSucceed(l, Locks(amounts)) ==> Run(l, Locks(amounts)).available == l.available - Sum(amounts)
  {
    if amounts != [] {
      var most, last := amounts[..|amounts| - 1], amounts[|amounts| - 1];
      LocksAddUp(l, most);
      assert Locks(amounts)[..|amounts| - 1] == Locks(most);
      if most == [] {
        assert Locks(most) == [];
      }
    }
  }

  lemma {:induction false} SumWithout(amounts: seq<Decimal>, i: nat)
    requires i < |amounts|
    ensures Sum(amounts) == Sum(amounts[..i] + amounts[i + 1..]) + amounts[i]
  {
    var last := |amounts| - 1;
    if i == last {
      assert amounts[..i] + amounts[i + 1..] == amounts[..last];
    } else {
      SumWithout(amounts[..last], i);
      var rest := amounts[..i] + amounts[i + 1..];
      assert rest[..|rest| - 1] == amounts[..last][..i] + amounts[..last][i + 1..];
    }
  }

  lemma WithoutOne(amounts: seq<Decimal>, i: nat)
    requires i < |amounts|
    ensures multiset(amounts[..i] + amounts[i + 1..]) == multiset(amounts) - multiset{amounts[i]}
  {
    assert amounts == amounts[..i] + [amounts[i]] + amounts[i + 1..];
  }

  lemma {:induction false} SumIgnoresOrder(a: seq<Decimal>, b: seq<Decimal>)
    requires multiset(a) == multiset(b)
    ensures Sum(a) == Sum(b) && |a| == |b|
  {
    assert |multiset(a)| == |multiset(b)|;
    if a != [] {
      var last := |a| - 1;
      assert a[last] in multiset(b);
      var i :| 0 <= i < |b| && b[i] == a[last];
      WithoutOne(a, last);
      WithoutOne(b, i);
      assert a[..last] + a[last + 1..] == a[..last];
      SumIgnoresOrder(a[..last], b[..i] + b[i + 1..]);
      SumWithout(b, i);
    }
  }

  /** A list of locks succeeds as a whole if and only if its sum is available, in whatever
      order it is tried, and then has the effect of one lock of the sum, apart from the
      version. */
  lemma {:induction false} LocksInAnyOrder(l: Ledger, a: seq<Decimal>, b: seq<Decimal>)
    requires multiset(a) == multiset(b) && a != [] && forall i :: 0 <= i < |a| ==> a[i] >= 0.0
    ensures AllSucceed(l, Locks(a)) <==> Guard(l, LockAmount(Sum(a))).Ok?
    ensures AllSucceed(l, Locks(b)) <==> AllSucceed(l, Locks(a))
    ensures AllSucceed(l, Locks(a)) ==>
              Run(l, Locks(a)) == Run(l, Locks(b))
              && Run(l, Locks(a)).(version := l.version + 1) == Apply(l, LockAmount(Sum(a)))
  {
    SumIgnoresOrder(a, b);
    forall i | 0 <= i < |b| ensures b[i] >= 0.0 {
      assert b[i] in multiset(a);
    }
    LocksAddUp(l, a);
    LocksAddUp(l, b);
  }

  /** Unlocking what was locked restores everything but the version. */
  lemma UnlockUndoesLock(l: Ledger, amount: Decimal)
    requires Consistent(l) && Guard(l, LockAmount(amount)).Ok?
    ensures Guard(Apply(l, LockAmount(amount)), UnlockAmount(amount)).Ok?
    ensures Apply(Apply(l, LockAmount(amount)), UnlockAmount(amount)) == l.(version := l.version + 2)
  {
  }
}
