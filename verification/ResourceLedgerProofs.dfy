/** Two-index accounting of holds, over single calls and over whole runs. */
module ResourceLedgerProofs {
  import opened Prelude
  import opened Sums
  import opened AtsTypes
  import opened ResourceLedger

  // ---- the invariant ----

  function OnBudget(b: Id): ResourceReservation -> real {
    (h: ResourceReservation) => if h.status == Reserved && h.budgetRef == b then h.quantity else 0.0
  }

  function OnQuota(q: Id): ResourceReservation -> real {
    (h: ResourceReservation) => if h.status == Reserved && h.quotaRef == q then h.quantity else 0.0
  }

  ghost function HeldOnBudget(l: Ledger, b: Id): real {
    Sum(l.holds, OnBudget(b))
  }

  ghost function HeldOnQuota(l: Ledger, q: Id): real {
    Sum(l.holds, OnQuota(q))
  }

  /** What a budget records is what its active holds add up to. */
  ghost predicate BudgetConsistent(l: Ledger, id: Id)
    requires id in l.budgets
  {
    var b := l.budgets[id];
    && b.budgetId == id
    && OrZero(b.reservedQuantity) == HeldOnBudget(l, id)
    && b.availableQuantity == b.limitQuantity - b.consumedQuantity - OrZero(b.reservedQuantity)
    && b.availableQuantity >= 0.0
    && (b.status == Exhausted <==> b.availableQuantity == 0.0)
  }

  ghost predicate QuotaConsistent(l: Ledger, id: Id)
    requires id in l.quotas
  {
    var q := l.quotas[id];
    && q.quotaId == id
    && OrZero(q.reservedQuantity) == HeldOnQuota(l, id)
    && q.maxQuantity - q.usedQuantity - OrZero(q.reservedQuantity) >= 0.0
    && (q.status == Exhausted <==> q.maxQuantity - q.usedQuantity - OrZero(q.reservedQuantity) == 0.0)
  }

  predicate HoldValid(l: Ledger, id: Id)
    requires id in l.holds
  {
    var h := l.holds[id];
    && h.reservationId == id
    && (h.status == Reserved ==> h.quantity > 0.0 && h.budgetRef in l.budgets && h.quotaRef in l.quotas)
  }

  ghost predicate Consistent(l: Ledger) {
    && (forall b :: b in l.budgets ==> BudgetConsistent(l, b))
    && (forall q :: q in l.quotas ==> QuotaConsistent(l, q))
    && (forall h :: h in l.holds ==> HoldValid(l, h))
  }

  /** An active hold is covered by what its budget and its quota record as reserved. */
  lemma HoldCovered(l: Ledger, id: Id)
    requires Consistent(l) && l.IsActive(id)
    ensures var h := l.holds[id];
            && h.quantity <= OrZero(l.budgets[h.budgetRef].reservedQuantity)
            && h.quantity <= OrZero(l.quotas[h.quotaRef].reservedQuantity)
  {
    var h := l.holds[id];
    assert HoldValid(l, id) && BudgetConsistent(l, h.budgetRef) && QuotaConsistent(l, h.quotaRef);
    assert forall j :: j in l.holds ==> HoldValid(l, j);
    SumAtLeast(l.holds, OnBudget(h.budgetRef), id);
    SumAtLeast(l.holds, OnQuota(h.quotaRef), id);
  }

  // ---- one call ----

  /**
   `h` may be written with the new records `b` and `q`: it replaces no active hold on other
   records, and `b` and `q` take up exactly the difference it makes.
   */
  predicate Accounted(l: Ledger, h: ResourceReservation, b: ResourceBudget, q: ResourceQuota) {
    && h.budgetRef == b.budgetId && b.budgetId in l.budgets
    && h.quotaRef == q.quotaId && q.quotaId in l.quotas
    && (h.status == Reserved ==> h.quantity > 0.0)
    && (l.IsActive(h.reservationId) ==>
          && l.holds[h.reservationId].budgetRef == h.budgetRef
          && l.holds[h.reservationId].quotaRef == h.quotaRef)
    && (var gain := (if h.status == Reserved then h.quantity else 0.0)
                    - (if l.IsActive(h.reservationId) then l.holds[h.reservationId].quantity else 0.0);
        && OrZero(b.reservedQuantity) == OrZero(l.budgets[b.budgetId].reservedQuantity) + gain
        && OrZero(q.reservedQuantity) == OrZero(l.quotas[q.quotaId].reservedQuantity) + gain)
    && b.availableQuantity == b.limitQuantity - b.consumedQuantity - OrZero(b.reservedQuantity) >= 0.0
    && (b.status == Exhausted <==> b.availableQuantity == 0.0)
    && q.maxQuantity - q.usedQuantity - OrZero(q.reservedQuantity) >= 0.0
    && (q.status == Exhausted <==> q.maxQuantity - q.usedQuantity - OrZero(q.reservedQuantity) == 0.0)
  }

  lemma PutConsistent(l: Ledger, h: ResourceReservation, b: ResourceBudget, q: ResourceQuota)
    requires Consistent(l) && Accounted(l, h, b, q)
    ensures Consistent(l.Put(h, b, q))
  {
    var l' := l.Put(h, b, q);
    forall id | id in l'.budgets
      ensures BudgetConsistent(l', id)
    {
      PutBudgetConsistent(l, h, b, q, id);
    }
    forall id | id in l'.quotas
      ensures QuotaConsistent(l', id)
    {
      PutQuotaConsistent(l, h, b, q, id);
    }
    forall id | id in l'.holds
      ensures HoldValid(l', id)
    {
      assert id in l.holds ==> HoldValid(l, id);
    }
  }

  lemma PutBudgetConsistent(l: Ledger, h: ResourceReservation, b: ResourceBudget, q: ResourceQuota, id: Id)
    requires Accounted(l, h, b, q) && id in l.budgets && BudgetConsistent(l, id)
    ensures BudgetConsistent(l.Put(h, b, q), id)
  {
    SumUpdate(l.holds, OnBudget(id), h.reservationId, h);
  }

  lemma PutQuotaConsistent(l: Ledger, h: ResourceReservation, b: ResourceBudget, q: ResourceQuota, id: Id)
    requires Accounted(l, h, b, q) && id in l.quotas && QuotaConsistent(l, id)
    ensures QuotaConsistent(l.Put(h, b, q), id)
  {
    SumUpdate(l.holds, OnQuota(id), h.reservationId, h);
  }

  lemma SettleConsistent(l: Ledger, ref: Id, at: Timestamp)
    requires Consistent(l) && Settle(l, ref, at).Ok?
    ensures Consistent(Settle(l, ref, at).value)
  {
    var (h, b, q) := Lookup(l, ref).value;
    assert HoldValid(l, ref) && BudgetConsistent(l, h.budgetRef) && QuotaConsistent(l, h.quotaRef);
    HoldCovered(l, ref);
    var l' := Settle(l, ref, at).value;
    PutConsistent(l, l'.holds[ref], l'.budgets[h.budgetRef], l'.quotas[h.quotaRef]);
  }

  lemma ReleaseConsistent(l: Ledger, ref: Id, at: Timestamp, reason: Option<string>)
    requires Consistent(l) && Release(l, ref, at, reason).Ok?
    ensures Consistent(Release(l, ref, at, reason).value)
  {
    var (h, b, q) := Lookup(l, ref).value;
    assert HoldValid(l, ref) && BudgetConsistent(l, h.budgetRef) && QuotaConsistent(l, h.quotaRef);
    HoldCovered(l, ref);
    var l' := Release(l, ref, at, reason).value;
    PutConsistent(l, l'.holds[ref], l'.budgets[h.budgetRef], l'.quotas[h.quotaRef]);
  }

  /** The budget has room for the quantity besides what it has consumed and what its active holds hold. */
  ghost predicate BudgetFits(l: Ledger, b: Id, quantity: real) {
    b in l.budgets && l.budgets[b].consumedQuantity + HeldOnBudget(l, b) + quantity <= l.budgets[b].limitQuantity
  }

  ghost predicate QuotaFits(l: Ledger, q: Id, quantity: real) {
    q in l.quotas && l.quotas[q].usedQuantity + HeldOnQuota(l, q) + quantity <= l.quotas[q].maxQuantity
  }

  /** What an accepted reservation does: the hold is there, its two records reserve its quantity, the rest stays. */
  predicate ReservedExactly(l: Ledger, args: ReserveArgs, l': Ledger) {
    && l'.budgets.Keys == l.budgets.Keys && l'.quotas.Keys == l.quotas.Keys
    && l'.holds.Keys == l.holds.Keys + {args.reservationId}
    && (forall b :: b in l.budgets && b != args.budgetRef ==> l'.budgets[b] == l.budgets[b])
    && (forall q :: q in l.quotas && q != args.quotaRef ==> l'.quotas[q] == l.quotas[q])
    && (forall h :: h in l.holds && h != args.reservationId ==> l'.holds[h] == l.holds[h])
    && (var h := l'.holds[args.reservationId];
        && h.status == Reserved && h.reservationId == args.reservationId && h.quantity == args.quantity
        && h.budgetRef == args.budgetRef && h.quotaRef == args.quotaRef
        && h.accountRef == args.accountRef && h.actionRef == args.actionRef
        && h.createdAt == h.updatedAt == args.createdAt && h.settledAt == None && h.releasedAt == None)
    && args.budgetRef in l.budgets && args.quotaRef in l.quotas
    && (var b, q, b', q' := l.budgets[args.budgetRef], l.quotas[args.quotaRef],
                            l'.budgets[args.budgetRef], l'.quotas[args.quotaRef];
        && b'.limitQuantity == b.limitQuantity && b'.consumedQuantity == b.consumedQuantity
        && OrZero(b'.reservedQuantity) == OrZero(b.reservedQuantity) + args.quantity
        && b'.availableQuantity == b.availableQuantity - args.quantity
        && (b'.availableQuantity == 0.0 ==> b'.status == Exhausted)
        && (b'.availableQuantity != 0.0 ==> b'.status == b.status)
        && q'.maxQuantity == q.maxQuantity && q'.usedQuantity == q.usedQuantity
        && OrZero(q'.reservedQuantity) == OrZero(q.reservedQuantity) + args.quantity)
  }

  /**
   On a consistent ledger a reservation is accepted exactly when both records exist and have room
   for it, to the last unit; otherwise the first of the four failures is reported.
   */
  lemma ReserveAccepts(l: Ledger, args: ReserveArgs)
    requires Consistent(l)
    ensures Reserve(l, args).Ok? <==> BudgetFits(l, args.budgetRef, args.quantity) && QuotaFits(l, args.quotaRef, args.quantity)
    ensures Reserve(l, args).Ok? ==> ReservedExactly(l, args, Reserve(l, args).value)
    ensures Reserve(l, args).Err? ==>
              Reserve(l, args).error ==
              if args.budgetRef !in l.budgets then UnknownBudget(args.budgetRef)
              else if args.quotaRef !in l.quotas then UnknownQuota(args.quotaRef)
              else if !BudgetFits(l, args.budgetRef, args.quantity) then BudgetExceeded(args.budgetRef)
              else QuotaExceeded(args.quotaRef)
  {
    if args.budgetRef in l.budgets && args.quotaRef in l.quotas {
      assert BudgetConsistent(l, args.budgetRef) && QuotaConsistent(l, args.quotaRef);
      hide Consistent, HeldOnBudget, HeldOnQuota, ReservedExactly, OrZero;
      if Reserve(l, args).Ok? {
        ReserveWrites(l, args);
      }
    }
  }

  lemma ReserveWrites(l: Ledger, args: ReserveArgs)
    requires Reserve(l, args).Ok?
    requires var b := l.budgets[args.budgetRef];
             b.budgetId == args.budgetRef
             && b.availableQuantity == b.limitQuantity - b.consumedQuantity - OrZero(b.reservedQuantity)
    requires l.quotas[args.quotaRef].quotaId == args.quotaRef
    ensures ReservedExactly(l, args, Reserve(l, args).value)
  {}

  /** Reserving keeps the ledger consistent exactly when the id is not that of an active hold. */
  lemma ReserveConsistent(l: Ledger, args: ReserveArgs)
    requires Consistent(l) && args.quantity > 0.0 && Reserve(l, args).Ok?
    ensures Consistent(Reserve(l, args).value) <==> !l.IsActive(args.reservationId)
  {
    var b, q := l.budgets[args.budgetRef], l.quotas[args.quotaRef];
    assert BudgetConsistent(l, args.budgetRef) && QuotaConsistent(l, args.quotaRef);
    var l' := Reserve(l, args).value;
    if !l.IsActive(args.reservationId) {
      PutConsistent(l, NewHold(args), l'.budgets[args.budgetRef], l'.quotas[args.quotaRef]);
    } else {
      // The overwritten hold is still recorded on its budget, but no longer held.
      var old' := l.holds[args.reservationId];
      assert HoldValid(l, args.reservationId) && BudgetConsistent(l, old'.budgetRef);
      SumUpdate(l.holds, OnBudget(old'.budgetRef), args.reservationId, NewHold(args));
      assert !BudgetConsistent(l', old'.budgetRef);
    }
  }

  /** The records an active hold names exist, under the ids they carry. */
  predicate Linked(l: Ledger, ref: Id) {
    l.IsActive(ref) ==>
      && l.holds[ref].budgetRef in l.budgets && l.budgets[l.holds[ref].budgetRef].budgetId == l.holds[ref].budgetRef
      && l.holds[ref].quotaRef in l.quotas && l.quotas[l.holds[ref].quotaRef].quotaId == l.holds[ref].quotaRef
  }

  lemma ConsistentLinked(l: Ledger, ref: Id)
    requires Consistent(l)
    ensures Linked(l, ref)
  {
    if l.IsActive(ref) {
      assert HoldValid(l, ref) && BudgetConsistent(l, l.holds[ref].budgetRef) && QuotaConsistent(l, l.holds[ref].quotaRef);
    }
  }

  /** What consistency says of an active hold and the two records it names. */
  predicate Covered(l: Ledger, ref: Id) {
    && l.IsActive(ref) && Linked(l, ref) && l.holds[ref].reservationId == ref
    && (var h := l.holds[ref];
        var b, q := l.budgets[h.budgetRef], l.quotas[h.quotaRef];
        && h.quantity <= OrZero(b.reservedQuantity) && h.quantity <= OrZero(q.reservedQuantity)
        && b.availableQuantity == b.limitQuantity - b.consumedQuantity - OrZero(b.reservedQuantity) >= 0.0
        && q.maxQuantity - q.usedQuantity - OrZero(q.reservedQuantity) >= 0.0
        && h.quantity > 0.0)
  }

  lemma ConsistentCovered(l: Ledger, ref: Id)
    requires Consistent(l) && l.IsActive(ref)
    ensures Covered(l, ref)
  {
    assert HoldValid(l, ref) && BudgetConsistent(l, l.holds[ref].budgetRef) && QuotaConsistent(l, l.holds[ref].quotaRef);
    HoldCovered(l, ref);
    hide Consistent, HeldOnBudget, HeldOnQuota;
  }

  /** `l'` differs from `l` only in the hold `ref` and the two records it names. */
  predicate OnlyTouches(l: Ledger, ref: Id, l': Ledger)
    requires ref in l.holds
  {
    && l'.budgets.Keys == l.budgets.Keys && l'.quotas.Keys == l.quotas.Keys && l'.holds.Keys == l.holds.Keys
    && (forall id :: id in l.budgets && id != l.holds[ref].budgetRef ==> l'.budgets[id] == l.budgets[id])
    && (forall id :: id in l.quotas && id != l.holds[ref].quotaRef ==> l'.quotas[id] == l.quotas[id])
    && (forall id :: id in l.holds && id != ref ==> l'.holds[id] == l.holds[id])
  }

  /**
   On a consistent ledger settling succeeds exactly for an active hold, and moves exactly its
   quantity from reserved to consumed in both records: no clamp changes a value.
   */
  lemma SettleIsExact(l: Ledger, ref: Id, at: Timestamp)
    requires Consistent(l)
    ensures Settle(l, ref, at).Ok? <==> l.IsActive(ref)
    ensures l.IsActive(ref) ==>
              && SettledExactly(l, ref, Settle(l, ref, at).value) && ref in Settle(l, ref, at).value.holds
              && Settle(l, ref, at).value.holds[ref] ==
                 l.holds[ref].(status := Settled, settledAt := Some(at), updatedAt := at)
    ensures !l.IsActive(ref) ==>
              Settle(l, ref, at) == Err(if ref in l.holds then NotActive(ref) else UnknownReservation(ref))
  {
    if l.IsActive(ref) {
      ConsistentCovered(l, ref);
      SettleCovered(l, ref, at);
    }
    hide Consistent, SettledExactly;
  }

  predicate SettledExactly(l: Ledger, ref: Id, s: Ledger) {
    && ref in l.holds && OnlyTouches(l, ref, s) && s.holds[ref].status == Settled
    && (var h := l.holds[ref];
        && h.budgetRef in l.budgets && h.quotaRef in l.quotas
        && (var b, q, b', q' := l.budgets[h.budgetRef], l.quotas[h.quotaRef], s.budgets[h.budgetRef], s.quotas[h.quotaRef];
            && b'.limitQuantity == b.limitQuantity && q'.maxQuantity == q.maxQuantity
            && b'.consumedQuantity == b.consumedQuantity + h.quantity
            && OrZero(b'.reservedQuantity) == OrZero(b.reservedQuantity) - h.quantity
            && b'.availableQuantity == b.availableQuantity
            && q'.usedQuantity == q.usedQuantity + h.quantity
            && OrZero(q'.reservedQuantity) == OrZero(q.reservedQuantity) - h.quantity))
  }

  lemma SettleCovered(l: Ledger, ref: Id, at: Timestamp)
    requires Covered(l, ref)
    ensures Settle(l, ref, at).Ok? && SettledExactly(l, ref, Settle(l, ref, at).value)
  {}

  /** Releasing succeeds exactly for an active hold, and gives its quantity back in both records. */
  lemma ReleaseIsExact(l: Ledger, ref: Id, at: Timestamp, reason: Option<string>)
    requires Consistent(l)
    ensures Release(l, ref, at, reason).Ok? <==> l.IsActive(ref)
    ensures l.IsActive(ref) ==>
              && ReleasedExactly(l, ref, Release(l, ref, at, reason).value) && ref in Release(l, ref, at, reason).value.holds
              && Release(l, ref, at, reason).value.holds[ref] ==
                 l.holds[ref].(status := Released, releasedAt := Some(at), releaseReasonCode := reason, updatedAt := at)
    ensures !l.IsActive(ref) ==>
              Release(l, ref, at, reason) == Err(if ref in l.holds then NotActive(ref) else UnknownReservation(ref))
  {
    if l.IsActive(ref) {
      ConsistentCovered(l, ref);
      ReleaseCovered(l, ref, at, reason);
    }
  }

  predicate ReleasedExactly(l: Ledger, ref: Id, r: Ledger) {
    && ref in l.holds && OnlyTouches(l, ref, r) && r.holds[ref].status == Released
    && (var h := l.holds[ref];
        && h.budgetRef in l.budgets && h.quotaRef in l.quotas
        && (var b, q, b', q' := l.budgets[h.budgetRef], l.quotas[h.quotaRef], r.budgets[h.budgetRef], r.quotas[h.quotaRef];
            && b'.limitQuantity == b.limitQuantity && q'.maxQuantity == q.maxQuantity
            && b'.consumedQuantity == b.consumedQuantity
            && OrZero(b'.reservedQuantity) == OrZero(b.reservedQuantity) - h.quantity
            && b'.availableQuantity == b.availableQuantity + h.quantity
            && q'.usedQuantity == q.usedQuantity
            && OrZero(q'.reservedQuantity) == OrZero(q.reservedQuantity) - h.quantity))
  }

  lemma ReleaseCovered(l: Ledger, ref: Id, at: Timestamp, reason: Option<string>)
    requires Covered(l, ref)
    ensures Release(l, ref, at, reason).Ok? && ReleasedExactly(l, ref, Release(l, ref, at, reason).value)
  {}

  // ---- whole runs ----

  datatype Call =
    | ReserveCall(args: ReserveArgs)
    | SettleCall(ref: Id, at: Timestamp)
    | ReleaseCall(ref: Id, at: Timestamp, reason: Option<string>)

  function Perform(l: Ledger, call: Call): Result<Ledger, AtsError> {
    match call
    case ReserveCall(args) => Reserve(l, args)
    case SettleCall(ref, at) => Settle(l, ref, at)
    case ReleaseCall(ref, at, reason) => Release(l, ref, at, reason)
  }

  /** A call that throws leaves the ledger as it was. */
  function Step(l: Ledger, call: Call): Ledger {
    match Perform(l, call)
    case Ok(l') => l'
    case Err(_) => l
  }

  function Run(l: Ledger, calls: seq<Call>): Ledger
    decreases calls
  {
    if calls == [] then l else Run(Step(l, calls[0]), calls[1..])
  }

  predicate PositiveQuantities(calls: seq<Call>) {
    forall i :: 0 <= i < |calls| && calls[i].ReserveCall? ==> calls[i].args.quantity > 0.0
  }

  /** The call reserves, successfully, under the id of an active hold. */
  predicate ReusesActive(l: Ledger, call: Call) {
    call.ReserveCall? && Reserve(l, call.args).Ok? && l.IsActive(call.args.reservationId)
  }

  predicate NoActiveReuse(l: Ledger, calls: seq<Call>)
    decreases calls
  {
    calls == [] || (!ReusesActive(l, calls[0]) && NoActiveReuse(Step(l, calls[0]), calls[1..]))
  }

  /** Every state the run goes through, the first and the last included, is consistent. */
  ghost predicate ConsistentThroughout(l: Ledger, calls: seq<Call>)
    decreases calls
  {
    Consistent(l) && (calls == [] || ConsistentThroughout(Step(l, calls[0]), calls[1..]))
  }

  lemma StepConsistent(l: Ledger, call: Call)
    requires Consistent(l)
    requires call.ReserveCall? ==> call.args.quantity > 0.0
    ensures Consistent(Step(l, call)) <==> !ReusesActive(l, call)
  {
    if Perform(l, call).Ok? {
      match call
      case ReserveCall(args) => ReserveConsistent(l, args);
      case SettleCall(ref, at) => SettleConsistent(l, ref, at);
      case ReleaseCall(ref, at, reason) => ReleaseConsistent(l, ref, at, reason);
    }
  }

  /** The two indices agree with the holds through a whole run exactly when no active id is reused. */
  lemma {:induction false} RunConsistent(l: Ledger, calls: seq<Call>)
    requires Consistent(l) && PositiveQuantities(calls)
    ensures ConsistentThroughout(l, calls) <==> NoActiveReuse(l, calls)
    ensures NoActiveReuse(l, calls) ==> Consistent(Run(l, calls))
    decreases calls
  {
    if calls != [] {
      StepConsistent(l, calls[0]);
      if Consistent(Step(l, calls[0])) {
        RunConsistent(Step(l, calls[0]), calls[1..]);
      }
    }
  }

  // ---- what a run consumes ----

  /** The quantity this call settles against a record, by the key its hold names. */
  function Settling(l: Ledger, call: Call, names: ResourceReservation -> bool): real {
    if call.SettleCall? && l.IsActive(call.ref) && names(l.holds[call.ref]) then l.holds[call.ref].quantity else 0.0
  }

  function SettledInRun(l: Ledger, calls: seq<Call>, names: ResourceReservation -> bool): real
    decreases calls
  {
    if calls == [] then 0.0
    else Settling(l, calls[0], names) + SettledInRun(Step(l, calls[0]), calls[1..], names)
  }

  function NamesBudget(b: Id): ResourceReservation -> bool {
    (h: ResourceReservation) => h.budgetRef == b
  }

  function NamesQuota(q: Id): ResourceReservation -> bool {
    (h: ResourceReservation) => h.quotaRef == q
  }

  /** The new totals of one call: what it settles moves into consumption, limits stay. */
  predicate Consumes(l: Ledger, call: Call, l': Ledger) {
    && l'.budgets.Keys == l.budgets.Keys && l'.quotas.Keys == l.quotas.Keys
    && (forall b :: b in l.budgets ==>
          && l'.budgets[b].limitQuantity == l.budgets[b].limitQuantity
          && l'.budgets[b].consumedQuantity == l.budgets[b].consumedQuantity + Settling(l, call, NamesBudget(b)))
    && (forall q :: q in l.quotas ==>
          && l'.quotas[q].maxQuantity == l.quotas[q].maxQuantity
          && l'.quotas[q].usedQuantity == l.quotas[q].usedQuantity + Settling(l, call, NamesQuota(q)))
  }

  lemma StepConsumes(l: Ledger, call: Call)
    requires Consistent(l)
    ensures Consumes(l, call, Step(l, call))
  {
    match call
    case ReserveCall(args) =>
      assert args.budgetRef in l.budgets ==> BudgetConsistent(l, args.budgetRef);
      assert args.quotaRef in l.quotas ==> QuotaConsistent(l, args.quotaRef);
      hide Consistent, HeldOnBudget, HeldOnQuota;
    case SettleCall(ref, at) =>
      ConsistentLinked(l, ref);
      SettleConsumes(l, ref, at);
    case ReleaseCall(ref, at, reason) =>
      ConsistentLinked(l, ref);
      ReleaseConsumes(l, ref, at, reason);
  }

  lemma SettleConsumes(l: Ledger, ref: Id, at: Timestamp)
    requires Linked(l, ref)
    ensures Consumes(l, SettleCall(ref, at), Step(l, SettleCall(ref, at)))
  {}

  lemma ReleaseConsumes(l: Ledger, ref: Id, at: Timestamp, reason: Option<string>)
    requires Linked(l, ref)
    ensures Consumes(l, ReleaseCall(ref, at, reason), Step(l, ReleaseCall(ref, at, reason)))
  {}

  /**
   Conservation: after any run that reuses no active id, the starting consumption, what was
   settled in the run, what is held now and what is available now add up to the limit, on the
   budget side and on the quota side.
   */
  lemma {:induction false} Conservation(l: Ledger, calls: seq<Call>)
    requires Consistent(l) && PositiveQuantities(calls) && NoActiveReuse(l, calls)
    ensures var l' := Run(l, calls);
            && l'.budgets.Keys == l.budgets.Keys && l'.quotas.Keys == l.quotas.Keys
            && (forall b :: b in l.budgets ==>
                  && l'.budgets[b].consumedQuantity ==
                     l.budgets[b].consumedQuantity + SettledInRun(l, calls, NamesBudget(b))
                  && l'.budgets[b].availableQuantity >= 0.0
                  && l.budgets[b].limitQuantity ==
                     l.budgets[b].consumedQuantity + SettledInRun(l, calls, NamesBudget(b))
                     + HeldOnBudget(l', b) + l'.budgets[b].availableQuantity)
            && (forall q :: q in l.quotas ==>
                  && l'.quotas[q].usedQuantity == l.quotas[q].usedQuantity + SettledInRun(l, calls, NamesQuota(q))
                  && l.quotas[q].maxQuantity >=
                     l.quotas[q].usedQuantity + SettledInRun(l, calls, NamesQuota(q)) + HeldOnQuota(l', q))
    decreases calls
  {
    if calls == [] {
      assert forall b :: b in l.budgets ==> BudgetConsistent(l, b);
      assert forall q :: q in l.quotas ==> QuotaConsistent(l, q);
    } else {
      StepConsistent(l, calls[0]);
      StepConsumes(l, calls[0]);
      Conservation(Step(l, calls[0]), calls[1..]);
    }
  }

  // ---- a hold is closed at most once each time it is opened ----

  function Opens(l: Ledger, call: Call, id: Id): nat {
    if call.ReserveCall? && call.args.reservationId == id && Perform(l, call).Ok? then 1 else 0
  }

  function Closes(l: Ledger, call: Call, id: Id): nat {
    if !call.ReserveCall? && call.ref == id && Perform(l, call).Ok? then 1 else 0
  }

  function Opened(l: Ledger, calls: seq<Call>, id: Id): nat
    decreases calls
  {
    if calls == [] then 0 else Opens(l, calls[0], id) + Opened(Step(l, calls[0]), calls[1..], id)
  }

  function Closed(l: Ledger, calls: seq<Call>, id: Id): nat
    decreases calls
  {
    if calls == [] then 0 else Closes(l, calls[0], id) + Closed(Step(l, calls[0]), calls[1..], id)
  }

  /** How one call changes whether `id` is active. */
  lemma StepOpensOrCloses(l: Ledger, call: Call, id: Id)
    requires Linked(l, id) && !ReusesActive(l, call)
    requires id in l.holds ==> l.holds[id].reservationId == id
    requires !call.ReserveCall? && call.ref in l.holds ==> l.holds[call.ref].reservationId == call.ref
    ensures (if l.IsActive(id) then 1 else 0) + Opens(l, call, id) ==
            Closes(l, call, id) + (if Step(l, call).IsActive(id) then 1 else 0)
  {}

  /**
   Successful reservations under an id and its settlements and releases alternate: over a run
   they differ by at most one, and by one exactly when the hold went from closed to open.
   */
  lemma {:induction false} OpenedAndClosed(l: Ledger, calls: seq<Call>, id: Id)
    requires Consistent(l) && PositiveQuantities(calls) && NoActiveReuse(l, calls)
    ensures (if l.IsActive(id) then 1 else 0) + Opened(l, calls, id) ==
            Closed(l, calls, id) + (if Run(l, calls).IsActive(id) then 1 else 0)
    decreases calls
  {
    if calls != [] {
      StepConsistent(l, calls[0]);
      ConsistentLinked(l, id);
      assert id in l.holds ==> HoldValid(l, id);
      assert !calls[0].ReserveCall? && calls[0].ref in l.holds ==> HoldValid(l, calls[0].ref);
      StepOpensOrCloses(l, calls[0], id);
      hide Consistent, Step, Opens, Closes, Linked;
      OpenedAndClosed(Step(l, calls[0]), calls[1..], id);
    }
  }
}
