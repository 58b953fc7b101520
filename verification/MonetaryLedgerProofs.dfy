/** Rounding in the monetary ledger: how far it drifts, when it is exact, what it breaks. */
module MonetaryLedgerProofs {
  import opened Prelude
  import opened Sums
  import opened AtsTypes
  import opened MonetaryLedger

  const CENT := 0.01
  const HALF_CENT := 0.005

  // ---- rounding to cents ----

  predicate WholeCents(x: real) {
    (x * 100.0).Floor as real == x * 100.0
  }

  /** The amounts that lie exactly between two cents. */
  predicate OddHalfCents(x: real) {
    x * 100.0 - (x * 100.0).Floor as real == 0.5
  }

  predicate Within(x: real, bound: real) {
    -bound <= x <= bound
  }

  lemma CentsError(x: real)
    ensures Within(Cents(x) as real - x * 100.0, 0.5)
    ensures x >= 0.0 ==> Cents(x) >= 0
  {
    var y := if x >= 0.0 then x * 100.0 + 0.5 else -x * 100.0 + 0.5;
    assert y.Floor as real <= y < y.Floor as real + 1.0;
  }

  lemma RoundingError(x: real)
    ensures Within(FromMoney(x) - x, HALF_CENT)
    ensures WholeCents(FromMoney(x))
    ensures x >= 0.0 ==> FromMoney(x) >= 0.0
    ensures WholeCents(x) ==> FromMoney(x) == x
  {
    CentsError(x);
    var n := Cents(x);
    assert FromMoney(x) * 100.0 == n as real;
    if WholeCents(x) {
      assert Within((n - (x * 100.0).Floor) as real, 0.5);
    }
    hide Cents;
  }

  lemma WholeCentsClosed(x: real, y: real)
    requires WholeCents(x) && WholeCents(y)
    ensures WholeCents(x + y) && WholeCents(x - y)
  {
    WholeIs(x + y, (x * 100.0).Floor + (y * 100.0).Floor);
    WholeIs(x - y, (x * 100.0).Floor - (y * 100.0).Floor);
  }

  lemma WholeIs(x: real, n: int)
    requires x * 100.0 == n as real
    ensures WholeCents(x)
  {}

  // ---- sums of holds ----

  function OnBudget(b: Id): MonetaryReservation -> real {
    (h: MonetaryReservation) => if h.status == Reserved && h.budgetRef == b then h.amount else 0.0
  }

  ghost function Held(m: Money, b: Id): real {
    Sum(m.holds, OnBudget(b))
  }

  /** What a budget records as reserved, less what its active holds exactly add up to. */
  ghost function Drift(m: Money, b: Id): real
    requires b in m.budgets
  {
    OrZero(m.budgets[b].reservedAmount) - Held(m, b)
  }

  predicate HoldValid(m: Money, id: Id)
    requires id in m.holds
  {
    var h := m.holds[id];
    h.reservationId == id && (h.status == Reserved ==> h.amount > 0.0 && h.budgetRef in m.budgets)
  }

  predicate Valid(m: Money) {
    && (forall b :: b in m.budgets ==> m.budgets[b].budgetId == b)
    && (forall h :: h in m.holds ==> HoldValid(m, h))
  }

  // ---- calls and runs ----

  datatype Call =
    | ReserveCall(args: ReserveMoneyArgs)
    | SettleCall(ref: Id, at: Timestamp)
    | ReleaseCall(ref: Id, at: Timestamp, reason: Option<string>)

  function Perform(m: Money, call: Call): Result<Money, AtsError> {
    match call
    case ReserveCall(args) => ReserveMoney(m, args)
    case SettleCall(ref, at) => SettleMoney(m, ref, at)
    case ReleaseCall(ref, at, reason) => ReleaseMoney(m, ref, at, reason)
  }

  function Step(m: Money, call: Call): Money {
    match Perform(m, call)
    case Ok(m') => m'
    case Err(_) => m
  }

  function Run(m: Money, calls: seq<Call>): Money
    decreases calls
  {
    if calls == [] then m else Run(Step(m, calls[0]), calls[1..])
  }

  /** A positive amount under an id that is not active. */
  predicate Proper(m: Money, call: Call) {
    call.ReserveCall? ==> call.args.amount > 0.0 && !m.IsActive(call.args.reservationId)
  }

  predicate AllProper(m: Money, calls: seq<Call>)
    decreases calls
  {
    calls == [] || (Proper(m, calls[0]) && AllProper(Step(m, calls[0]), calls[1..]))
  }

  /** 1 for a call that succeeds on this budget. */
  function Touches(m: Money, call: Call, b: Id): nat {
    if Perform(m, call).Err? then 0
    else if call.ReserveCall? then (if call.args.budgetRef == b then 1 else 0)
    else if call.ref in m.holds && m.holds[call.ref].budgetRef == b then 1
    else 0
  }

  function CallsOn(m: Money, calls: seq<Call>, b: Id): nat
    decreases calls
  {
    if calls == [] then 0 else Touches(m, calls[0], b) + CallsOn(Step(m, calls[0]), calls[1..], b)
  }

  lemma {:induction false} CallsAtMost(m: Money, calls: seq<Call>, b: Id)
    ensures CallsOn(m, calls, b) <= |calls|
    decreases calls
  {
    hide Step;
    if calls != [] {
      CallsAtMost(Step(m, calls[0]), calls[1..], b);
    }
  }

  lemma StepValid(m: Money, call: Call)
    requires Valid(m) && Proper(m, call)
    ensures Valid(Step(m, call)) && Step(m, call).budgets.Keys == m.budgets.Keys
  {
    forall id | id in Step(m, call).holds
      ensures HoldValid(Step(m, call), id)
    {
      assert id in m.holds ==> HoldValid(m, id);
      assert !call.ReserveCall? && call.ref in m.holds ==> HoldValid(m, call.ref);
    }
  }

  // ---- drift ----

  /** Writing `h` over an inactive hold, or closing an active one, changes the sum by its amount. */
  lemma HeldAfterPut(m: Money, h: MonetaryReservation, b: MonetaryBudget, id: Id)
    ensures Held(m.Put(h, b), id) ==
            Held(m, id) + OnBudget(id)(h)
            - (if h.reservationId in m.holds then OnBudget(id)(m.holds[h.reservationId]) else 0.0)
  {
    SumUpdate(m.holds, OnBudget(id), h.reservationId, h);
  }

  lemma HeldNonNegative(m: Money, b: Id)
    requires Valid(m)
    ensures Held(m, b) >= 0.0
  {
    assert forall id :: id in m.holds ==> HoldValid(m, id);
    SumNonNegative(m.holds, OnBudget(b));
  }

  /** What a closing call does to the recorded reservation keeps it within half a cent more. */
  lemma ClosingError(recorded: real, amount: real, held: real, bound: real)
    requires held - amount >= 0.0 && Within(recorded - held, bound)
    ensures Within(FromMoney(ClampZero(recorded - amount)) - (held - amount), bound + HALF_CENT)
  {
    RoundingError(ClampZero(recorded - amount));
    hide FromMoney;
  }

  /** One call moves the drift of the budget it touches by at most half a cent, clamping included. */
  lemma StepDrift(m: Money, call: Call, b: Id, bound: real)
    requires Valid(m) && Proper(m, call) && b in m.budgets
    requires Within(Drift(m, b), bound)
    ensures Valid(Step(m, call)) && b in Step(m, call).budgets
    ensures Within(Drift(Step(m, call), b), bound + Touches(m, call, b) as real * HALF_CENT)
  {
    StepValid(m, call);
    if Perform(m, call).Ok? {
      HeldNonNegative(Step(m, call), b);
      if call.ReserveCall? {
        ReserveDrift(m, call.args, b, bound);
      } else {
        assert HoldValid(m, call.ref);
        CloseDrift(m, call, b, bound);
      }
    }
  }

  lemma ReserveDrift(m: Money, args: ReserveMoneyArgs, b: Id, bound: real)
    requires ReserveMoney(m, args).Ok? && Proper(m, ReserveCall(args)) && b in m.budgets
    requires m.budgets[args.budgetRef].budgetId == args.budgetRef
    requires Within(Drift(m, b), bound)
    ensures b in ReserveMoney(m, args).value.budgets
    ensures Within(Drift(ReserveMoney(m, args).value, b), bound + (if args.budgetRef == b then HALF_CENT else 0.0))
  {
    var m' := ReserveMoney(m, args).value;
    HeldAfterPut(m, NewMoneyHold(args), m'.budgets[args.budgetRef], b);
    RoundingError(OrZero(m.budgets[args.budgetRef].reservedAmount) + args.amount);
    hide Held, FromMoney;
  }

  lemma CloseDrift(m: Money, call: Call, b: Id, bound: real)
    requires !call.ReserveCall? && Perform(m, call).Ok? && b in m.budgets
    requires m.budgets[m.holds[call.ref].budgetRef].budgetId == m.holds[call.ref].budgetRef
    requires m.holds[call.ref].reservationId == call.ref
    requires Within(Drift(m, b), bound) && Held(Step(m, call), b) >= 0.0
    ensures b in Step(m, call).budgets
    ensures Within(Drift(Step(m, call), b),
                   bound + (if m.holds[call.ref].budgetRef == b then HALF_CENT else 0.0))
  {
    var h, m' := m.holds[call.ref], Step(m, call);
    HeldAfterPut(m, m'.holds[call.ref], m'.budgets[h.budgetRef], b);
    if h.budgetRef == b {
      ClosingError(OrZero(m.budgets[b].reservedAmount), h.amount, Held(m, b), bound);
    }
    hide Held, FromMoney;
  }

  /** After n successful calls on a budget, its recorded reservation is off by at most n half cents. */
  lemma {:induction false} DriftBound(m: Money, calls: seq<Call>, b: Id, bound: real)
    requires Valid(m) && AllProper(m, calls) && b in m.budgets
    requires Within(Drift(m, b), bound)
    ensures b in Run(m, calls).budgets
    ensures Within(Drift(Run(m, calls), b), bound + CallsOn(m, calls, b) as real * HALF_CENT)
    decreases calls
  {
    if calls != [] {
      StepDrift(m, calls[0], b, bound);
      DriftBound(Step(m, calls[0]), calls[1..], b, bound + Touches(m, calls[0], b) as real * HALF_CENT);
    }
  }

  /** A record of y: whole cents, at most half a cent away. */
  predicate Records(x: real, y: real) {
    WholeCents(x) && Within(x - y, HALF_CENT)
  }

  /** Only the hold `ref` and the budget `b` may differ, and no limit does. */
  predicate OnlyTouches(m: Money, ref: Id, b: Id, m': Money) {
    && m'.budgets.Keys == m.budgets.Keys && m'.holds.Keys == m.holds.Keys + {ref}
    && (forall id :: id in m.budgets && id != b ==> m'.budgets[id] == m.budgets[id])
    && (forall id :: id in m.holds && id != ref ==> m'.holds[id] == m.holds[id])
    && (forall id :: id in m.budgets ==> m'.budgets[id].limitAmount == m.budgets[id].limitAmount)
  }

  /** What an accepted reservation does, for any amount. */
  predicate MoneyReserved(m: Money, args: ReserveMoneyArgs, m': Money) {
    && OnlyTouches(m, args.reservationId, args.budgetRef, m') && args.budgetRef in m.budgets
    && (var h := m'.holds[args.reservationId];
        && h.status == Reserved && h.reservationId == args.reservationId && h.amount == args.amount
        && h.budgetRef == args.budgetRef && h.accountRef == args.accountRef && h.actionRef == args.actionRef
        && h.createdAt == h.updatedAt == args.createdAt && h.settledAt == None && h.releasedAt == None)
    && (var b, b' := m.budgets[args.budgetRef], m'.budgets[args.budgetRef];
        && b'.consumedAmount == b.consumedAmount
        && Records(OrZero(b'.reservedAmount), OrZero(b.reservedAmount) + args.amount)
        && Records(b'.availableAmount, b.limitAmount - b.consumedAmount - OrZero(b.reservedAmount) - args.amount))
  }

  /**
   Which reservations are accepted, whatever the rounding so far: with the record within `bound`
   of the holds, every one that fits with that much to spare, and none that exceeds by more. With
   no drift these meet: exactly what fits is accepted.
   */
  lemma ReserveMoneyAccepts(m: Money, args: ReserveMoneyArgs, bound: real)
    requires Valid(m) && (args.budgetRef in m.budgets ==> Within(Drift(m, args.budgetRef), bound))
    ensures ReserveMoney(m, args).Ok? ==> MoneyReserved(m, args, ReserveMoney(m, args).value)
    ensures ReserveMoney(m, args).Err? ==>
              ReserveMoney(m, args).error ==
              if args.budgetRef !in m.budgets then UnknownBudget(args.budgetRef) else BudgetExceeded(args.budgetRef)
    ensures args.budgetRef !in m.budgets ==> ReserveMoney(m, args).Err?
    ensures args.budgetRef in m.budgets ==>
              var b := m.budgets[args.budgetRef];
              var needed := b.consumedAmount + Held(m, args.budgetRef) + args.amount;
              && (needed <= b.limitAmount - bound ==> ReserveMoney(m, args).Ok?)
              && (ReserveMoney(m, args).Ok? ==> needed <= b.limitAmount + bound)
  {
    if args.budgetRef in m.budgets {
      var b := m.budgets[args.budgetRef];
      RoundingError(OrZero(b.reservedAmount) + args.amount);
      RoundingError(b.limitAmount - b.consumedAmount - (OrZero(b.reservedAmount) + args.amount));
    }
    hide FromMoney, WholeCents, Held;
  }

  /** Settling succeeds exactly for an active hold, marks it settled and records its amount as consumed. */
  lemma SettleMoneyIs(m: Money, ref: Id, at: Timestamp)
    requires Valid(m)
    ensures SettleMoney(m, ref, at).Ok? <==> m.IsActive(ref)
    ensures !m.IsActive(ref) ==>
              SettleMoney(m, ref, at) == Err(if ref in m.holds then NotActive(ref) else UnknownReservation(ref))
    ensures m.IsActive(ref) ==>
              var h, m' := m.holds[ref], SettleMoney(m, ref, at).value;
              && OnlyTouches(m, ref, h.budgetRef, m') && h.budgetRef in m.budgets
              && m'.holds[ref] == h.(status := Settled, settledAt := Some(at), updatedAt := at)
              && var b, b' := m.budgets[h.budgetRef], m'.budgets[h.budgetRef];
                 && Records(b'.consumedAmount, b.consumedAmount + h.amount)
                 && Records(OrZero(b'.reservedAmount), NonNegative(OrZero(b.reservedAmount) - h.amount))
  {
    if m.IsActive(ref) {
      assert HoldValid(m, ref);
      var h := m.holds[ref];
      var b := m.budgets[h.budgetRef];
      RoundingError(b.consumedAmount + h.amount);
      RoundingError(ClampZero(OrZero(b.reservedAmount) - h.amount));
    }
    hide FromMoney, WholeCents;
  }

  /** Releasing succeeds exactly for an active hold, marks it released and consumes nothing. */
  lemma ReleaseMoneyIs(m: Money, ref: Id, at: Timestamp, reason: Option<string>)
    requires Valid(m)
    ensures ReleaseMoney(m, ref, at, reason).Ok? <==> m.IsActive(ref)
    ensures !m.IsActive(ref) ==>
              ReleaseMoney(m, ref, at, reason) == Err(if ref in m.holds then NotActive(ref) else UnknownReservation(ref))
    ensures m.IsActive(ref) ==>
              var h, m' := m.holds[ref], ReleaseMoney(m, ref, at, reason).value;
              && OnlyTouches(m, ref, h.budgetRef, m') && h.budgetRef in m.budgets
              && m'.holds[ref] == h.(status := Released, releasedAt := Some(at), releaseReasonCode := reason, updatedAt := at)
              && var b, b' := m.budgets[h.budgetRef], m'.budgets[h.budgetRef];
                 && b'.consumedAmount == b.consumedAmount && b'.status == Active
                 && Records(OrZero(b'.reservedAmount), NonNegative(OrZero(b.reservedAmount) - h.amount))
  {
    if m.IsActive(ref) {
      assert HoldValid(m, ref);
      var h := m.holds[ref];
      RoundingError(ClampZero(OrZero(m.budgets[h.budgetRef].reservedAmount) - h.amount));
    }
    hide FromMoney, WholeCents;
  }

  /** x, but not below zero. */
  function NonNegative(x: real): real {
    if x >= 0.0 then x else 0.0
  }

  /** A reserve that is accepted may exceed the limit, but only by the drift there was before it. */
  lemma ReserveOvershoot(m: Money, args: ReserveMoneyArgs, bound: real)
    requires Valid(m) && Proper(m, ReserveCall(args)) && ReserveMoney(m, args).Ok?
    requires Within(Drift(m, args.budgetRef), bound)
    ensures var b := m.budgets[args.budgetRef];
            Held(ReserveMoney(m, args).value, args.budgetRef) <= b.limitAmount - b.consumedAmount + bound
  {
    var m' := ReserveMoney(m, args).value;
    HeldAfterPut(m, NewMoneyHold(args), m'.budgets[args.budgetRef], args.budgetRef);
    hide Held, FromMoney;
  }

  lemma {:induction false} RunValid(m: Money, calls: seq<Call>)
    requires Valid(m) && AllProper(m, calls)
    ensures Valid(Run(m, calls))
    decreases calls
  {
    hide Valid, Step;
    if calls != [] {
      StepValid(m, calls[0]);
      RunValid(Step(m, calls[0]), calls[1..]);
    }
  }

  /** So after n calls on a budget, an accepted reserve exceeds what the limit leaves by at most n half cents more. */
  lemma RunOvershoot(m: Money, calls: seq<Call>, args: ReserveMoneyArgs, bound: real)
    requires Valid(m) && AllProper(m, calls)
    requires args.budgetRef in m.budgets && Within(Drift(m, args.budgetRef), bound)
    requires Proper(Run(m, calls), ReserveCall(args)) && ReserveMoney(Run(m, calls), args).Ok?
    ensures var m' := Run(m, calls);
            && args.budgetRef in m'.budgets
            && Held(ReserveMoney(m', args).value, args.budgetRef) <=
               m'.budgets[args.budgetRef].limitAmount - m'.budgets[args.budgetRef].consumedAmount
               + bound + CallsOn(m, calls, args.budgetRef) as real * HALF_CENT
  {
    DriftBound(m, calls, args.budgetRef, bound);
    RunValid(m, calls);
    hide Valid, Run, CallsOn, Held, Drift, ReserveMoney;
    ReserveOvershoot(Run(m, calls), args, bound + CallsOn(m, calls, args.budgetRef) as real * HALF_CENT);
  }

  // ---- the bound is attained, and small amounts escape the limit ----

  function OneBudget(limit: real): Money {
    Money(map["b" := MonetaryBudget("b", limit, 0.0, None, limit, Active, "t0")], map[])
  }

  function HoldId(k: nat): Id {
    seq(k, _ => 'h')
  }

  /** Reservations number k to n - 1 of the same amount, each under its own id. */
  function Reservations(k: nat, n: nat, amount: real): seq<Call>
    requires k <= n
    decreases n - k
  {
    if k == n then []
    else [ReserveCall(ReserveMoneyArgs(HoldId(k), "b", "acct", "act", amount, "t"))] + Reservations(k + 1, n, amount)
  }

  /** k reservations were accepted, of `amount` each, and recorded as `recorded` each. */
  ghost predicate ReservedSoFar(m: Money, k: nat, limit: real, amount: real, recorded: real) {
    && "b" in m.budgets
    && (var b := m.budgets["b"];
        && b.budgetId == "b" && b.limitAmount == limit && b.consumedAmount == 0.0
        && OrZero(b.reservedAmount) == k as real * recorded)
    && Held(m, "b") == k as real * amount
    && forall j: nat :: j >= k ==> HoldId(j) !in m.holds
  }

  lemma ReservedOnce(m: Money, k: nat, limit: real, amount: real, recorded: real)
    requires ReservedSoFar(m, k, limit, amount, recorded) && amount > 0.0
    requires FromMoney(k as real * recorded + amount) == (k + 1) as real * recorded
    requires k as real * recorded + amount <= limit
    ensures var call := ReserveCall(ReserveMoneyArgs(HoldId(k), "b", "acct", "act", amount, "t"));
            Proper(m, call) && Touches(m, call, "b") == 1 && ReservedSoFar(Step(m, call), k + 1, limit, amount, recorded)
  {
    hide FromMoney;
    var args := ReserveMoneyArgs(HoldId(k), "b", "acct", "act", amount, "t");
    var m' := Step(m, ReserveCall(args));
    HeldAfterPut(m, NewMoneyHold(args), m'.budgets["b"], "b");
    forall j: nat | j >= k + 1
      ensures HoldId(j) !in m'.holds
    {
      assert |HoldId(j)| == j && |HoldId(k)| == k;
    }
  }

  /** The two cases used: half a cent is recorded as a whole one, anything less as none. */
  lemma {:induction false} ReservedRun(m: Money, k: nat, n: nat, limit: real, amount: real, recorded: real)
    requires k <= n && ReservedSoFar(m, k, limit, amount, recorded)
    requires (amount == HALF_CENT && recorded == CENT && n as real * CENT <= limit)
             || (0.0 < amount < HALF_CENT && recorded == 0.0 && amount <= limit)
    ensures var calls := Reservations(k, n, amount);
            && AllProper(m, calls) && CallsOn(m, calls, "b") == n - k
            && ReservedSoFar(Run(m, calls), n, limit, amount, recorded)
    decreases n - k
  {
    hide ReservedSoFar, FromMoney, Proper, Touches, Step;
    if k < n {
      RoundedStep(k, amount, recorded);
      ReservedOnce(m, k, limit, amount, recorded);
      var calls := Reservations(k, n, amount);
      assert calls[1..] == Reservations(k + 1, n, amount);
      ReservedRun(Step(m, calls[0]), k + 1, n, limit, amount, recorded);
    }
  }

  lemma RoundedStep(k: nat, amount: real, recorded: real)
    requires (amount == HALF_CENT && recorded == CENT) || (0.0 < amount < HALF_CENT && recorded == 0.0)
    ensures FromMoney(k as real * recorded + amount) == (k + 1) as real * recorded
  {
    if recorded == CENT {
      assert (k as real * CENT + HALF_CENT) * 100.0 + 0.5 == (k + 1) as real;
    }
  }

  lemma OneBudgetReserved(limit: real, amount: real, recorded: real)
    ensures ReservedSoFar(OneBudget(limit), 0, limit, amount, recorded)
    ensures Valid(OneBudget(limit)) && Drift(OneBudget(limit), "b") == 0.0
  {}

  /** For every n there is a run of n calls that drifts by n half cents: DriftBound is tight. */
  lemma DriftBoundAttained(n: nat)
    ensures var m, calls := OneBudget(n as real * CENT), Reservations(0, n, HALF_CENT);
            && Valid(m) && AllProper(m, calls) && Drift(m, "b") == 0.0 && CallsOn(m, calls, "b") == n
            && "b" in Run(m, calls).budgets && Drift(Run(m, calls), "b") == n as real * HALF_CENT
  {
    OneBudgetReserved(n as real * CENT, HALF_CENT, CENT);
    ReservedRun(OneBudget(n as real * CENT), 0, n, n as real * CENT, HALF_CENT, CENT);
    hide Held, CallsOn, AllProper, Run, Reservations;
  }

  /** Rounding records at least a cent more for every amount of half a cent or more. */
  lemma RecordsACent(r: real, a: real)
    requires r >= 0.0 && WholeCents(r) && a >= HALF_CENT
    ensures FromMoney(r + a) >= r + CENT && WholeCents(FromMoney(r + a))
  {
    RoundingError(r + a);
    var n := (r * 100.0).Floor;
    assert (r + a) * 100.0 + 0.5 >= n as real + 1.0;
    assert Cents(r + a) >= n + 1;
  }

  /** The budget "b" of this limit records at least k cents as reserved, and nothing as consumed. */
  predicate RecordsAtLeast(m: Money, k: nat, limit: real) {
    && "b" in m.budgets
    && (var b := m.budgets["b"];
        && b.budgetId == "b" && b.limitAmount == limit && b.consumedAmount == 0.0
        && WholeCents(OrZero(b.reservedAmount)) && OrZero(b.reservedAmount) >= k as real * CENT)
  }

  lemma RecordedStep(m: Money, k: nat, limit: real, amount: real)
    requires RecordsAtLeast(m, k, limit) && amount >= HALF_CENT
    ensures var call := ReserveCall(ReserveMoneyArgs(HoldId(k), "b", "acct", "act", amount, "t"));
            Touches(m, call, "b") == 1 ==> k as real * CENT + amount <= limit && RecordsAtLeast(Step(m, call), k + 1, limit)
  {
    RecordsACent(OrZero(m.budgets["b"].reservedAmount), amount);
    hide FromMoney, WholeCents;
  }

  /** If all of n - k such reservations are accepted, the limit has room for n - 1 cents and the amount. */
  lemma {:induction false} AcceptedFit(m: Money, k: nat, n: nat, limit: real, amount: real)
    requires k < n && RecordsAtLeast(m, k, limit) && amount >= HALF_CENT
    requires CallsOn(m, Reservations(k, n, amount), "b") == n - k
    ensures (n - 1) as real * CENT + amount <= limit
    decreases n - k
  {
    var calls := Reservations(k, n, amount);
    ReservationsLength(k + 1, n, amount);
    CallsAtMost(Step(m, calls[0]), calls[1..], "b");
    RecordedStep(m, k, limit, amount);
    hide RecordsAtLeast, Touches, Step;
    assert calls[1..] == Reservations(k + 1, n, amount);
    if k + 1 < n {
      AcceptedFit(Step(m, calls[0]), k + 1, n, limit, amount);
    }
  }

  lemma {:induction false} ReservationsLength(k: nat, n: nat, amount: real)
    requires k <= n
    ensures |Reservations(k, n, amount)| == n - k
    decreases n - k
  {
    if k < n {
      ReservationsLength(k + 1, n, amount);
    }
  }

  /** An empty budget of this limit accepts n reservations of the amount in a row. */
  predicate AllAccepted(limit: real, amount: real, n: nat) {
    CallsOn(OneBudget(limit), Reservations(0, n, amount), "b") == n
  }

  /**
   A budget accepts any number of reservations of an amount exactly when the amount is less than
   half a cent: each is recorded as nothing, while what is held grows without bound.
   */
  lemma SmallAmountsEscapeTheLimit(limit: real, amount: real)
    requires 0.0 < amount <= limit
    ensures (forall n: nat :: AllAccepted(limit, amount, n)) <==> amount < HALF_CENT
    ensures amount < HALF_CENT ==>
              forall n: nat :: AllProper(OneBudget(limit), Reservations(0, n, amount))
                               && Held(Run(OneBudget(limit), Reservations(0, n, amount)), "b") == n as real * amount
  {
    var m := OneBudget(limit);
    if amount < HALF_CENT {
      OneBudgetReserved(limit, amount, 0.0);
      forall n: nat
        ensures AllAccepted(limit, amount, n) && AllProper(m, Reservations(0, n, amount))
        ensures Held(Run(m, Reservations(0, n, amount)), "b") == n as real * amount
      {
        ReservedRun(m, 0, n, limit, amount, 0.0);
      }
    } else {
      var n: nat := (limit * 100.0).Floor + 2;
      assert (n - 1) as real > limit * 100.0;
      assert WholeCents(0.0) && RecordsAtLeast(m, 0, limit);
      if AllAccepted(limit, amount, n) {
        AcceptedFit(m, 0, n, limit, amount);
      }
    }
  }

  /**
   Reserving an amount and releasing it again gives back the recorded reservation, for whole-cent
   records, exactly when the amount is not an odd number of half cents.
   */
  lemma ReserveThenRelease(m: Money, args: ReserveMoneyArgs, at: Timestamp, reason: Option<string>)
    requires args.budgetRef in m.budgets && m.budgets[args.budgetRef].budgetId == args.budgetRef
    requires args.amount > 0.0 && ReserveMoney(m, args).Ok?
    requires var r := OrZero(m.budgets[args.budgetRef].reservedAmount); r >= 0.0 && WholeCents(r)
    ensures var released := ReleaseMoney(ReserveMoney(m, args).value, args.reservationId, at, reason);
            && released.Ok? && args.budgetRef in released.value.budgets
            && (OrZero(released.value.budgets[args.budgetRef].reservedAmount) ==
                OrZero(m.budgets[args.budgetRef].reservedAmount)
                <==> !OddHalfCents(args.amount))
  {
    var r := OrZero(m.budgets[args.budgetRef].reservedAmount);
    RoundTripOfReservation(r, args.amount);
    hide FromMoney, OddHalfCents;
  }

  lemma RoundTripOfReservation(r: real, a: real)
    requires r >= 0.0 && WholeCents(r) && a > 0.0
    ensures FromMoney(ClampZero(FromMoney(r + a) - a)) == r <==> !OddHalfCents(a)
  {
    var n, f := (r * 100.0).Floor, (a * 100.0).Floor;
    var x := a * 100.0 - f as real;
    assert (r + a) * 100.0 == (n + f) as real + x;
    if x < 0.5 {
      assert Cents(r + a) == n + f;
      var y := FromMoney(r + a) - a;
      assert y * 100.0 == n as real - x;
      if y >= 0.0 {
        assert Cents(y) == n;
      } else {
        assert n == 0 && Cents(0.0) == 0;
      }
    } else {
      assert Cents(r + a) == n + f + 1;
      var y := FromMoney(r + a) - a;
      assert y * 100.0 == n as real + 1.0 - x;
      assert Cents(y) == (if x == 0.5 then n + 1 else n);
    }
  }

  // ---- whole cents ----

  ghost predicate BudgetExact(m: Money, id: Id)
    requires id in m.budgets
  {
    var b := m.budgets[id];
    && b.budgetId == id
    && WholeCents(b.limitAmount) && WholeCents(b.consumedAmount) && WholeCents(OrZero(b.reservedAmount))
    && OrZero(b.reservedAmount) == Held(m, id)
    && b.availableAmount == b.limitAmount - b.consumedAmount - OrZero(b.reservedAmount) >= 0.0
    && (b.status == Exhausted <==> b.availableAmount == 0.0)
  }

  /** Every record is in whole cents and agrees exactly with the active holds. */
  ghost predicate Exact(m: Money) {
    && Valid(m)
    && (forall b :: b in m.budgets ==> BudgetExact(m, b))
    && (forall h :: m.IsActive(h) ==> WholeCents(m.holds[h].amount))
  }

  predicate WholeCentCalls(calls: seq<Call>) {
    forall i :: 0 <= i < |calls| && calls[i].ReserveCall? ==> WholeCents(calls[i].args.amount)
  }

  function Settling(m: Money, call: Call, b: Id): real {
    if call.SettleCall? && m.IsActive(call.ref) && m.holds[call.ref].budgetRef == b then m.holds[call.ref].amount else 0.0
  }

  function SettledInRun(m: Money, calls: seq<Call>, b: Id): real
    decreases calls
  {
    if calls == [] then 0.0 else Settling(m, calls[0], b) + SettledInRun(Step(m, calls[0]), calls[1..], b)
  }

  lemma ActiveCovered(m: Money, ref: Id)
    requires Exact(m) && m.IsActive(ref)
    ensures m.holds[ref].budgetRef in m.budgets && m.holds[ref].reservationId == ref && m.holds[ref].amount > 0.0
    ensures m.holds[ref].amount <= OrZero(m.budgets[m.holds[ref].budgetRef].reservedAmount)
    ensures BudgetExact(m, m.holds[ref].budgetRef) && WholeCents(m.holds[ref].amount)
  {
    assert HoldValid(m, ref) && BudgetExact(m, m.holds[ref].budgetRef);
    assert forall j :: j in m.holds ==> HoldValid(m, j);
    SumAtLeast(m.holds, OnBudget(m.holds[ref].budgetRef), ref);
  }

  lemma StepExact(m: Money, call: Call)
    requires Exact(m) && Proper(m, call)
    requires call.ReserveCall? ==> WholeCents(call.args.amount)
    ensures Exact(Step(m, call))
    ensures Step(m, call).budgets.Keys == m.budgets.Keys
    ensures forall b :: b in m.budgets ==>
              && Step(m, call).budgets[b].limitAmount == m.budgets[b].limitAmount
              && Step(m, call).budgets[b].consumedAmount == m.budgets[b].consumedAmount + Settling(m, call, b)
  {
    hide WholeCents, FromMoney, Held;
    StepValid(m, call);
    if Perform(m, call).Ok? {
      if call.ReserveCall? {
        assert BudgetExact(m, call.args.budgetRef);
      } else {
        ActiveCovered(m, call.ref);
      }
      ActiveHoldsWhole(m, call);
      forall b | b in m.budgets
        ensures StepBudgetGoal(m, call, b)
      {
        hide Step, Perform, Valid;
        StepBudgetExact(m, call, b);
      }
      hide Perform, Step, Valid, BudgetExact, WholeCents, Proper;
    }
  }

  ghost predicate StepBudgetGoal(m: Money, call: Call, b: Id)
    requires b in m.budgets
  {
    && b in Step(m, call).budgets && BudgetExact(Step(m, call), b)
    && Step(m, call).budgets[b].limitAmount == m.budgets[b].limitAmount
    && Step(m, call).budgets[b].consumedAmount == m.budgets[b].consumedAmount + Settling(m, call, b)
  }

  lemma ActiveHoldsWhole(m: Money, call: Call)
    requires Valid(m) && Perform(m, call).Ok?
    requires forall h :: m.IsActive(h) ==> WholeCents(m.holds[h].amount)
    requires call.ReserveCall? ==> WholeCents(call.args.amount)
    ensures forall h :: Step(m, call).IsActive(h) ==> WholeCents(Step(m, call).holds[h].amount)
  {
    hide WholeCents, FromMoney;
    assert !call.ReserveCall? ==> HoldValid(m, call.ref);
  }

  lemma StepBudgetExact(m: Money, call: Call, b: Id)
    requires b in m.budgets && BudgetExact(m, b) && Proper(m, call) && Perform(m, call).Ok?
    requires call.ReserveCall? ==>
               WholeCents(call.args.amount) && m.budgets[call.args.budgetRef].budgetId == call.args.budgetRef
    requires !call.ReserveCall? ==> CoveredHold(m, call.ref)
    ensures StepBudgetGoal(m, call, b)
  {
    match call
    case ReserveCall(args) => ReserveBudgetExact(m, args, b);
    case SettleCall(ref, at) => SettleBudgetExact(m, ref, at, b);
    case ReleaseCall(ref, at, reason) => ReleaseBudgetExact(m, ref, at, reason, b);
  }

  lemma ReserveBudgetExact(m: Money, args: ReserveMoneyArgs, b: Id)
    requires b in m.budgets && BudgetExact(m, b) && Proper(m, ReserveCall(args)) && ReserveMoney(m, args).Ok?
    requires WholeCents(args.amount) && m.budgets[args.budgetRef].budgetId == args.budgetRef
    ensures var m' := ReserveMoney(m, args).value;
            && b in m'.budgets && BudgetExact(m', b)
            && m'.budgets[b].limitAmount == m.budgets[b].limitAmount
            && m'.budgets[b].consumedAmount == m.budgets[b].consumedAmount
  {
    hide FromMoney, WholeCents;
    HeldAfterPut(m, NewMoneyHold(args), ReserveMoney(m, args).value.budgets[args.budgetRef], b);
    if args.budgetRef == b {
      WholeArithmetic(m.budgets[b].limitAmount, m.budgets[b].consumedAmount, OrZero(m.budgets[b].reservedAmount), args.amount);
    }
    hide Held;
  }

  /** An active hold in whole cents, covered by the budget it names. */
  predicate CoveredHold(m: Money, ref: Id) {
    && m.IsActive(ref) && m.holds[ref].budgetRef in m.budgets
    && m.holds[ref].reservationId == ref && WholeCents(m.holds[ref].amount)
    && 0.0 < m.holds[ref].amount <= OrZero(m.budgets[m.holds[ref].budgetRef].reservedAmount)
    && m.budgets[m.holds[ref].budgetRef].budgetId == m.holds[ref].budgetRef
  }

  lemma SettleBudgetExact(m: Money, ref: Id, at: Timestamp, b: Id)
    requires b in m.budgets && BudgetExact(m, b) && CoveredHold(m, ref)
    ensures var m' := SettleMoney(m, ref, at).value;
            && b in m'.budgets && BudgetExact(m', b)
            && m'.budgets[b].limitAmount == m.budgets[b].limitAmount
            && m'.budgets[b].consumedAmount ==
               m.budgets[b].consumedAmount + (if m.holds[ref].budgetRef == b then m.holds[ref].amount else 0.0)
  {
    hide FromMoney, WholeCents;
    var h, m' := m.holds[ref], SettleMoney(m, ref, at).value;
    HeldAfterPut(m, m'.holds[ref], m'.budgets[h.budgetRef], b);
    if h.budgetRef == b {
      WholeArithmetic(m.budgets[b].limitAmount, m.budgets[b].consumedAmount, OrZero(m.budgets[b].reservedAmount), h.amount);
    }
    hide Held;
  }

  lemma ReleaseBudgetExact(m: Money, ref: Id, at: Timestamp, reason: Option<string>, b: Id)
    requires b in m.budgets && BudgetExact(m, b) && CoveredHold(m, ref)
    ensures var m' := ReleaseMoney(m, ref, at, reason).value;
            && b in m'.budgets && BudgetExact(m', b)
            && m'.budgets[b].limitAmount == m.budgets[b].limitAmount
            && m'.budgets[b].consumedAmount == m.budgets[b].consumedAmount
  {
    hide FromMoney, WholeCents;
    var h, m' := m.holds[ref], ReleaseMoney(m, ref, at, reason).value;
    HeldAfterPut(m, m'.holds[ref], m'.budgets[h.budgetRef], b);
    if h.budgetRef == b {
      WholeArithmetic(m.budgets[b].limitAmount, m.budgets[b].consumedAmount, OrZero(m.budgets[b].reservedAmount), h.amount);
    }
    hide Held;
  }

  /** Every value a call rounds is whole already, so rounding returns it. */
  lemma WholeArithmetic(limit: real, c: real, r: real, a: real)
    requires WholeCents(limit) && WholeCents(c) && WholeCents(r) && WholeCents(a)
    ensures WholeCents(r + a) && FromMoney(r + a) == r + a
    ensures WholeCents(r - a) && FromMoney(r - a) == r - a
    ensures WholeCents(c + a) && FromMoney(c + a) == c + a
    ensures FromMoney(limit - c - (r + a)) == limit - c - (r + a)
    ensures FromMoney(limit - c - (r - a)) == limit - c - (r - a)
    ensures FromMoney(limit - (c + a) - (r - a)) == limit - (c + a) - (r - a)
  {
    hide WholeCents, FromMoney;
    WholeCentsClosed(r, a);
    WholeCentsClosed(c, a);
    WholeCentsClosed(limit, c);
    WholeCentsClosed(limit - c, r + a);
    WholeCentsClosed(limit - c, r - a);
    WholeCentsClosed(limit, c + a);
    WholeCentsClosed(limit - (c + a), r - a);
    RoundingError(r + a);
    RoundingError(r - a);
    RoundingError(c + a);
    RoundingError(limit - c - (r + a));
    RoundingError(limit - c - (r - a));
    RoundingError(limit - (c + a) - (r - a));
  }

  /**
   With whole-cent amounts the ledger never drifts: after any proper run the starting
   consumption, what the run settled, what is held and what is available add up to the limit.
   */
  lemma {:induction false} ExactConservation(m: Money, calls: seq<Call>)
    requires Exact(m) && AllProper(m, calls) && WholeCentCalls(calls)
    ensures var m' := Run(m, calls);
            && Exact(m') && m'.budgets.Keys == m.budgets.Keys
            && forall b :: b in m.budgets ==>
                 && m'.budgets[b].consumedAmount == m.budgets[b].consumedAmount + SettledInRun(m, calls, b)
                 && m'.budgets[b].availableAmount >= 0.0
                 && m.budgets[b].limitAmount ==
                    m.budgets[b].consumedAmount + SettledInRun(m, calls, b) + Held(m', b) + m'.budgets[b].availableAmount
    decreases calls
  {
    if calls == [] {
      assert forall b :: b in m.budgets ==> BudgetExact(m, b);
    } else {
      StepExact(m, calls[0]);
      ExactConservation(Step(m, calls[0]), calls[1..]);
      hide Exact, Step, Held, Settling;
    }
  }
}
