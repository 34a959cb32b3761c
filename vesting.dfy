/** Vesting schedules (vesting.rs): creation, the vested amount at a ledger, and claiming.
    The schedules live in instance storage under `VestingSchedule(beneficiary)`; here that
    storage is a map from beneficiary to schedule, and the current ledger sequence is a
    parameter. */
module Vesting {
  import opened Common

  datatype VestingError =
    | VestingScheduleAlreadyExists
    | VestingScheduleDoesNotExist
    | InsufficientVestedTokens
    | InvalidVestingParameters

  datatype VestingType = Linear | Cliff | Stepped

  datatype VestingSchedule = VestingSchedule(
    beneficiary: Address,
    totalAmount: int,
    startLedger: nat,
    durationLedgers: nat,
    vestingType: VestingType,
    claimedAmount: int,
    steps: nat,
    cliffLedger: nat)

  type Schedules = map<Address, VestingSchedule>

  /** What creation guarantees of a schedule and claiming keeps: a positive total and
      duration, and a claimed amount between 0 and the total. */
  ghost predicate WellFormed(s: VestingSchedule) {
    s.totalAmount > 0 && s.durationLedgers > 0 && 0 <= s.claimedAmount <= s.totalAmount
  }

  /** Every stored schedule is well formed and stored under its own beneficiary. */
  ghost predicate ValidSchedules(store: Schedules) {
    forall b :: b in store ==> store[b].beneficiary == b && WellFormed(store[b])
  }

  /** create_vesting_schedule: validate, refuse a second schedule, store a fresh one. */
  function CreateVestingSchedule(
    store: Schedules, beneficiary: Address, totalAmount: int, startLedger: nat,
    durationLedgers: nat, vestingType: VestingType, steps: nat, cliffLedger: nat
  ): (r: Result<Schedules, VestingError>)
    ensures !r.Trap?
    ensures r == Err(InvalidVestingParameters) <==> totalAmount <= 0 || durationLedgers == 0
    ensures r == Err(VestingScheduleAlreadyExists) <==>
              totalAmount > 0 && durationLedgers > 0 && beneficiary in store
    ensures r.Ok? ==> beneficiary !in store && r.value.Keys == store.Keys + {beneficiary}
    ensures r.Ok? ==> r.value[beneficiary] == VestingSchedule(beneficiary, totalAmount,
              startLedger, durationLedgers, vestingType, 0, steps, cliffLedger)
    ensures r.Ok? ==> forall b :: b in store ==> r.value[b] == store[b]
  {
    if totalAmount <= 0 || durationLedgers == 0 then Err(InvalidVestingParameters)
    else if beneficiary in store then Err(VestingScheduleAlreadyExists)
    else
      Ok(store[beneficiary := VestingSchedule(beneficiary, totalAmount, startLedger,
                                              durationLedgers, vestingType, 0, steps, cliffLedger)])
  }

  /** The amount of schedule `s` released at ledger `current` (the body of
      calculate_vested_amount once the schedule has been read). */
  function VestedAt(s: VestingSchedule, current: nat): (r: Result<int, VestingError>)
    ensures current < s.startLedger ==> r == Ok(0)
    ensures current >= s.startLedger + s.durationLedgers ==> r == Ok(s.totalAmount)
    ensures r.Err? ==> r.error == InvalidVestingParameters && s.vestingType == Stepped && s.steps == 0
    ensures r.Trap? ==> r.reason == DivisionByZero && s.vestingType == Stepped && s.steps > s.durationLedgers
    ensures s.vestingType == Stepped && s.startLedger <= current < s.startLedger + s.durationLedgers
            ==> (r == Err(InvalidVestingParameters) <==> s.steps == 0)
    ensures s.vestingType == Stepped && s.startLedger <= current < s.startLedger + s.durationLedgers && s.steps > 0
            ==> (r == Trap(DivisionByZero) <==> s.durationLedgers / s.steps == 0)
  {
    if current < s.startLedger then Ok(0)
    else if current >= s.startLedger + s.durationLedgers then Ok(s.totalAmount)
    else
      var elapsed := current - s.startLedger;
      match s.vestingType
      case Linear => Ok(DivTrunc(s.totalAmount * elapsed, s.durationLedgers))
      case Cliff => if current >= s.cliffLedger then Ok(s.totalAmount) else Ok(0)
      case Stepped =>
        if s.steps == 0 then Err(InvalidVestingParameters)
        else
          var stepSize := s.durationLedgers / s.steps;
          if stepSize == 0 then Trap(DivisionByZero)
          else
            Ok(StepShare(s.totalAmount, s.steps, elapsed / stepSize))
  }

  /** The stepped release after `completedSteps` steps: the whole total once every step
      is complete, otherwise floor(total * completedSteps / steps). For a non-negative
      total it stays between 0 and the total. */
  function StepShare(total: int, steps: nat, completedSteps: nat): (r: int)
    requires steps > 0
    ensures completedSteps >= steps ==> r == total
    ensures total >= 0 ==> 0 <= r <= total
  {
    if completedSteps >= steps then total
    else
      var share := DivTrunc(total * completedSteps, steps);
      if total >= 0 then ScaledShareBounds(total, completedSteps, steps); share
      else share
  }

  /** calculate_vested_amount: a missing schedule is an error, otherwise `VestedAt`. */
  function CalculateVestedAmount(store: Schedules, beneficiary: Address, current: nat)
    : (r: Result<int, VestingError>)
    ensures beneficiary !in store <==> r == Err(VestingScheduleDoesNotExist)
    ensures beneficiary in store ==> r == VestedAt(store[beneficiary], current)
  {
    if beneficiary !in store then Err(VestingScheduleDoesNotExist)
    else VestedAt(store[beneficiary], current)
  }

  /** get_vesting_schedule. */
  function GetVestingSchedule(store: Schedules, beneficiary: Address)
    : (r: Result<VestingSchedule, VestingError>)
    ensures r.Ok? <==> beneficiary in store
    ensures r.Ok? ==> r.value == store[beneficiary]
    ensures !r.Ok? ==> r == Err(VestingScheduleDoesNotExist)
  {
    if beneficiary !in store then Err(VestingScheduleDoesNotExist) else Ok(store[beneficiary])
  }

  /** claim_vested_tokens: pay out what is vested beyond what was claimed, and record it.
      On success the result is the claimable amount and the updated store. */
  function ClaimVestedTokens(store: Schedules, signers: set<Address>, beneficiary: Address, current: nat)
    : (r: Result<(int, Schedules), VestingError>)
    ensures beneficiary !in signers ==> r == Trap(NotAuthorized)
    ensures beneficiary in signers && beneficiary !in store ==> r == Err(VestingScheduleDoesNotExist)
    ensures r.Ok? ==> beneficiary in store && r.value.1.Keys == store.Keys
    ensures r.Ok? ==> forall b :: b in store && b != beneficiary ==> r.value.1[b] == store[b]
    ensures r.Ok? ==>
              r.value.1[beneficiary] ==
              store[beneficiary].(claimedAmount := store[beneficiary].claimedAmount + r.value.0)
  {
    if beneficiary !in signers then Trap(NotAuthorized)
    else if beneficiary !in store then Err(VestingScheduleDoesNotExist)
    else
      var schedule := store[beneficiary];
      match CalculateVestedAmount(store, beneficiary, current)
      case Err(e) => Err(e)
      case Trap(p) => Trap(p)
      case Ok(vestedAmount) =>
        var claimable := vestedAmount - schedule.claimedAmount;
        if claimable <= 0 then Err(InsufficientVestedTokens)
        else Ok((claimable, store[beneficiary := schedule.(claimedAmount := schedule.claimedAmount + claimable)]))
  }

  // ---------------------------------------------------------------------------------
  // Properties of the release curves

  lemma MulMonotone(a: int, x: int, y: int)
    requires a >= 0 && x <= y
    ensures a * x <= a * y
  {
    assert a * y - a * x == a * (y - x);
  }

  /** Multiplying by a positive factor keeps the order, in both directions. */
  lemma MulOrder(a: int, b: int, n: int)
    requires n > 0
    ensures a <= b <==> a * n <= b * n
  {
    if a <= b {
      MulMonotone(n, a, b);
      assert n * a == a * n && n * b == b * n;
    } else {
      MulMonotone(n, b + 1, a);
      assert n * (b + 1) == b * n + n && n * a == a * n;
    }
  }

  /** A non-negative quotient below `(t + 1) * n` rounds down to at most `t`. */
  lemma FloorAtMost(p: int, n: int, t: int)
    requires 0 <= p && n > 0 && p < (t + 1) * n
    ensures 0 <= DivTrunc(p, n) <= t
  {
    var q := DivTrunc(p, n);
    MulOrder(q + 1, 0, n);
    MulOrder(t + 1, q, n);
  }

  /** floor(total * k / n) for 0 <= k <= n lies in [0, total], below total when k < n. */
  lemma ScaledShareBounds(total: int, k: int, n: int)
    requires total >= 0 && 0 <= k <= n && n > 0
    ensures 0 <= DivTrunc(total * k, n) <= total
    ensures total > 0 && k < n ==> DivTrunc(total * k, n) < total
  {
    var p := total * k;
    assert 0 <= p <= total * n by {
      MulMonotone(total, 0, k);
      MulMonotone(total, k, n);
    }
    assert (total + 1) * n == total * n + n;
    FloorAtMost(p, n, total);
    if total > 0 && k < n {
      assert p <= total * n - total by {
        MulMonotone(total, k, n - 1);
        assert total * (n - 1) == total * n - total;
      }
      assert ((total - 1) + 1) * n == total * n;
      FloorAtMost(p, n, total - 1);
    }
  }

  lemma DivMonotone(x: int, y: int, d: int)
    requires 0 <= x <= y && d > 0
    ensures x / d <= y / d
  {
    MulOrder(y / d + 1, x / d, d);
  }

  /** floor(total * k / n) does not decrease in k. */
  lemma ScaledShareMonotone(total: int, k1: int, k2: int, n: int)
    requires total >= 0 && 0 <= k1 <= k2 && n > 0
    ensures DivTrunc(total * k1, n) <= DivTrunc(total * k2, n)
  {
    MulMonotone(total, 0, k1);
    MulMonotone(total, k1, k2);
    DivMonotone(total * k1, total * k2, n);
  }

  /** For a non-negative total, every released amount lies between 0 and the total;
      strictly inside the window a linear schedule has released less than the total. */
  lemma {:induction false} VestedBounds(s: VestingSchedule, current: nat)
    requires s.totalAmount >= 0
    requires VestedAt(s, current).Ok?
    ensures 0 <= VestedAt(s, current).value <= s.totalAmount
    ensures s.vestingType == Linear && s.totalAmount > 0 && current < s.startLedger + s.durationLedgers
            ==> VestedAt(s, current).value < s.totalAmount
  {
    if s.startLedger <= current < s.startLedger + s.durationLedgers {
      var elapsed := current - s.startLedger;
      match s.vestingType
      case Linear =>
        ScaledShareBounds(s.totalAmount, elapsed, s.durationLedgers);
      case Cliff =>
      case Stepped =>
        var stepSize := SteppedValue(s, current);
    }
  }

  /** Linear vesting inside the window is floor(total * elapsed / duration), stated
      without division: it is the largest v with v * duration <= total * elapsed. */
  lemma {:induction false} LinearIsFloor(s: VestingSchedule, current: nat)
    requires s.vestingType == Linear && s.totalAmount >= 0
    requires s.startLedger <= current < s.startLedger + s.durationLedgers
    ensures VestedAt(s, current).Ok?
    ensures var v := VestedAt(s, current).value;
            v * s.durationLedgers <= s.totalAmount * (current - s.startLedger) < (v + 1) * s.durationLedgers
  {
    assert s.totalAmount * (current - s.startLedger) >= 0 by {
      MulMonotone(s.totalAmount, 0, current - s.startLedger);
    }
  }

  /** Cliff vesting is all or nothing: the whole total from the cliff (or the end of
      the window) on, nothing before. */
  lemma {:induction false} CliffAllOrNothing(s: VestingSchedule, current: nat)
    requires s.vestingType == Cliff && current >= s.startLedger
    ensures VestedAt(s, current) ==
            if current >= s.cliffLedger || current >= s.startLedger + s.durationLedgers
            then Ok(s.totalAmount) else Ok(0)
  {
  }

  /** Stepped vesting inside the window: with k completed steps of size
      duration / steps, the total once k reaches the step count, otherwise
      floor(total * k / steps). */
  lemma {:induction false} SteppedIsStaircase(s: VestingSchedule, current: nat)
    requires s.vestingType == Stepped && s.totalAmount >= 0 && s.steps > 0
    requires s.durationLedgers / s.steps > 0
    requires s.startLedger <= current < s.startLedger + s.durationLedgers
    ensures VestedAt(s, current).Ok?
    ensures var k := (current - s.startLedger) / (s.durationLedgers / s.steps);
            var v := VestedAt(s, current).value;
            (k >= s.steps ==> v == s.totalAmount) &&
            (k < s.steps ==> v * s.steps <= s.totalAmount * k < (v + 1) * s.steps)
  {
    var k := (current - s.startLedger) / (s.durationLedgers / s.steps);
    assert s.totalAmount * k >= 0 by { MulMonotone(s.totalAmount, 0, k); }
  }

  /** Released amounts never decrease as the ledger advances (for a non-negative total,
      comparing two ledgers at which the amount is defined). */
  lemma {:induction false} VestedMonotone(s: VestingSchedule, c1: nat, c2: nat)
    requires s.totalAmount >= 0 && c1 <= c2
    requires VestedAt(s, c1).Ok? && VestedAt(s, c2).Ok?
    ensures VestedAt(s, c1).value <= VestedAt(s, c2).value
  {
    var end := s.startLedger + s.durationLedgers;
    if c1 < s.startLedger {
      VestedBounds(s, c2);
    } else if c2 >= end {
      VestedBounds(s, c1);
    } else {
      InsideWindowMonotone(s, c1, c2);
    }
  }

  lemma InsideWindowMonotone(s: VestingSchedule, c1: nat, c2: nat)
    requires s.totalAmount >= 0 && s.startLedger <= c1 <= c2 < s.startLedger + s.durationLedgers
    requires VestedAt(s, c1).Ok? && VestedAt(s, c2).Ok?
    ensures VestedAt(s, c1).value <= VestedAt(s, c2).value
  {
    match s.vestingType
    case Linear => LinearMonotone(s, c1, c2);
    case Cliff =>
    case Stepped => SteppedMonotone(s, c1, c2);
  }

  lemma LinearMonotone(s: VestingSchedule, c1: nat, c2: nat)
    requires s.vestingType == Linear
    requires s.totalAmount >= 0 && s.startLedger <= c1 <= c2 < s.startLedger + s.durationLedgers
    ensures VestedAt(s, c1).Ok? && VestedAt(s, c2).Ok?
    ensures VestedAt(s, c1).value <= VestedAt(s, c2).value
  {
    ScaledShareMonotone(s.totalAmount, c1 - s.startLedger, c2 - s.startLedger, s.durationLedgers);
  }

  lemma SteppedMonotone(s: VestingSchedule, c1: nat, c2: nat)
    requires s.vestingType == Stepped
    requires s.totalAmount >= 0 && s.startLedger <= c1 <= c2 < s.startLedger + s.durationLedgers
    requires VestedAt(s, c1).Ok? && VestedAt(s, c2).Ok?
    ensures VestedAt(s, c1).value <= VestedAt(s, c2).value
  {
    var stepSize := SteppedValue(s, c1);
    var _ := SteppedValue(s, c2);
    StairsMonotone(s.totalAmount, s.steps, stepSize, c1 - s.startLedger, c2 - s.startLedger);
  }

  /** Later ledgers complete at least as many steps, so release at least as much. */
  lemma StairsMonotone(total: int, steps: nat, stepSize: nat, e1: nat, e2: nat)
    requires total >= 0 && steps > 0 && stepSize > 0 && e1 <= e2
    ensures StepShare(total, steps, e1 / stepSize) <= StepShare(total, steps, e2 / stepSize)
  {
    DivMonotone(e1, e2, stepSize);
    StepShareMonotone(total, steps, e1 / stepSize, e2 / stepSize);
  }

  /** A stepped schedule that releases inside its window has a positive step count and
      step size, and releases the staircase value of its completed steps. */
  lemma SteppedValue(s: VestingSchedule, current: nat) returns (stepSize: nat)
    requires s.vestingType == Stepped
    requires s.startLedger <= current < s.startLedger + s.durationLedgers
    requires VestedAt(s, current).Ok?
    ensures s.steps > 0 && stepSize == s.durationLedgers / s.steps && stepSize > 0
    ensures VestedAt(s, current).value == StepShare(s.totalAmount, s.steps, (current - s.startLedger) / stepSize)
  {
    stepSize := s.durationLedgers / s.steps;
  }

  /** The staircase does not go down as steps complete. */
  lemma StepShareMonotone(total: int, steps: nat, k1: nat, k2: nat)
    requires total >= 0 && steps > 0 && k1 <= k2
    ensures StepShare(total, steps, k1) <= StepShare(total, steps, k2)
  {
    if k2 < steps {
      ScaledShareMonotone(total, k1, k2, steps);
    } else if k1 < steps {
      ScaledShareBounds(total, k1, steps);
    }
  }

  // ---------------------------------------------------------------------------------
  // Properties of creation and claiming

  /** Creation keeps the store valid. */
  lemma CreateKeepsValid(
    store: Schedules, beneficiary: Address, totalAmount: int, startLedger: nat,
    durationLedgers: nat, vestingType: VestingType, steps: nat, cliffLedger: nat)
    requires ValidSchedules(store)
    requires CreateVestingSchedule(store, beneficiary, totalAmount, startLedger,
                                   durationLedgers, vestingType, steps, cliffLedger).Ok?
    ensures ValidSchedules(CreateVestingSchedule(store, beneficiary, totalAmount, startLedger,
                                                 durationLedgers, vestingType, steps, cliffLedger).value)
  {
  }

  /** A successful claim pays a positive amount, exactly the vested amount less what had
      been claimed, after which the claimed amount equals the vested amount. */
  lemma ClaimPaysVestedMinusClaimed(store: Schedules, signers: set<Address>, beneficiary: Address, current: nat)
    requires ClaimVestedTokens(store, signers, beneficiary, current).Ok?
    ensures var (claimable, store') := ClaimVestedTokens(store, signers, beneficiary, current).value;
            var vested := VestedAt(store[beneficiary], current);
            && vested.Ok?
            && claimable == vested.value - store[beneficiary].claimedAmount
            && claimable > 0
            && store'[beneficiary].claimedAmount == vested.value
  {
  }

  /** When nothing beyond the claimed amount is vested, claiming fails and (being an
      error) writes nothing. */
  lemma ClaimNothingVested(store: Schedules, signers: set<Address>, beneficiary: Address, current: nat)
    requires beneficiary in signers && beneficiary in store
    requires VestedAt(store[beneficiary], current).Ok?
    requires VestedAt(store[beneficiary], current).value <= store[beneficiary].claimedAmount
    ensures ClaimVestedTokens(store, signers, beneficiary, current) == Err(InsufficientVestedTokens)
  {
  }

  /** Claiming keeps the store valid: nobody is ever paid beyond the total. */
  lemma ClaimKeepsValid(store: Schedules, signers: set<Address>, beneficiary: Address, current: nat)
    requires ValidSchedules(store)
    requires ClaimVestedTokens(store, signers, beneficiary, current).Ok?
    ensures ValidSchedules(ClaimVestedTokens(store, signers, beneficiary, current).value.1)
    ensures ClaimVestedTokens(store, signers, beneficiary, current).value.0
            <= store[beneficiary].totalAmount - store[beneficiary].claimedAmount
  {
    VestedBounds(store[beneficiary], current);
  }

  /** No double claim: right after a successful claim, a second claim at the same or
      any earlier ledger fails with InsufficientVestedTokens. */
  lemma ClaimOnceAtLedger(store: Schedules, signers: set<Address>, beneficiary: Address,
                          current: nat, later: nat)
    requires ValidSchedules(store)
    requires ClaimVestedTokens(store, signers, beneficiary, current).Ok?
    requires later <= current
    ensures var store' := ClaimVestedTokens(store, signers, beneficiary, current).value.1;
            ClaimVestedTokens(store', signers, beneficiary, later) in
              {Err(InsufficientVestedTokens), Trap(DivisionByZero), Err(InvalidVestingParameters)}
  {
    var store' := ClaimVestedTokens(store, signers, beneficiary, current).value.1;
    var s := store[beneficiary];
    var s' := store'[beneficiary];
    assert s' == s.(claimedAmount := s'.claimedAmount);
    assert VestedAt(s', later) == VestedAt(s, later);
    if VestedAt(s, later).Ok? {
      VestedMonotone(s, later, current);
    }
  }

  /** Two successive claims pay, together, what is vested at the second ledger minus
      what had been claimed before the first. */
  lemma ClaimsAddUp(store: Schedules, signers: set<Address>, beneficiary: Address, c1: nat, c2: nat)
    requires ClaimVestedTokens(store, signers, beneficiary, c1).Ok?
    requires ClaimVestedTokens(ClaimVestedTokens(store, signers, beneficiary, c1).value.1,
                               signers, beneficiary, c2).Ok?
    ensures var (p1, store1) := ClaimVestedTokens(store, signers, beneficiary, c1).value;
            var (p2, store2) := ClaimVestedTokens(store1, signers, beneficiary, c2).value;
            p1 + p2 == VestedAt(store[beneficiary], c2).value - store[beneficiary].claimedAmount
            && store2[beneficiary].claimedAmount == VestedAt(store[beneficiary], c2).value
  {
    var store1 := ClaimVestedTokens(store, signers, beneficiary, c1).value.1;
    var s := store[beneficiary];
    assert store1[beneficiary] == s.(claimedAmount := store1[beneficiary].claimedAmount);
    assert VestedAt(store1[beneficiary], c2) == VestedAt(s, c2);
  }
}
