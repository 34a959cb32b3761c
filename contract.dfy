/** The token contract's entry points (contract.rs). The `Token` object is the contract's
    storage, each entry point a method that updates it. An invocation that panics, fails a
    `require_auth` or returns an error leaves storage as it was, since the Soroban host
    discards the writes of a failed invocation; every method below writes its fields only on
    success. `signers` is the set of addresses whose authorization the invocation carries,
    and `current` the ledger sequence number of the invocation. */
module Contract {
  import opened Common
  import opened Storage
  import Vesting
  import Conditional
  import Batch

  datatype TokenMetadata = TokenMetadata(decimal: nat, name: string, symbol: string)

  /** The largest decimal that fits in a u8. */
  const MaxDecimal: nat := 255

  /** check_nonnegative_amount: a negative amount panics. */
  function CheckNonnegativeAmount(amount: int): (r: Completion)
    ensures r.Aborted? <==> amount < 0
    ensures r.Aborted? ==> r.reason == NegativeAmount
  {
    if amount < 0 then Aborted(NegativeAmount) else Returned
  }

  class Token {
    /** e.current_contract_address(): the contract's own account, which holds the
        tokens of every vesting schedule until they are claimed. */
    const contractAddress: Address
    var admin: Option<Address>
    var metadata: Option<TokenMetadata>
    var balances: Balances
    var frozen: map<Address, bool>
    var schedules: Vesting.Schedules
    var conditionals: Conditional.Transfers

    /** What every entry point keeps: valid vesting schedules and conditional transfers,
        and a `Frozen` entry is only ever `true`. */
    ghost predicate Valid()
      reads this
    {
      && Vesting.ValidSchedules(schedules)
      && Conditional.ValidTransfers(conditionals)
      && (forall a :: a in frozen ==> frozen[a])
    }

    /** A freshly deployed contract: no administrator, no metadata, empty storage. */
    constructor (contractAddress: Address)
      ensures Valid()
      ensures this.contractAddress == contractAddress
      ensures admin == None && metadata == None
      ensures balances == map[] && frozen == map[] && schedules == map[] && conditionals == map[]
    {
      this.contractAddress := contractAddress;
      admin := None;
      metadata := None;
      balances := map[];
      frozen := map[];
      schedules := map[];
      conditionals := map[];
    }

    /** read_administrator followed by admin.require_auth(). */
    function AdminCheck(signers: set<Address>): (r: Completion)
      reads this
      ensures r == Returned <==> admin.Some? && admin.value in signers
      ensures admin.None? ==> r == Aborted(NotInitialized)
    {
      if admin.None? then Aborted(NotInitialized)
      else if admin.value !in signers then Aborted(NotAuthorized)
      else Returned
    }

    /** balance: an address never credited holds nothing. */
    function BalanceOf(id: Address): (r: int)
      reads this
      ensures id !in balances ==> r == 0
    {
      Balance(balances, id)
    }

    /** is_account_frozen: an account without a `Frozen` entry reads as not frozen. */
    function IsFrozen(account: Address): (r: bool)
      reads this
      ensures account !in frozen ==> !r
      ensures r <==> account in frozen && frozen[account]
    {
      IsAccountFrozen(frozen, account)
    }

    /** initialize: only once, and only with a decimal that fits in a u8. The
        administrator written before the decimal check does not survive the panic. */
    method Initialize(administrator: Address, decimal: nat, name: string, symbol: string)
      returns (r: Completion)
      modifies this`admin, this`metadata
      ensures old(admin).Some? ==> r == Aborted(AlreadyInitialized)
      ensures old(admin).None? && decimal > MaxDecimal ==> r == Aborted(DecimalTooLarge)
      ensures r == Returned <==> old(admin).None? && decimal <= MaxDecimal
      ensures r == Returned ==> admin == Some(administrator) && metadata == Some(TokenMetadata(decimal, name, symbol))
      ensures r.Aborted? ==> admin == old(admin) && metadata == old(metadata)
    {
      if admin.Some? {
        return Aborted(AlreadyInitialized);
      }
      if decimal > MaxDecimal {
        return Aborted(DecimalTooLarge);
      }
      admin := Some(administrator);
      metadata := Some(TokenMetadata(decimal, name, symbol));
      return Returned;
    }

    /** mint: the administrator credits `to` with a non-negative amount. */
    method Mint(signers: set<Address>, to: Address, amount: int) returns (r: Completion)
      modifies this`balances
      ensures amount < 0 ==> r == Aborted(NegativeAmount)
      ensures amount >= 0 ==> r == AdminCheck(signers)
      ensures r == Returned ==> balances == Credit(old(balances), to, amount)
      ensures r == Returned ==> Total(balances) == Total(old(balances)) + amount
      ensures r.Aborted? ==> balances == old(balances)
    {
      r := CheckNonnegativeAmount(amount);
      if r.Aborted? {
        return;
      }
      r := AdminCheck(signers);
      if r.Aborted? {
        return;
      }
      TotalCredit(balances, to, amount);
      balances := Credit(balances, to, amount);
    }

    /** set_admin: the administrator names a new administrator. */
    method SetAdmin(signers: set<Address>, newAdmin: Address) returns (r: Completion)
      modifies this`admin
      ensures r == old(AdminCheck(signers))
      ensures r == Returned ==> admin == Some(newAdmin)
      ensures r.Aborted? ==> admin == old(admin)
    {
      r := AdminCheck(signers);
      if r == Returned {
        admin := Some(newAdmin);
      }
    }

    /** freeze_account: the administrator sets the `Frozen` flag of `account`. */
    method FreezeAccount(signers: set<Address>, account: Address) returns (r: Completion)
      requires Valid()
      modifies this`frozen
      ensures Valid()
      ensures r == AdminCheck(signers)
      ensures r == Returned ==> frozen == old(frozen)[account := true]
      ensures r == Returned ==> IsFrozen(account)
      ensures forall a :: a != account ==> IsFrozen(a) == old(IsFrozen(a))
      ensures r.Aborted? ==> frozen == old(frozen)
    {
      r := AdminCheck(signers);
      if r == Returned {
        frozen := frozen[account := true];
      }
    }

    /** unfreeze_account: the administrator removes the `Frozen` entry of `account`. */
    method UnfreezeAccount(signers: set<Address>, account: Address) returns (r: Completion)
      requires Valid()
      modifies this`frozen
      ensures Valid()
      ensures r == AdminCheck(signers)
      ensures r == Returned ==> frozen == old(frozen) - {account}
      ensures r == Returned ==> !IsFrozen(account)
      ensures forall a :: a != account ==> IsFrozen(a) == old(IsFrozen(a))
      ensures r.Aborted? ==> frozen == old(frozen)
    {
      r := AdminCheck(signers);
      if r == Returned {
        frozen := frozen - {account};
      }
    }

    /** create_vesting: the administrator credits the contract's own address with the
        total and creates the schedule; when creation fails the credit is discarded. */
    method CreateVesting(
      signers: set<Address>, beneficiary: Address, totalAmount: int, startLedger: nat,
      durationLedgers: nat, vestingType: Vesting.VestingType, steps: nat, cliffLedger: nat
    ) returns (r: Result<(), Vesting.VestingError>)
      requires Valid()
      modifies this`balances, this`schedules
      ensures Valid()
      ensures AdminCheck(signers).Aborted? ==> r == Trap(AdminCheck(signers).reason)
      ensures AdminCheck(signers) == Returned ==>
                r.Ok? == Vesting.CreateVestingSchedule(old(schedules), beneficiary, totalAmount, startLedger,
                                                       durationLedgers, vestingType, steps, cliffLedger).Ok?
      ensures AdminCheck(signers) == Returned && r.Err? ==>
                r.error == Vesting.CreateVestingSchedule(old(schedules), beneficiary, totalAmount, startLedger,
                                                         durationLedgers, vestingType, steps, cliffLedger).error
      ensures r.Ok? ==> balances == Credit(old(balances), contractAddress, totalAmount)
      ensures r.Ok? ==> schedules == Vesting.CreateVestingSchedule(old(schedules), beneficiary, totalAmount,
                                       startLedger, durationLedgers, vestingType, steps, cliffLedger).value
      ensures !r.Ok? ==> balances == old(balances) && schedules == old(schedules)
    {
      var check := AdminCheck(signers);
      if check.Aborted? {
        return Trap(check.reason);
      }
      var credited := Credit(balances, contractAddress, totalAmount);
      var created := Vesting.CreateVestingSchedule(schedules, beneficiary, totalAmount, startLedger,
                                                   durationLedgers, vestingType, steps, cliffLedger);
      if !created.Ok? {
        return Err(created.error);
      }
      Vesting.CreateKeepsValid(schedules, beneficiary, totalAmount, startLedger,
                               durationLedgers, vestingType, steps, cliffLedger);
      balances := credited;
      schedules := created.value;
      return Ok(());
    }

    /** claim_vesting: claim the beneficiary's vested tokens and move exactly that amount
        from the contract's own address to the beneficiary. */
    method ClaimVesting(signers: set<Address>, beneficiary: Address, current: nat)
      returns (r: Result<int, Vesting.VestingError>)
      requires Valid()
      modifies this`balances, this`schedules
      ensures Valid()
      ensures var claim := Vesting.ClaimVestedTokens(old(schedules), signers, beneficiary, current);
              && (claim.Err? ==> r == Err(claim.error))
              && (claim.Trap? ==> r == Trap(claim.reason))
              && (claim.Ok? && Balance(old(balances), contractAddress) < claim.value.0 ==>
                    r == Trap(InsufficientBalance))
              && (claim.Ok? && Balance(old(balances), contractAddress) >= claim.value.0 ==>
                    r == Ok(claim.value.0) && schedules == claim.value.1)
      ensures r.Ok? ==> r.value > 0
      ensures r.Ok? ==> balances == Credit(Debit(old(balances), contractAddress, r.value), beneficiary, r.value)
      ensures r.Ok? ==> Total(balances) == Total(old(balances))
      ensures !r.Ok? ==> balances == old(balances) && schedules == old(schedules)
    {
      var claim := Vesting.ClaimVestedTokens(schedules, signers, beneficiary, current);
      match claim
      case Err(e) => return Err(e);
      case Trap(p) => return Trap(p);
      case Ok(_) =>
        var (claimable, store') := claim.value;
        if Balance(balances, contractAddress) < claimable {
          return Trap(InsufficientBalance);
        }
        Vesting.ClaimKeepsValid(schedules, signers, beneficiary, current);
        Vesting.ClaimPaysVestedMinusClaimed(schedules, signers, beneficiary, current);
        var debited := Debit(balances, contractAddress, claimable);
        TotalDebit(balances, contractAddress, claimable);
        TotalCredit(debited, beneficiary, claimable);
        balances := Credit(debited, beneficiary, claimable);
        schedules := store';
        return Ok(claimable);
    }

    /** get_vesting_info: the stored schedule, or VestingScheduleDoesNotExist. */
    function GetVestingInfo(beneficiary: Address): (r: Result<Vesting.VestingSchedule, Vesting.VestingError>)
      reads this
      ensures r.Ok? <==> beneficiary in schedules
      ensures r.Ok? ==> r.value == schedules[beneficiary]
      ensures Valid() && r.Ok? ==> r.value.beneficiary == beneficiary && Vesting.WellFormed(r.value)
      ensures !r.Ok? ==> r == Err(Vesting.VestingScheduleDoesNotExist)
    {
      Vesting.GetVestingSchedule(schedules, beneficiary)
    }

    /** get_vested_amount: what the beneficiary's schedule has released at `current`. */
    function GetVestedAmount(beneficiary: Address, current: nat): (r: Result<int, Vesting.VestingError>)
      reads this
      ensures beneficiary !in schedules <==> r == Err(Vesting.VestingScheduleDoesNotExist)
      ensures beneficiary in schedules ==> r == Vesting.VestedAt(schedules[beneficiary], current)
    {
      Vesting.CalculateVestedAmount(schedules, beneficiary, current)
    }

    /** batch_transfer: the errors of batch.rs in their order, success exactly when every
        check passes, and then the balances batch.rs computes; the supply is unchanged and
        a failed batch changes nothing. */
    method BatchTransfer(signers: set<Address>, from: Address, recipients: seq<Address>, amounts: seq<int>)
      returns (r: Result<(), Batch.BatchError>)
      modifies this`balances
      ensures |recipients| == 0 <==> r == Err(Batch.EmptyRecipientsList)
      ensures |recipients| > 0 && |amounts| == 0 <==> r == Err(Batch.EmptyAmountsList)
      ensures |recipients| > 0 && |amounts| > 0 && |recipients| != |amounts|
              <==> r == Err(Batch.ListLengthMismatch)
      ensures Batch.WellShaped(recipients, amounts) && IsFrozen(from)
              <==> r == Err(Batch.BatchError.AccountFrozen)
      ensures Batch.WellShaped(recipients, amounts) && !IsFrozen(from) && from !in signers
              <==> r == Trap(NotAuthorized)
      ensures Batch.WellShaped(recipients, amounts) && !IsFrozen(from) && from in signers
              && !Batch.NoNegative(amounts)
              <==> r == Trap(NegativeAmount)
      ensures Batch.WellShaped(recipients, amounts) && !IsFrozen(from) && from in signers
              && Batch.NoNegative(amounts) && Balance(old(balances), from) < Batch.Sum(amounts)
              <==> r == Err(Batch.BatchError.InsufficientBalance)
      ensures r.Ok? <==>
              Batch.WellShaped(recipients, amounts) && !IsFrozen(from) && from in signers
              && Batch.NoNegative(amounts) && Balance(old(balances), from) >= Batch.Sum(amounts)
      ensures r.Ok? ==> balances == Batch.CreditAll(Debit(old(balances), from, Batch.Sum(amounts)), recipients, amounts)
      ensures r.Ok? ==> Total(balances) == Total(old(balances))
      ensures !r.Ok? ==> balances == old(balances)
    {
      var outcome := Batch.BatchTransfer(balances, frozen, signers, from, recipients, amounts);
      match outcome
      case Err(e) => return Err(e);
      case Trap(p) => return Trap(p);
      case Ok(updated) =>
        Batch.BatchEffect(balances, from, recipients, amounts);
        balances := updated;
        return Ok(());
    }

    /** create_conditional */
    method CreateConditional(
      signers: set<Address>, from: Address, to: Address, amount: int,
      condition: Conditional.ConditionType, expirationLedger: nat, current: nat
    ) returns (r: Result<(), Conditional.ConditionalError>)
      requires Valid()
      modifies this`conditionals
      ensures Valid()
      ensures var c := Conditional.CreateConditionalTransfer(old(conditionals), signers, from, to, amount,
                                                             condition, expirationLedger, current);
              && (c.Ok? <==> r.Ok?)
              && (c.Ok? ==> conditionals == c.value)
              && (c.Err? ==> r == Err(c.error))
              && (c.Trap? ==> r == Trap(c.reason))
      ensures !r.Ok? ==> conditionals == old(conditionals)
    {
      var c := Conditional.CreateConditionalTransfer(conditionals, signers, from, to, amount,
                                                     condition, expirationLedger, current);
      Conditional.TransitionsKeepValid(conditionals, signers, from, to, amount, condition,
                                       expirationLedger, 0, None, current);
      match c
      case Err(e) => return Err(e);
      case Trap(p) => return Trap(p);
      case Ok(updated) =>
        conditionals := updated;
        return Ok(());
    }

    /** execute_conditional: marks the transfer executed; no balance moves. */
    method ExecuteConditional(signers: set<Address>, transferId: nat, approver: Option<Address>, current: nat)
      returns (r: Result<(), Conditional.ConditionalError>)
      requires Valid()
      modifies this`conditionals
      ensures Valid()
      ensures var e := Conditional.ExecuteConditionalTransfer(old(conditionals), signers, transferId, approver, current);
              && (e.Ok? <==> r.Ok?)
              && (e.Ok? ==> conditionals == e.value)
              && (e.Err? ==> r == Err(e.error))
              && (e.Trap? ==> r == Trap(e.reason))
      ensures r.Ok? ==> conditionals == old(conditionals)[transferId := old(conditionals)[transferId].(executed := true)]
      ensures !r.Ok? ==> conditionals == old(conditionals)
    {
      var e := Conditional.ExecuteConditionalTransfer(conditionals, signers, transferId, approver, current);
      Conditional.TransitionsKeepValid(conditionals, signers, "", "", 1, Conditional.TimeBasedRelease(0),
                                       0, transferId, approver, current);
      match e
      case Err(err) => return Err(err);
      case Trap(p) => return Trap(p);
      case Ok(updated) =>
        conditionals := updated;
        return Ok(());
    }

    /** transfer: `from` signs, the amount is non-negative, `from` is not frozen (the
        recipient's flag is never consulted), and `from` can cover the amount. */
    method Transfer(signers: set<Address>, from: Address, to: Address, amount: int) returns (r: Completion)
      modifies this`balances
      ensures from !in signers ==> r == Aborted(NotAuthorized)
      ensures from in signers && amount < 0 ==> r == Aborted(NegativeAmount)
      ensures from in signers && amount >= 0 && IsFrozen(from) ==> r == Aborted(AccountFrozen)
      ensures from in signers && amount >= 0 && !IsFrozen(from) && Balance(old(balances), from) < amount
              ==> r == Aborted(InsufficientBalance)
      ensures r == Returned <==>
              from in signers && amount >= 0 && !IsFrozen(from) && Balance(old(balances), from) >= amount
      ensures r == Returned ==> balances == Credit(Debit(old(balances), from, amount), to, amount)
      ensures r == Returned ==> Total(balances) == Total(old(balances))
      ensures r.Aborted? ==> balances == old(balances)
    {
      if from !in signers {
        return Aborted(NotAuthorized);
      }
      r := CheckNonnegativeAmount(amount);
      if r.Aborted? {
        return;
      }
      if IsAccountFrozen(frozen, from) {
        return Aborted(AccountFrozen);
      }
      if Balance(balances, from) < amount {
        return Aborted(InsufficientBalance);
      }
      var debited := Debit(balances, from, amount);
      TotalDebit(balances, from, amount);
      TotalCredit(debited, to, amount);
      balances := Credit(debited, to, amount);
    }

    /** burn: `from` signs, the amount is non-negative, `from` is not frozen and can cover
        the amount, which leaves the supply. */
    method Burn(signers: set<Address>, from: Address, amount: int) returns (r: Completion)
      modifies this`balances
      ensures from !in signers ==> r == Aborted(NotAuthorized)
      ensures from in signers && amount < 0 ==> r == Aborted(NegativeAmount)
      ensures from in signers && amount >= 0 && IsFrozen(from) ==> r == Aborted(AccountFrozen)
      ensures from in signers && amount >= 0 && !IsFrozen(from) && Balance(old(balances), from) < amount
              ==> r == Aborted(InsufficientBalance)
      ensures r == Returned <==>
              from in signers && amount >= 0 && !IsFrozen(from) && Balance(old(balances), from) >= amount
      ensures r == Returned ==> balances == Debit(old(balances), from, amount)
      ensures r == Returned ==> Total(balances) == Total(old(balances)) - amount
      ensures r.Aborted? ==> balances == old(balances)
    {
      if from !in signers {
        return Aborted(NotAuthorized);
      }
      r := CheckNonnegativeAmount(amount);
      if r.Aborted? {
        return;
      }
      if IsAccountFrozen(frozen, from) {
        return Aborted(AccountFrozen);
      }
      if Balance(balances, from) < amount {
        return Aborted(InsufficientBalance);
      }
      TotalDebit(balances, from, amount);
      balances := Debit(balances, from, amount);
    }
  }

  /** A client of the entry points: a frozen sender can neither transfer nor burn, while a
      frozen recipient can still be minted to. */
  method FrozenSenderScenario(token: Token, admin: Address, alice: Address, bob: Address)
    requires token.Valid() && token.admin == Some(admin) && alice != bob
    modifies token`frozen, token`balances
    ensures token.Valid()
  {
    var f := token.FreezeAccount({admin}, alice);
    assert f == Returned && token.IsFrozen(alice);
    var t := token.Transfer({alice}, alice, bob, 1);
    assert t == Aborted(AccountFrozen);
    var b := token.Burn({alice}, alice, 1);
    assert b == Aborted(AccountFrozen);
    var g := token.FreezeAccount({admin}, bob);
    var m := token.Mint({admin}, bob, 5);
    assert m == Returned && token.balances == Credit(old(token.balances), bob, 5);
  }
}
