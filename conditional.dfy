/** Conditional transfers (conditional.rs): a record created under the current ledger
    sequence and executed at most once, once its condition holds and before it expires.
    Persistent storage under `ConditionalTransfer(id)` is a map from id to record. */
module Conditional {
  import opened Common

  datatype ConditionalError =
    | InvalidCondition
    | ConditionNotMet
    | TransferAlreadyExecuted
    | InvalidTransferAmount
    | TransferExpired

  datatype ConditionType =
    | TimeBasedRelease(releaseLedger: nat)
    | ApprovalRequired(approver: Address)

  datatype ConditionalTransfer = ConditionalTransfer(
    from: Address,
    to: Address,
    amount: int,
    condition: ConditionType,
    executed: bool,
    expirationLedger: nat)   // 0: never expires

  type Transfers = map<nat, ConditionalTransfer>

  /** Every stored transfer has a positive amount, as creation demands. */
  ghost predicate ValidTransfers(transfers: Transfers) {
    forall id :: id in transfers ==> transfers[id].amount > 0
  }

  /** create_conditional_transfer: the id is the current ledger sequence, so a second
      transfer created in the same ledger replaces the first. */
  function CreateConditionalTransfer(
    transfers: Transfers, signers: set<Address>, from: Address, to: Address, amount: int,
    condition: ConditionType, expirationLedger: nat, current: nat
  ): (r: Result<Transfers, ConditionalError>)
    ensures amount <= 0 <==> r == Err(InvalidTransferAmount)
    ensures amount > 0 && from !in signers <==> r == Trap(NotAuthorized)
    ensures r.Ok? ==> r.value.Keys == transfers.Keys + {current}
    ensures r.Ok? ==> r.value[current] == ConditionalTransfer(from, to, amount, condition, false, expirationLedger)
    ensures r.Ok? ==> forall id :: id in transfers && id != current ==> r.value[id] == transfers[id]
  {
    if amount <= 0 then Err(InvalidTransferAmount)
    else if from !in signers then Trap(NotAuthorized)
    else Ok(transfers[current := ConditionalTransfer(from, to, amount, condition, false, expirationLedger)])
  }

  /** The expiry check of execute_conditional_transfer: an expiration of 0 never expires;
      otherwise a transfer expires exactly after its expiration ledger. */
  predicate Expired(t: ConditionalTransfer, current: nat): (expired: bool)
    ensures t.expirationLedger == 0 ==> !expired
    ensures t.expirationLedger > 0 ==> (expired <==> current > t.expirationLedger)
  {
    t.expirationLedger > 0 && current > t.expirationLedger
  }

  /** The condition check of execute_conditional_transfer. It fails with ConditionNotMet,
      aborts when the named approver has not signed, or passes. */
  function CheckCondition(condition: ConditionType, approver: Option<Address>,
                          signers: set<Address>, current: nat): (r: Result<(), ConditionalError>)
    ensures r.Err? ==> r.error == ConditionNotMet
    ensures r.Trap? ==> r.reason == NotAuthorized
    ensures r.Ok? <==> match condition
                       case TimeBasedRelease(release) => current >= release
                       case ApprovalRequired(a) => approver == Some(a) && a in signers
  {
    match condition
    case TimeBasedRelease(releaseLedger) =>
      if current < releaseLedger then Err(ConditionNotMet) else Ok(())
    case ApprovalRequired(approverAddress) =>
      match approver
      case Some(addr) =>
        if addr != approverAddress then Err(ConditionNotMet)
        else if addr !in signers then Trap(NotAuthorized)
        else Ok(())
      case None => Err(ConditionNotMet)
  }

  /** execute_conditional_transfer: existence, then already-executed, then expiry, then
      the condition; on success only the `executed` flag of the record changes. */
  function ExecuteConditionalTransfer(
    transfers: Transfers, signers: set<Address>, id: nat, approver: Option<Address>, current: nat
  ): (r: Result<Transfers, ConditionalError>)
    ensures id !in transfers <==> r == Err(InvalidCondition)
    ensures r.Ok? ==> r.value == transfers[id := transfers[id].(executed := true)]
  {
    if id !in transfers then Err(InvalidCondition)
    else
      var transfer := transfers[id];
      if transfer.executed then Err(TransferAlreadyExecuted)
      else if Expired(transfer, current) then Err(TransferExpired)
      else match CheckCondition(transfer.condition, approver, signers, current)
        case Err(e) => Err(e)
        case Trap(p) => Trap(p)
        case Ok(_) => Ok(transfers[id := transfer.(executed := true)])
  }

  // ---------------------------------------------------------------------------------
  // Properties

  /** The checks run in the order existence, already-executed, expiry, condition: each
      error is reported exactly when every earlier check passed and its own fails. */
  lemma {:induction false} ExecuteCheckOrder(
    transfers: Transfers, signers: set<Address>, id: nat, approver: Option<Address>, current: nat)
    ensures var r := ExecuteConditionalTransfer(transfers, signers, id, approver, current);
            && (r == Err(TransferAlreadyExecuted) <==> id in transfers && transfers[id].executed)
            && (r == Err(TransferExpired) <==>
                  id in transfers && !transfers[id].executed && Expired(transfers[id], current))
            && (r == Err(ConditionNotMet) <==>
                  id in transfers && !transfers[id].executed && !Expired(transfers[id], current)
                  && CheckCondition(transfers[id].condition, approver, signers, current) == Err(ConditionNotMet))
            && (r.Ok? <==>
                  id in transfers && !transfers[id].executed && !Expired(transfers[id], current)
                  && CheckCondition(transfers[id].condition, approver, signers, current).Ok?)
  {
    var r := ExecuteConditionalTransfer(transfers, signers, id, approver, current);
    if id in transfers && !transfers[id].executed && !Expired(transfers[id], current) {
      match CheckCondition(transfers[id].condition, approver, signers, current)
      case Err(e) =>
      case Trap(p) =>
      case Ok(_) =>
    }
  }

  /** Each id succeeds at most once: after a successful execution every further
      execution of that id, by anyone, at any ledger, fails with TransferAlreadyExecuted. */
  lemma ExecuteAtMostOnce(
    transfers: Transfers, signers: set<Address>, id: nat, approver: Option<Address>, current: nat,
    signers': set<Address>, approver': Option<Address>, current': nat)
    requires ExecuteConditionalTransfer(transfers, signers, id, approver, current).Ok?
    ensures var transfers' := ExecuteConditionalTransfer(transfers, signers, id, approver, current).value;
            ExecuteConditionalTransfer(transfers', signers', id, approver', current') == Err(TransferAlreadyExecuted)
  {
  }

  /** A pending, unexpired approval-gated transfer executes only with its own approver:
      no approver or another address gives ConditionNotMet. */
  lemma {:induction false} ApprovalNeedsTheApprover(
    transfers: Transfers, signers: set<Address>, id: nat, approver: Option<Address>, current: nat)
    requires id in transfers && !transfers[id].executed && !Expired(transfers[id], current)
    requires transfers[id].condition.ApprovalRequired?
    ensures var r := ExecuteConditionalTransfer(transfers, signers, id, approver, current);
            (approver != Some(transfers[id].condition.approver) <==> r == Err(ConditionNotMet))
            && (r.Ok? ==> approver == Some(transfers[id].condition.approver))
  {
  }

  /** A time-locked transfer does not execute before its release ledger. */
  lemma {:induction false} TimeLockHolds(
    transfers: Transfers, signers: set<Address>, id: nat, approver: Option<Address>, current: nat)
    requires id in transfers && !transfers[id].executed && !Expired(transfers[id], current)
    requires transfers[id].condition.TimeBasedRelease?
    ensures var r := ExecuteConditionalTransfer(transfers, signers, id, approver, current);
            (current < transfers[id].condition.releaseLedger <==> r == Err(ConditionNotMet))
            && (current >= transfers[id].condition.releaseLedger <==> r.Ok?)
  {
  }

  /** A second creation in the same ledger overwrites the first record. */
  lemma SameLedgerCreateOverwrites(
    transfers: Transfers, signers: set<Address>, from: Address, to: Address, amount: int,
    condition: ConditionType, expirationLedger: nat,
    from2: Address, to2: Address, amount2: int, condition2: ConditionType, expirationLedger2: nat,
    current: nat)
    requires CreateConditionalTransfer(transfers, signers, from, to, amount, condition, expirationLedger, current).Ok?
    requires amount2 > 0 && from2 in signers
    ensures var t1 := CreateConditionalTransfer(transfers, signers, from, to, amount, condition, expirationLedger, current).value;
            var t2 := CreateConditionalTransfer(t1, signers, from2, to2, amount2, condition2, expirationLedger2, current);
            t2.Ok? && t2.value.Keys == t1.Keys
            && t2.value[current] == ConditionalTransfer(from2, to2, amount2, condition2, false, expirationLedger2)
  {
  }

  /** Creation and execution keep every stored amount positive. */
  lemma TransitionsKeepValid(
    transfers: Transfers, signers: set<Address>, from: Address, to: Address, amount: int,
    condition: ConditionType, expirationLedger: nat, id: nat, approver: Option<Address>, current: nat)
    requires ValidTransfers(transfers)
    ensures var r := CreateConditionalTransfer(transfers, signers, from, to, amount, condition, expirationLedger, current);
            r.Ok? ==> ValidTransfers(r.value)
    ensures var r := ExecuteConditionalTransfer(transfers, signers, id, approver, current);
            r.Ok? ==> ValidTransfers(r.value)
  {
  }
}
