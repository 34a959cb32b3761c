/** Batch transfer (batch.rs): validate the two parallel lists, then debit the sender once
    with the sum of the amounts and credit each recipient its paired amount, in order. */
module Batch {
  import opened Common
  import opened Storage

  datatype BatchError =
    | EmptyRecipientsList
    | EmptyAmountsList
    | ListLengthMismatch
    | InsufficientBalance
    | AccountFrozen

  /** The sum of a list of amounts. When no amount is negative the sum is non-negative. */
  function Sum(amounts: seq<int>): (r: int)
    ensures NoNegative(amounts) ==> r >= 0
  {
    if |amounts| == 0 then 0
    else
      var n := |amounts| - 1;
      assert forall i :: 0 <= i < n ==> amounts[..n][i] == amounts[i];
      Sum(amounts[..n]) + amounts[n]
  }

  /** The balances after crediting `recipients[i]` with `amounts[i]`, for i in order. An
      address that is not listed keeps its balance. */
  function CreditAll(m: Balances, recipients: seq<Address>, amounts: seq<int>): (r: Balances)
    requires |recipients| == |amounts|
    ensures forall a :: a !in recipients ==> Balance(r, a) == Balance(m, a)
  {
    if |recipients| == 0 then m
    else
      var n := |recipients| - 1;
      assert forall a :: a !in recipients ==> a !in recipients[..n];
      Credit(CreditAll(m, recipients[..n], amounts[..n]), recipients[n], amounts[n])
  }

  /** What address `a` receives from a batch: the amounts paired with its entries. With no
      negative amount it lies between 0 and the sum of the batch. */
  function ReceivedBy(a: Address, recipients: seq<Address>, amounts: seq<int>): (r: int)
    requires |recipients| == |amounts|
    ensures NoNegative(amounts) ==> 0 <= r <= Sum(amounts)
  {
    if |recipients| == 0 then 0
    else
      var n := |recipients| - 1;
      assert forall i :: 0 <= i < n ==> amounts[..n][i] == amounts[i];
      ReceivedBy(a, recipients[..n], amounts[..n]) + (if recipients[n] == a then amounts[n] else 0)
  }

  /** The check of the first loop of batch_transfer: no amount is negative, that is,
      every listed amount is at least 0. */
  predicate NoNegative(amounts: seq<int>): (b: bool)
    ensures b <==> forall x :: x in amounts ==> x >= 0
  {
    assert forall i :: 0 <= i < |amounts| ==> amounts[i] in amounts;
    forall i :: 0 <= i < |amounts| ==> amounts[i] >= 0
  }

  /** The validation prefix of batch_transfer that ends in an error: the errors are
      checked in order, first empty recipients, then empty amounts, then the mismatch.
      Once the recipients are non-empty, the empty-amounts check is subsumed by the
      length check. */
  predicate WellShaped(recipients: seq<Address>, amounts: seq<int>): (b: bool)
    ensures b <==> |recipients| > 0 && |recipients| == |amounts|
  {
    |recipients| > 0 && |amounts| > 0 && |recipients| == |amounts|
  }

  /** batch_transfer. `balances`, `frozen` and `signers` are what the call reads of storage
      and of the invocation's authorizations; on success the result is the new balances. */
  method BatchTransfer(
    balances: Balances, frozen: map<Address, bool>, signers: set<Address>,
    from: Address, recipients: seq<Address>, amounts: seq<int>
  ) returns (r: Result<Balances, BatchError>)
    ensures |recipients| == 0 <==> r == Err(EmptyRecipientsList)
    ensures |recipients| > 0 && |amounts| == 0 <==> r == Err(EmptyAmountsList)
    ensures |recipients| > 0 && |amounts| > 0 && |recipients| != |amounts|
            <==> r == Err(ListLengthMismatch)
    ensures WellShaped(recipients, amounts) && IsAccountFrozen(frozen, from)
            <==> r == Err(BatchError.AccountFrozen)
    ensures WellShaped(recipients, amounts) && !IsAccountFrozen(frozen, from) && from !in signers
            <==> r == Trap(NotAuthorized)
    ensures WellShaped(recipients, amounts) && !IsAccountFrozen(frozen, from) && from in signers
            && !NoNegative(amounts)
            <==> r == Trap(NegativeAmount)
    ensures WellShaped(recipients, amounts) && !IsAccountFrozen(frozen, from) && from in signers
            && NoNegative(amounts) && Balance(balances, from) < Sum(amounts)
            <==> r == Err(BatchError.InsufficientBalance)
    ensures r.Ok? <==>
            WellShaped(recipients, amounts) && !IsAccountFrozen(frozen, from) && from in signers
            && NoNegative(amounts) && Balance(balances, from) >= Sum(amounts)
    ensures r.Ok? ==> r.value == CreditAll(Debit(balances, from, Sum(amounts)), recipients, amounts)
  {
    if |recipients| == 0 {
      return Err(EmptyRecipientsList);
    }
    if |amounts| == 0 {
      return Err(EmptyAmountsList);
    }
    if |recipients| != |amounts| {
      return Err(ListLengthMismatch);
    }
    if IsAccountFrozen(frozen, from) {
      return Err(BatchError.AccountFrozen);
    }
    if from !in signers {
      return Trap(NotAuthorized);
    }

    var totalAmount := 0;
    for i := 0 to |amounts|
      invariant totalAmount == Sum(amounts[..i])
      invariant forall j :: 0 <= j < i ==> amounts[j] >= 0
    {
      if amounts[i] < 0 {
        return Trap(NegativeAmount);
      }
      assert amounts[..i + 1][..i] == amounts[..i];
      totalAmount := totalAmount + amounts[i];
    }
    assert amounts[..|amounts|] == amounts;

    if Balance(balances, from) < totalAmount {
      return Err(BatchError.InsufficientBalance);
    }

    var debited := Debit(balances, from, totalAmount);
    var updated := debited;
    for i := 0 to |recipients|
      invariant updated == CreditAll(debited, recipients[..i], amounts[..i])
    {
      assert recipients[..i + 1][..i] == recipients[..i];
      assert amounts[..i + 1][..i] == amounts[..i];
      updated := Credit(updated, recipients[i], amounts[i]);
    }
    assert recipients[..|recipients|] == recipients;
    return Ok(updated);
  }

  // ---------------------------------------------------------------------------------
  // Properties of the credits

  /** Each address ends with its balance plus everything paired with it in the batch;
      repeated recipients accumulate. */
  lemma {:induction false} CreditAllBalance(m: Balances, recipients: seq<Address>, amounts: seq<int>, a: Address)
    requires |recipients| == |amounts|
    ensures Balance(CreditAll(m, recipients, amounts), a) == Balance(m, a) + ReceivedBy(a, recipients, amounts)
  {
    if |recipients| > 0 {
      var n := |recipients| - 1;
      CreditAllBalance(m, recipients[..n], amounts[..n], a);
    }
  }

  /** An address that is not among the recipients receives nothing. */
  lemma {:induction false} ReceivedByAbsent(a: Address, recipients: seq<Address>, amounts: seq<int>)
    requires |recipients| == |amounts| && a !in recipients
    ensures ReceivedBy(a, recipients, amounts) == 0
  {
    if |recipients| > 0 {
      var n := |recipients| - 1;
      assert a !in recipients[..n];
      ReceivedByAbsent(a, recipients[..n], amounts[..n]);
    }
  }

  /** A recipient listed once receives exactly its paired amount. */
  lemma {:induction false} ReceivedBySingle(recipients: seq<Address>, amounts: seq<int>, k: nat)
    requires |recipients| == |amounts| && k < |recipients|
    requires forall j :: 0 <= j < |recipients| && j != k ==> recipients[j] != recipients[k]
    ensures ReceivedBy(recipients[k], recipients, amounts) == amounts[k]
  {
    var n := |recipients| - 1;
    if k < n {
      ReceivedBySingle(recipients[..n], amounts[..n], k);
    } else {
      assert recipients[k] !in recipients[..n];
      ReceivedByAbsent(recipients[k], recipients[..n], amounts[..n]);
    }
  }

  /** The credits add exactly the sum of the amounts to the supply. */
  lemma {:induction false} CreditAllTotal(m: Balances, recipients: seq<Address>, amounts: seq<int>)
    requires |recipients| == |amounts|
    ensures Total(CreditAll(m, recipients, amounts)) == Total(m) + Sum(amounts)
  {
    if |recipients| > 0 {
      var n := |recipients| - 1;
      CreditAllTotal(m, recipients[..n], amounts[..n]);
      TotalCredit(CreditAll(m, recipients[..n], amounts[..n]), recipients[n], amounts[n]);
    }
  }

  /** The effect of a successful batch: the total supply is unchanged; the sender loses
      the sum of the amounts (and gets back whatever it sends itself); each address gains
      what is paired with it; an address that is neither the sender nor a recipient keeps
      its balance. */
  lemma BatchEffect(balances: Balances, from: Address, recipients: seq<Address>, amounts: seq<int>)
    requires |recipients| == |amounts|
    ensures var after := CreditAll(Debit(balances, from, Sum(amounts)), recipients, amounts);
            && Total(after) == Total(balances)
            && (forall a :: Balance(after, a) ==
                  Balance(balances, a) - (if a == from then Sum(amounts) else 0) + ReceivedBy(a, recipients, amounts))
            && (forall a :: a != from && a !in recipients ==> Balance(after, a) == Balance(balances, a))
  {
    var debited := Debit(balances, from, Sum(amounts));
    TotalDebit(balances, from, Sum(amounts));
    CreditAllTotal(debited, recipients, amounts);
    forall a ensures Balance(CreditAll(debited, recipients, amounts), a) ==
                     Balance(balances, a) - (if a == from then Sum(amounts) else 0) + ReceivedBy(a, recipients, amounts) {
      CreditAllBalance(debited, recipients, amounts, a);
    }
    forall a | a != from && a !in recipients
      ensures Balance(CreditAll(debited, recipients, amounts), a) == Balance(balances, a) {
      CreditAllBalance(debited, recipients, amounts, a);
      ReceivedByAbsent(a, recipients, amounts);
    }
  }
}
