/** The batch-transfer page (BatchOps.jsx): an editable list of recipients, a bulk paste
    that fills the list from text, the total shown, and the submission that hands the list
    to the wallet's batchTransferTokens. `BatchOpsPage` is the page's state. */
module BatchOps {
  import opened Common
  import opened JsString
  import WalletContext
  import Batch

  /** A row of the form, as typed: both fields are strings. */
  datatype Recipient = Recipient(address: string, amount: string)

  const EmptyRecipient := Recipient("", "")

  datatype Field = Address | Amount

  datatype BatchStatus = BatchStatus(success: bool, message: string)

  /** What the awaited batchTransferTokens call gives back: its response object, or a
      thrown error with its message. */
  datatype Submission = Replied(response: WalletContext.Response) | Raised(message: string)

  const InvalidFormMessage := "Please fill in all recipient addresses and amounts"
  const SuccessMessage := "Batch transfer completed successfully!"
  const FailurePrefix := "Batch transfer failed: "
  const ErrorPrefix := "Error: "

  /** `parseInt(amount) || 0`: NaN and 0 both count as 0. */
  function AmountOrZero(amount: string): int {
    ParseInt(amount).GetOr(0)
  }

  /** calculateTotal: the sum of the parsed amounts, in list order. Rows whose amount is
      NaN add nothing, so a form without a number shows 0; amounts that are never
      negative give a total that is not negative. */
  function CalculateTotal(recipients: seq<Recipient>): (total: int)
    ensures (forall i :: 0 <= i < |recipients| ==> ParseInt(recipients[i].amount).None?) ==> total == 0
    ensures (forall i :: 0 <= i < |recipients| ==> AmountOrZero(recipients[i].amount) >= 0) ==> total >= 0
  {
    if |recipients| == 0 then 0
    else
      var n := |recipients| - 1;
      assert forall i :: 0 <= i < n ==> recipients[..n][i] == recipients[i];
      CalculateTotal(recipients[..n]) + AmountOrZero(recipients[n].amount)
  }

  /** A row the submission accepts: a non-empty address and an amount that parses to a
      positive integer, which is then also what the total counts for it. */
  predicate ValidRow(r: Recipient): (valid: bool)
    ensures valid ==> r.address != "" && AmountOrZero(r.amount) > 0
    ensures r.amount == "" ==> !valid
  {
    r.address != "" && r.amount != "" && ParseInt(r.amount).Some? && ParseInt(r.amount).value > 0
  }

  /** The validity check of handleBatchTransfer: every row is valid. Like `every`, it
      holds of an empty list. */
  predicate IsValidSubmission(recipients: seq<Recipient>): (valid: bool)
    ensures |recipients| == 0 ==> valid
    ensures valid ==> forall i :: 0 <= i < |recipients| ==> AmountOrZero(recipients[i].amount) > 0
  {
    forall i :: 0 <= i < |recipients| ==> ValidRow(recipients[i])
  }

  /** The addresses handed to batchTransferTokens. */
  function SubmittedAddresses(recipients: seq<Recipient>): (r: seq<string>)
    ensures |r| == |recipients|
    ensures forall i :: 0 <= i < |r| ==> r[i] == recipients[i].address
  {
    if |recipients| == 0 then []
    else SubmittedAddresses(recipients[..|recipients| - 1]) + [recipients[|recipients| - 1].address]
  }

  /** The amounts handed to batchTransferTokens: each row's parsed amount. */
  function SubmittedAmounts(recipients: seq<Recipient>): (r: seq<int>)
    requires IsValidSubmission(recipients)
    ensures |r| == |recipients|
    ensures forall i :: 0 <= i < |r| ==> Some(r[i]) == ParseInt(recipients[i].amount) && r[i] > 0
  {
    if |recipients| == 0 then []
    else
      var n := |recipients| - 1;
      assert ValidRow(recipients[n]);
      SubmittedAmounts(recipients[..n]) + [ParseInt(recipients[n].amount).value]
  }

  /** `list.splice(index, 1)` on a copy: a negative index counts from the end, and an
      index past the end removes nothing. */
  function SpliceOne<T>(list: seq<T>, index: int): (r: seq<T>)
    ensures 0 <= index < |list| ==> r == list[..index] + list[index + 1..]
    ensures 0 <= index < |list| ==> |r| == |list| - 1
    ensures index >= |list| ==> r == list
  {
    var start := if index < 0 then (if |list| + index < 0 then 0 else |list| + index) else index;
    if start < |list| then list[..start] + list[start + 1..] else list
  }

  /** The pairing loop of handleBulkPaste, as a function of the pieces: consecutive
      pieces make one recipient, trimmed; an odd piece at the end is dropped, so there
      is at most one recipient per two pieces. */
  function Pairs(lines: seq<string>): (r: seq<Recipient>)
    ensures 2 * |r| <= |lines|
  {
    if |lines| < 2 then []
    else
      var address, amount := Trim(lines[0]), Trim(lines[1]);
      (if address != "" && amount != "" then [Recipient(address, amount)] else []) + Pairs(lines[2..])
  }

  /** One turn of the pairing loop: the pair at `i`, if any, then the pairs after it. */
  lemma PairsStep(lines: seq<string>, i: nat)
    requires i < |lines|
    ensures Pairs(lines[i..]) ==
            (if i + 1 < |lines| && Trim(lines[i]) != "" && Trim(lines[i + 1]) != ""
             then [Recipient(Trim(lines[i]), Trim(lines[i + 1]))] else [])
            + Pairs(lines[(if i + 2 <= |lines| then i + 2 else |lines|)..])
  {
    if i + 1 < |lines| {
      assert lines[i..][2..] == lines[i + 2..];
    } else {
      assert lines[|lines|..] == [];
    }
  }

  lemma ConcatAssociates<T>(a: seq<T>, b: seq<T>, c: seq<T>)
    ensures (a + b) + c == a + (b + c)
  {
  }

  /** The recipients a paste of `text` produces: split on newline or comma, drop the
      blank pieces, pair the rest. There is at most one row per two non-blank pieces. */
  function BulkPaste(text: string): (r: seq<Recipient>)
    ensures 2 * |r| <= |NonBlank(Split(text))|
  {
    Pairs(NonBlank(Split(text)))
  }

  /** The loop of handleBulkPaste: walk the pieces two at a time and push a trimmed pair
      when both halves are there and non-empty. */
  method PairLines(lines: seq<string>) returns (newRecipients: seq<Recipient>)
    ensures newRecipients == Pairs(lines)
  {
    newRecipients := [];
    var i := 0;
    while i < |lines|
      invariant 0 <= i <= |lines| + 1
      invariant newRecipients + Pairs(lines[(if i <= |lines| then i else |lines|)..]) == Pairs(lines)
    {
      var pair: seq<Recipient> := [];
      if i + 1 < |lines| {
        var address := Trim(lines[i]);
        var amount := Trim(lines[i + 1]);
        if address != "" && amount != "" {
          pair := [Recipient(address, amount)];
        }
      }
      ghost var rest := Pairs(lines[(if i + 2 <= |lines| then i + 2 else |lines|)..]);
      PairsStep(lines, i);
      assert Pairs(lines[i..]) == pair + rest;
      ConcatAssociates(newRecipients, pair, rest);
      newRecipients := newRecipients + pair;
      i := i + 2;
    }
    assert lines[|lines|..] == [];
  }

  class BatchOpsPage {
    var recipients: seq<Recipient>
    var batchStatus: Option<BatchStatus>
    var batchLoading: bool

    /** The form never has fewer than one row. */
    ghost predicate Valid()
      reads this
    {
      |recipients| >= 1
    }

    /** The initial state: one empty row, no status. */
    constructor ()
      ensures Valid()
      ensures recipients == [EmptyRecipient] && batchStatus == None && !batchLoading
    {
      recipients := [EmptyRecipient];
      batchStatus := None;
      batchLoading := false;
    }

    /** handleAddRecipient: one empty row at the end, the others as they were. */
    method HandleAddRecipient()
      requires Valid()
      modifies this`recipients
      ensures Valid()
      ensures recipients == old(recipients) + [EmptyRecipient]
      ensures CalculateTotal(recipients) == CalculateTotal(old(recipients))
    {
      AddKeepsTotal(recipients);
      recipients := recipients + [EmptyRecipient];
    }

    /** handleRemoveRecipient: nothing when only one row is left; otherwise the row at
        `index` goes and the others keep their order. */
    method HandleRemoveRecipient(index: int)
      requires Valid()
      modifies this`recipients
      ensures Valid()
      ensures |old(recipients)| <= 1 ==> recipients == old(recipients)
      ensures |old(recipients)| > 1 ==> recipients == SpliceOne(old(recipients), index)
      ensures |old(recipients)| > 1 && 0 <= index < |old(recipients)| ==>
                recipients == old(recipients)[..index] + old(recipients)[index + 1..]
    {
      if |recipients| <= 1 {
        return;
      }
      recipients := SpliceOne(recipients, index);
    }

    /** handleRecipientChange: only the named field of row `index` changes. */
    method HandleRecipientChange(index: nat, field: Field, value: string)
      requires Valid() && index < |recipients|
      modifies this`recipients
      ensures Valid()
      ensures |recipients| == |old(recipients)|
      ensures forall j :: 0 <= j < |recipients| && j != index ==> recipients[j] == old(recipients)[j]
      ensures field == Address ==> recipients[index] == old(recipients)[index].(address := value)
      ensures field == Amount ==> recipients[index] == old(recipients)[index].(amount := value)
    {
      var row := recipients[index];
      var changed := if field == Address then row.(address := value) else row.(amount := value);
      recipients := recipients[index := changed];
    }

    /** handleBulkPaste: the rows become the pasted recipients, unless the paste yields
        none, in which case the form is left as it was. */
    method HandleBulkPaste(clipboardText: string)
      requires Valid()
      modifies this`recipients
      ensures Valid()
      ensures |BulkPaste(clipboardText)| > 0 ==> recipients == BulkPaste(clipboardText)
      ensures |BulkPaste(clipboardText)| == 0 ==> recipients == old(recipients)
    {
      var newRecipients := PairLines(NonBlank(Split(clipboardText)));
      if |newRecipients| > 0 {
        recipients := newRecipients;
      }
    }

    /** handleBatchTransfer: an invalid form only sets the status; a valid one is
        submitted as its addresses and parsed amounts, the status reports the outcome,
        and a successful submission resets the form to one empty row. */
    method HandleBatchTransfer(outcome: Submission)
      returns (submitted: Option<(seq<string>, seq<int>)>)
      requires Valid()
      modifies this`recipients, this`batchStatus, this`batchLoading
      ensures Valid()
      ensures !IsValidSubmission(old(recipients)) ==>
                && submitted == None && recipients == old(recipients) && batchLoading == old(batchLoading)
                && batchStatus == Some(BatchStatus(false, InvalidFormMessage))
      ensures IsValidSubmission(old(recipients)) ==>
                && submitted == Some((SubmittedAddresses(old(recipients)), SubmittedAmounts(old(recipients))))
                && !batchLoading
                && batchStatus == Some(StatusOf(outcome))
                && recipients == (if outcome.Replied? && outcome.response.success then [EmptyRecipient]
                                  else old(recipients))
    {
      if !IsValidSubmission(recipients) {
        batchStatus := Some(BatchStatus(false, InvalidFormMessage));
        return None;
      }
      batchLoading := true;
      submitted := Some((SubmittedAddresses(recipients), SubmittedAmounts(recipients)));
      batchStatus := Some(StatusOf(outcome));
      if outcome.Replied? && outcome.response.success {
        recipients := [EmptyRecipient];
      }
      batchLoading := false;
    }
  }

  /** The status message of a submission that reached the wallet. A failed response
      without an error interpolates JavaScript's `undefined`. */
  function StatusOf(outcome: Submission): (s: BatchStatus)
    ensures s.success <==> outcome.Replied? && outcome.response.success
  {
    match outcome
    case Replied(response) =>
      if response.success then BatchStatus(true, SuccessMessage)
      else BatchStatus(false, FailurePrefix + response.error.GetOr("undefined"))
    case Raised(message) => BatchStatus(false, ErrorPrefix + message)
  }

  // ---------------------------------------------------------------------------------
  // Properties

  /** An empty amount is NaN for parseInt. */
  lemma EmptyAmountIsNaN()
    ensures ParseInt("") == None
  {
  }

  /** An added empty row contributes nothing to the total. */
  lemma AddKeepsTotal(recipients: seq<Recipient>)
    ensures CalculateTotal(recipients + [EmptyRecipient]) == CalculateTotal(recipients)
  {
    EmptyAmountIsNaN();
    assert (recipients + [EmptyRecipient])[..|recipients|] == recipients;
  }

  /** The total shown for a valid form is what batch.rs debits from the sender: the sum
      of exactly the amounts the page submits. */
  lemma {:induction false} TotalIsSubmittedSum(recipients: seq<Recipient>)
    requires IsValidSubmission(recipients)
    ensures CalculateTotal(recipients) == Batch.Sum(SubmittedAmounts(recipients))
  {
    if |recipients| > 0 {
      var n := |recipients| - 1;
      var prefix := recipients[..n];
      assert IsValidSubmission(prefix);
      TotalIsSubmittedSum(prefix);
      var amounts := SubmittedAmounts(recipients);
      assert amounts[..n] == SubmittedAmounts(prefix);
    }
  }

  /** A valid form submits amounts that pass batch.rs's non-negative check, lists of
      equal length, and a total of at least one per row. */
  lemma {:induction false} ValidSubmissionPassesBatchChecks(recipients: seq<Recipient>)
    requires IsValidSubmission(recipients)
    ensures Batch.NoNegative(SubmittedAmounts(recipients))
    ensures |SubmittedAddresses(recipients)| == |SubmittedAmounts(recipients)|
    ensures CalculateTotal(recipients) >= |recipients|
  {
    ValidTotalCoversRows(recipients);
  }

  /** Each valid row counts at least 1 towards the total. */
  lemma {:induction false} ValidTotalCoversRows(recipients: seq<Recipient>)
    requires IsValidSubmission(recipients)
    ensures CalculateTotal(recipients) >= |recipients|
  {
    if |recipients| > 0 {
      var n := |recipients| - 1;
      var prefix := recipients[..n];
      assert forall i :: 0 <= i < n ==> prefix[i] == recipients[i];
      assert IsValidSubmission(prefix);
      ValidTotalCoversRows(prefix);
      assert ValidRow(recipients[n]);
    }
  }

  /** Over pieces that are all non-blank, pairing makes exactly one recipient for every
      two pieces, recipient `k` being the trimmed pieces `2k` and `2k + 1`. */
  lemma {:induction false} PairsOfNonBlank(lines: seq<string>)
    requires forall i :: 0 <= i < |lines| ==> Trim(lines[i]) != ""
    ensures |Pairs(lines)| == |lines| / 2
    ensures forall k :: 0 <= k < |lines| / 2 ==>
              Pairs(lines)[k] == Recipient(Trim(lines[2 * k]), Trim(lines[2 * k + 1]))
  {
    AllNonBlankFromIndex(lines);
    NonBlankPairsLength(lines);
    forall k | 0 <= k < |lines| / 2
      ensures Pairs(lines)[k] == Recipient(Trim(lines[2 * k]), Trim(lines[2 * k + 1]))
    {
      NonBlankPairAt(lines, k);
    }
  }

  /** No piece is blank, stated piece by piece from the front. */
  predicate AllNonBlank(lines: seq<string>) {
    |lines| == 0 || (Trim(lines[0]) != "" && AllNonBlank(lines[1..]))
  }

  lemma {:induction false} AllNonBlankFromIndex(lines: seq<string>)
    requires forall i :: 0 <= i < |lines| ==> Trim(lines[i]) != ""
    ensures AllNonBlank(lines)
  {
    if |lines| > 0 {
      var tail := lines[1..];
      assert forall i :: 0 <= i < |tail| ==> tail[i] == lines[i + 1];
      AllNonBlankFromIndex(tail);
    }
  }

  lemma {:induction false} NonBlankPairsLength(lines: seq<string>)
    requires AllNonBlank(lines)
    ensures |Pairs(lines)| == |lines| / 2
  {
    if |lines| >= 2 {
      assert lines[1..][1..] == lines[2..];
      NonBlankPairsLength(lines[2..]);
    }
  }

  lemma {:induction false} NonBlankPairAt(lines: seq<string>, k: nat)
    requires AllNonBlank(lines)
    requires k < |lines| / 2
    ensures |Pairs(lines)| > k
    ensures Pairs(lines)[k] == Recipient(Trim(lines[2 * k]), Trim(lines[2 * k + 1]))
  {
    var rest := lines[2..];
    assert lines[1..][1..] == rest;
    assert lines[1..][0] == lines[1];
    var head := Recipient(Trim(lines[0]), Trim(lines[1]));
    assert Pairs(lines) == [head] + Pairs(rest);
    if k > 0 {
      NonBlankPairAt(rest, k - 1);
      assert rest[2 * (k - 1)] == lines[2 * k] && rest[2 * (k - 1) + 1] == lines[2 * k + 1];
      assert Pairs(lines)[k] == Pairs(rest)[k - 1];
    }
  }

  /** Every pasted recipient has a non-empty address and amount, neither starting nor
      ending with whitespace, and a paste makes one recipient for every two non-blank
      pieces of the text. */
  lemma BulkPasteRows(text: string)
    ensures |BulkPaste(text)| == |NonBlank(Split(text))| / 2
    ensures forall k :: 0 <= k < |BulkPaste(text)| ==>
              && BulkPaste(text)[k].address != "" && BulkPaste(text)[k].amount != ""
              && !IsJsWhitespace(BulkPaste(text)[k].address[0])
              && !IsJsWhitespace(BulkPaste(text)[k].amount[0])
  {
    var lines := NonBlank(Split(text));
    NonBlankKeepsExactly(Split(text));
    PairsOfNonBlank(lines);
    forall k | 0 <= k < |BulkPaste(text)|
      ensures BulkPaste(text)[k] == Recipient(Trim(lines[2 * k]), Trim(lines[2 * k + 1]))
    {
    }
  }
}
