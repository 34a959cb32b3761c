# TokenFlex in Dafny

TokenFlex is a Soroban (Stellar) token contract that adds four things to the standard token
interface:

- vesting schedules (linear, cliff and stepped);
- conditional transfers (time-locked or approval-gated, executed once);
- batch transfers;
- an administrator who can freeze accounts.

It comes with a React frontend that holds the wallet session, guards every operation and
offers a batch-transfer form with bulk paste.

This project models the core of both halves, and proves what each operation promises.

The contract:
- `common.dfy` has the shared value types. A Rust panic or a failed `require_auth` is an
  explicit `Trap`/`Aborted` outcome. Rust's truncating division is `DivTrunc`.
- `storage.dfy` holds balances as a map with a default of 0. Its credit and debit
  operations come with the ghost total supply and lemmas about it.
- `vesting.dfy` models `vesting.rs`. Creation, the piecewise release curve, reading a
  schedule and claiming are functions over a `map<Address, VestingSchedule>`. The current
  ledger is a parameter.
- `conditional.dfy` models `conditional.rs`. It is a once-only state machine over a map
  keyed by the creation ledger.
- `batch.rs` is modelled in `batch.dfy` as a method with the source's two loops. The first
  sums the amounts and rejects negatives; the second credits each recipient after a single
  debit. It is proved against the functions `Sum` and `CreditAll`.
- `contract.rs` is modelled in `contract.dfy` as a class `Token`. Its fields are the
  contract's storage: administrator, metadata, balances, frozen flags, schedules and
  conditional transfers. There is one method per entry point, with the storage writes of
  a failed invocation discarded as on the ledger. The addresses that authorized the
  invocation are a parameter `signers`.

The frontend:
- `wallet_context.dfy` models `WalletContext.jsx` as a class `WalletProvider`:
  - its fields are the React state;
  - every answer of the wallet or a service is an input;
  - each service invoked is appended to a `calls` log;
  - each delayed balance re-fetch is appended to a `refetches` log.
- `js_string.dfy` models the JavaScript built-ins the page relies on, as ECMA-262 defines
  them: `substring`, `trim`, `split(/[\n,]/)` and `parseInt` without a radix.
- `batch_ops.dfy` models `BatchOps.jsx` as a class `BatchOpsPage` over the recipient rows.
  It also gives the pure parts as functions: the total, the validity check, and the bulk
  paste as split, filter and pair.
- `utils.dfy` models `truncateAddress` of `utils.js`.

## Model

| member | source | states |
|---|---|---|
| Common.DivTrunc | TokenFlex/src/vesting.rs:109 | i128 division rounds toward zero: for a non-negative dividend the quotient is the floor, for a negative one the ceiling |
| Storage.Credit | TokenFlex/src/contract.rs:73 | receiving adds the amount to one balance (missing balances read as 0) and leaves every other balance as it was |
| Storage.Debit | TokenFlex/src/contract.rs:275 | spending subtracts the amount from one balance and leaves every other balance as it was |
| Storage.TotalCredit | TokenFlex/src/contract.rs:73 | a credit raises the total supply by exactly the amount |
| Storage.TotalDebit | TokenFlex/src/contract.rs:275 | a debit lowers the total supply by exactly the amount |
| Storage.IsAccountFrozen | TokenFlex/src/contract.rs:30-33 | an account is frozen exactly when its `Frozen` entry is present and true; an account never frozen reads as not frozen |
| Vesting.CreateVestingSchedule | TokenFlex/src/vesting.rs:34-81 | InvalidVestingParameters exactly when total <= 0 or duration is 0; then VestingScheduleAlreadyExists exactly when the beneficiary has a schedule; otherwise the store gains exactly one schedule with the given parameters and claimed 0, the others unchanged; never panics |
| Vesting.VestedAt | TokenFlex/src/vesting.rs:93-137 | 0 before the start, the total from start + duration on; inside the window a stepped schedule gives InvalidVestingParameters exactly when it has 0 steps, and with steps the division-by-zero panic exactly when duration / steps is 0; no other error or panic occurs |
| Vesting.StepShare | TokenFlex/src/vesting.rs:130-135 | once the completed steps reach the step count the whole total is released; for a non-negative total the staircase value stays within [0, total] |
| Vesting.CalculateVestedAmount | TokenFlex/src/vesting.rs:84-138 | VestingScheduleDoesNotExist exactly when there is no schedule; otherwise the schedule's released amount |
| Vesting.GetVestingSchedule | TokenFlex/src/vesting.rs:175-183 | the stored schedule, or VestingScheduleDoesNotExist exactly when there is none |
| Vesting.ClaimVestedTokens | TokenFlex/src/vesting.rs:141-172 | traps unless the beneficiary signed; no schedule gives VestingScheduleDoesNotExist; on success only the beneficiary's claimed amount changes, raised by the amount paid |
| Vesting.ScaledShareBounds | TokenFlex/src/vesting.rs:109 | floor(total * k / n) lies in [0, total] for 0 <= k <= n, and below total when k < n |
| Vesting.ScaledShareMonotone | TokenFlex/src/vesting.rs:109 | floor(total * k / n) does not decrease in k |
| Vesting.VestedBounds | TokenFlex/src/vesting.rs:105-136 | every released amount lies in [0, total]; a linear schedule strictly before its end has released less than the total |
| Vesting.LinearIsFloor | TokenFlex/src/vesting.rs:107-111 | inside the window, linear release v is floor(total * elapsed / duration): v * duration <= total * elapsed < (v + 1) * duration |
| Vesting.CliffAllOrNothing | TokenFlex/src/vesting.rs:113-119 | from the start on, cliff release is the whole total once the cliff or the end is reached, and 0 before |
| Vesting.SteppedIsStaircase | TokenFlex/src/vesting.rs:121-136 | stepped release is the total once the completed steps reach the step count, otherwise floor(total * completed / steps) |
| Vesting.VestedMonotone | TokenFlex/src/vesting.rs:88-136 | released amounts never decrease as the ledger advances, for all three kinds |
| Vesting.StepShareMonotone | TokenFlex/src/vesting.rs:130-135 | the staircase does not go down as steps complete |
| Vesting.CreateKeepsValid | TokenFlex/src/vesting.rs:57-69 | creation keeps every stored schedule well formed (positive total and duration, claimed within [0, total]) and keyed by its beneficiary |
| Vesting.ClaimPaysVestedMinusClaimed | TokenFlex/src/vesting.rs:154-163 | a successful claim pays vested minus claimed, which is positive, and leaves the claimed amount equal to the vested amount |
| Vesting.ClaimNothingVested | TokenFlex/src/vesting.rs:154-159 | when nothing beyond the claimed amount is vested, the claim fails with InsufficientVestedTokens |
| Vesting.ClaimKeepsValid | TokenFlex/src/vesting.rs:141-172 | claiming keeps the store valid and never pays beyond total minus claimed |
| Vesting.ClaimOnceAtLedger | TokenFlex/src/vesting.rs:154-163 | right after a successful claim, a claim at the same or an earlier ledger fails |
| Vesting.ClaimsAddUp | TokenFlex/src/vesting.rs:154-163 | two successive claims pay together the amount vested at the second ledger minus what was claimed before the first |
| Conditional.CreateConditionalTransfer | TokenFlex/src/conditional.rs:32-71 | InvalidTransferAmount exactly for a non-positive amount, then a trap exactly when `from` has not signed; otherwise the record (not executed) is stored under the current ledger, overwriting, with every other record unchanged |
| Conditional.CheckCondition | TokenFlex/src/conditional.rs:99-117 | a time lock holds from its release ledger on; an approval holds only with that approver as the approver argument, who must sign |
| Conditional.ExecuteConditionalTransfer | TokenFlex/src/conditional.rs:74-134 | an unknown id gives InvalidCondition; on success only that record changes, its executed flag becoming true |
| Conditional.ExecuteCheckOrder | TokenFlex/src/conditional.rs:82-117 | the checks run in the order existence, already executed, expiry, condition: each error occurs exactly when the earlier checks pass and its own fails |
| Conditional.ExecuteAtMostOnce | TokenFlex/src/conditional.rs:89-91 | after a successful execution, every further execution of that id fails with TransferAlreadyExecuted |
| Conditional.Expired | TokenFlex/src/conditional.rs:94-97 | an expiration of 0 never expires; otherwise a transfer expires exactly after its expiration ledger |
| Conditional.ApprovalNeedsTheApprover | TokenFlex/src/conditional.rs:106-116 | a pending approval transfer fails with ConditionNotMet exactly when the approver argument is not its approver |
| Conditional.TimeLockHolds | TokenFlex/src/conditional.rs:101-105 | a pending time-locked transfer fails with ConditionNotMet exactly before its release ledger and succeeds from it on |
| Conditional.SameLedgerCreateOverwrites | TokenFlex/src/conditional.rs:48-62 | a second creation in the same ledger replaces the first record under the same id |
| Conditional.TransitionsKeepValid | TokenFlex/src/conditional.rs:41-62 | creation and execution keep every stored amount positive |
| Batch.BatchTransfer | TokenFlex/src/batch.rs:19-80 | errors in order (empty recipients, empty amounts, length mismatch, frozen sender, unauthorized, negative amount, insufficient balance), each exactly when the earlier checks pass; success exactly otherwise, with the sender debited the sum once and each recipient credited in order |
| Batch.CreditAllBalance | TokenFlex/src/batch.rs:67-77 | every address ends with its balance plus all amounts paired with it, so repeated recipients accumulate |
| Batch.ReceivedByAbsent | TokenFlex/src/batch.rs:67-77 | an address not among the recipients receives nothing |
| Batch.ReceivedBySingle | TokenFlex/src/batch.rs:67-77 | a recipient listed once receives exactly its paired amount |
| Batch.CreditAllTotal | TokenFlex/src/batch.rs:67-77 | the credits add exactly the sum of the amounts to the supply |
| Batch.Sum | TokenFlex/src/batch.rs:52-58 | the total the first loop accumulates; when no amount is negative it is non-negative |
| Batch.NoNegative | TokenFlex/src/batch.rs:53-56 | the negative check of the first loop passes exactly when every listed amount is at least 0 |
| Batch.WellShaped | TokenFlex/src/batch.rs:26-36 | the three list checks pass exactly when the recipients are non-empty and as many as the amounts (the empty-amounts check is then implied) |
| Batch.CreditAll | TokenFlex/src/batch.rs:69-77 | the second loop credits the recipients in order; an address not listed keeps its balance |
| Batch.ReceivedBy | TokenFlex/src/batch.rs:69-77 | what one address receives from the batch; with no negative amount it lies between 0 and the sum debited from the sender |
| Batch.BatchEffect | TokenFlex/src/batch.rs:60-77 | a successful batch preserves the total supply, moves exactly what is paired with each address, and leaves bystanders unchanged |
| Contract.CheckNonnegativeAmount | TokenFlex/src/contract.rs:23-27 | panics with NegativeAmount exactly for a negative amount |
| Contract.Token.constructor | TokenFlex/src/contract.rs:40-41 | a fresh contract has no administrator, no metadata and empty storage |
| Contract.Token.AdminCheck | TokenFlex/src/contract.rs:66-67 | passes exactly when an administrator is stored and signed; without one it panics as not initialized |
| Contract.Token.BalanceOf | TokenFlex/src/contract.rs:253-258 | an address never credited has balance 0 |
| Contract.Token.IsFrozen | TokenFlex/src/contract.rs:30-33 | an account never frozen reads as not frozen |
| Contract.Token.Initialize | TokenFlex/src/contract.rs:45-62 | AlreadyInitialized when an administrator exists, then DecimalTooLarge above 255; succeeds exactly otherwise, storing administrator and metadata; a failure stores nothing |
| Contract.Token.Mint | TokenFlex/src/contract.rs:64-75 | a negative amount panics first, then the administrator check; success credits only `to` and raises the supply by the amount |
| Contract.Token.SetAdmin | TokenFlex/src/contract.rs:77-87 | the administrator check decides; success stores the new administrator |
| Contract.Token.FreezeAccount | TokenFlex/src/contract.rs:90-106 | administrator only; success makes the account frozen and leaves every other flag as it was |
| Contract.Token.UnfreezeAccount | TokenFlex/src/contract.rs:109-125 | administrator only; success makes the account not frozen and leaves every other flag as it was |
| Contract.Token.CreateVesting | TokenFlex/src/contract.rs:128-160 | administrator only (a trap otherwise); on success the schedule is created and the contract's own address credited with the total; on failure nothing is kept |
| Contract.Token.ClaimVesting | TokenFlex/src/contract.rs:162-176 | the vesting claim decides; a contract balance below the claimable amount traps; success moves exactly the claimable amount from the contract's address to the beneficiary and preserves the supply |
| Contract.Token.GetVestingInfo | TokenFlex/src/contract.rs:178-180 | the stored schedule, well formed and keyed by its beneficiary, or VestingScheduleDoesNotExist |
| Contract.Token.GetVestedAmount | TokenFlex/src/contract.rs:182-184 | VestingScheduleDoesNotExist exactly without a schedule; otherwise the schedule's released amount |
| Contract.Token.BatchTransfer | TokenFlex/src/contract.rs:187-198 | the batch errors in source order (empty recipients, empty amounts, length mismatch, frozen sender, missing signature, negative amount, insufficient balance), each exactly when the earlier checks pass and its own fails; success exactly when every check passes, with the balances batch.rs computes and the supply preserved; a failed batch changes no balance |
| Contract.Token.CreateConditional | TokenFlex/src/contract.rs:201-214 | the conditional store becomes what creation computes; a failure stores nothing |
| Contract.Token.ExecuteConditional | TokenFlex/src/contract.rs:216-226 | success marks only that transfer executed; no balance moves |
| Contract.Token.Transfer | TokenFlex/src/contract.rs:260-278 | in order: `from` must sign, the amount must be non-negative, `from` must not be frozen, the balance must cover the amount; success debits `from` and credits `to` by the amount and preserves the supply; the recipient's flag is never read |
| Contract.Token.Burn | TokenFlex/src/contract.rs:301-318 | the same checks as transfer; success debits `from` only and lowers the supply by the amount |
| Contract.FrozenSenderScenario | TokenFlex/src/contract.rs:269-272 | once frozen, a sender can neither transfer nor burn, while a frozen account can still be minted to |
| WalletContext.SessionGuard | tokenflex-frontend/src/contexts/WalletContext.jsx:149-151 | passes exactly when connected with a non-empty public key; otherwise `Wallet not connected` |
| WalletContext.AdminGuard | tokenflex-frontend/src/contexts/WalletContext.jsx:201-203 | passes exactly when connected with a public key and administrator rights; otherwise `Not authorized`; it refuses whatever the session guard refuses |
| WalletContext.OutcomeResponse | tokenflex-frontend/src/contexts/WalletContext.jsx:156-170 | success exactly when the service reports success; an error message exactly when it threw |
| WalletContext.WalletProvider.constructor | tokenflex-frontend/src/contexts/WalletContext.jsx:32-40 | the initial state: disconnected, no key, balance 0, name TokenFlex, symbol TFX, not loading, no error, not administrator |
| WalletContext.WalletProvider.DisconnectWallet | tokenflex-frontend/src/contexts/WalletContext.jsx:140-145 | ends the session (no key, balance 0, not administrator) and keeps name and symbol; afterwards both guards refuse |
| WalletContext.WalletProvider.FetchTokenInfo | tokenflex-frontend/src/contexts/WalletContext.jsx:92-114 | nothing without an address; otherwise balance, name and symbol are read in that order, a falsy balance shows 0, name and symbol are overwritten only by truthy answers, the first failure sets the error and stops |
| WalletContext.WalletProvider.CheckConnection | tokenflex-frontend/src/contexts/WalletContext.jsx:43-89 | records the connected answer; stops before reading the key when the site is not allowed or the network passphrase differs; the administrator flag follows the key read |
| WalletContext.WalletProvider.RunService | tokenflex-frontend/src/contexts/WalletContext.jsx:153-170 | the service is invoked once, loading ends cleared, and the result object mirrors the outcome |
| WalletContext.WalletProvider.Transfer | tokenflex-frontend/src/contexts/WalletContext.jsx:148-171 | without a session, `Wallet not connected` and no service call; otherwise one transfer call and a re-fetch of the own balance on success |
| WalletContext.WalletProvider.BatchTransferTokens | tokenflex-frontend/src/contexts/WalletContext.jsx:174-197 | the same guard and effect for the batch call, whose amounts are the numbers the batch page parsed |
| WalletContext.WalletProvider.Mint | tokenflex-frontend/src/contexts/WalletContext.jsx:200-225 | without administrator rights, `Not authorized` and no call; the balance is re-fetched only when minting to the connected address |
| WalletContext.WalletProvider.Burn | tokenflex-frontend/src/contexts/WalletContext.jsx:228-250 | the session guard, then one burn call and a re-fetch on success |
| WalletContext.WalletProvider.Freeze | tokenflex-frontend/src/contexts/WalletContext.jsx:253-270 | the administrator guard, then one freeze call; never a re-fetch |
| WalletContext.WalletProvider.Unfreeze | tokenflex-frontend/src/contexts/WalletContext.jsx:273-290 | the administrator guard, then one unfreeze call; never a re-fetch |
| WalletContext.WalletProvider.CreateConditional | tokenflex-frontend/src/contexts/WalletContext.jsx:293-321 | the session guard, then one creation call |
| WalletContext.WalletProvider.ExecuteConditional | tokenflex-frontend/src/contexts/WalletContext.jsx:324-350 | the session guard, then one execution call and a re-fetch on success |
| WalletContext.WalletProvider.CreateVesting | tokenflex-frontend/src/contexts/WalletContext.jsx:353-387 | the administrator guard, then one creation call; never a re-fetch |
| WalletContext.WalletProvider.ClaimVested | tokenflex-frontend/src/contexts/WalletContext.jsx:390-412 | the session guard, then one claim call and a re-fetch on success |
| WalletContext.WalletProvider.GetVesting | tokenflex-frontend/src/contexts/WalletContext.jsx:415-426 | null without a session and no query; otherwise the answer, or null when the query throws |
| WalletContext.WalletProvider.RefreshData | tokenflex-frontend/src/contexts/WalletContext.jsx:434-438 | nothing without a session; otherwise the token information of the own key is fetched: the balance, name and symbol reads in order, a thrown balance read stops before the name, a thrown name read stops before the symbol, a falsy balance shows 0, falsy name and symbol are ignored, a thrown read sets the error, and loading ends |
| WalletContext.RefusedAfterDisconnect | tokenflex-frontend/src/contexts/WalletContext.jsx:140-151 | after disconnecting, none of the twelve operations (transfer, batch, mint, burn, freeze, unfreeze, conditional create and execute, vesting create, claim and query, refresh) reaches a service or schedules a refresh: the body checks that each is refused with its guard's message and that the query answers null |
| JsString.Clamp | tokenflex-frontend/src/utils.js:16 | `substring` clamps each index into [0, length] |
| JsString.Substring | tokenflex-frontend/src/utils.js:16 | the result is no longer than the string |
| JsString.TrimStart | tokenflex-frontend/src/pages/BatchOps.jsx:104 | a suffix of the string that does not start with whitespace |
| JsString.TrimStartDropsWhitespace | tokenflex-frontend/src/pages/BatchOps.jsx:104 | what is dropped at the start is whitespace |
| JsString.TrimEnd | tokenflex-frontend/src/pages/BatchOps.jsx:104 | a prefix of the string that does not end with whitespace |
| JsString.TrimEndDropsWhitespace | tokenflex-frontend/src/pages/BatchOps.jsx:104 | what is dropped at the end is whitespace |
| JsString.Trim | tokenflex-frontend/src/pages/BatchOps.jsx:111-112 | no longer than the string, and neither end is whitespace |
| JsString.TrimBothEnds | tokenflex-frontend/src/pages/BatchOps.jsx:111-112 | trimming is TrimEnd after TrimStart, so the result is the piece between the leading and the trailing whitespace |
| JsString.TrimEmptyIffBlank | tokenflex-frontend/src/pages/BatchOps.jsx:104 | the trimmed string is empty exactly when every character is whitespace |
| JsString.Split | tokenflex-frontend/src/pages/BatchOps.jsx:104 | splitting always yields at least one piece |
| JsString.SplitPiecesHaveNoSeparator | tokenflex-frontend/src/pages/BatchOps.jsx:104 | no piece contains a newline or a comma |
| JsString.SplitNoSeparator | tokenflex-frontend/src/pages/BatchOps.jsx:104 | a string without separators is its only piece |
| JsString.SplitAtSeparator | tokenflex-frontend/src/pages/BatchOps.jsx:104 | splitting `a + sep + b` is the pieces of `a` followed by the pieces of `b` |
| JsString.NonBlank | tokenflex-frontend/src/pages/BatchOps.jsx:104 | the filter keeps at most the given pieces |
| JsString.NonBlankKeepsExactly | tokenflex-frontend/src/pages/BatchOps.jsx:104 | membership: every kept piece is a piece of the input whose trim is non-empty, and every such piece is kept |
| JsString.NonBlankSingle | tokenflex-frontend/src/pages/BatchOps.jsx:104 | one piece is kept exactly when its trim is non-empty |
| JsString.NonBlankConcat | tokenflex-frontend/src/pages/BatchOps.jsx:104 | the filter of a concatenation is the concatenation of the filters, so the kept pieces keep their order and multiplicity |
| JsString.DigitValue | tokenflex-frontend/src/pages/BatchOps.jsx:53 | decimal digits have their face value; no character is worth more than 36 |
| JsString.DigitPrefix | tokenflex-frontend/src/pages/BatchOps.jsx:53 | the digits `parseInt` consumes are a prefix of the string |
| JsString.DigitPrefixIsLongest | tokenflex-frontend/src/pages/BatchOps.jsx:53 | the prefix holds only digits of the radix and stops at the first character that is not one |
| JsString.DigitsValue | tokenflex-frontend/src/pages/BatchOps.jsx:53 | the value of a digit string read most significant digit first; n digits of the radix denote a number below radix^n |
| JsString.ParseUnsigned | tokenflex-frontend/src/pages/BatchOps.jsx:53 | the number after the sign, hexadecimal after 0x; a number is read only when the text starts with a decimal digit |
| JsString.ParseInt | tokenflex-frontend/src/pages/BatchOps.jsx:53 | `parseInt(s)` without a radix; text with no decimal digit anywhere is NaN |
| JsString.ParseIntTrimsStart | tokenflex-frontend/src/pages/BatchOps.jsx:53 | `parseInt` ignores leading whitespace |
| JsString.ParseIntSkipsPadding | tokenflex-frontend/src/pages/BatchOps.jsx:53 | any whitespace padding in front leaves the parse unchanged |
| JsString.DecimalString | tokenflex-frontend/src/pages/BatchOps.jsx:68 | the decimal numeral of n: at least one digit, only digits, no leading zero |
| JsString.DecimalStringValue | tokenflex-frontend/src/pages/BatchOps.jsx:68 | the digits of the numeral of n are worth n |
| JsString.ParseUnsignedDecimal | tokenflex-frontend/src/pages/BatchOps.jsx:68 | an unsigned numeral parses back to its value |
| JsString.ParseIntNumeral | tokenflex-frontend/src/pages/BatchOps.jsx:68 | `parseInt` of the numeral of n is n |
| JsString.ParseIntSignedNumeral | tokenflex-frontend/src/pages/BatchOps.jsx:68 | a signed numeral parses to n or -n |
| JsString.ParseIntDecimal | tokenflex-frontend/src/pages/BatchOps.jsx:68 | padding, an optional sign and a numeral parse back to the signed value, for every n |
| BatchOps.SubmittedAddresses | tokenflex-frontend/src/pages/BatchOps.jsx:67 | the submitted addresses are the rows' addresses, in order |
| BatchOps.SubmittedAmounts | tokenflex-frontend/src/pages/BatchOps.jsx:68 | each submitted amount is the row's parsed amount, and it is positive |
| BatchOps.SpliceOne | tokenflex-frontend/src/pages/BatchOps.jsx:37-38 | `splice(index, 1)` removes exactly the row at a valid index and nothing past the end |
| BatchOps.CalculateTotal | tokenflex-frontend/src/pages/BatchOps.jsx:95-97 | the displayed total adds each row's parsed amount, with NaN counted as 0; rows that are all NaN show 0, and amounts that are never negative give a non-negative total |
| BatchOps.ValidRow | tokenflex-frontend/src/pages/BatchOps.jsx:53 | an accepted row has an address and an amount the total counts as positive; an empty amount is never accepted |
| BatchOps.IsValidSubmission | tokenflex-frontend/src/pages/BatchOps.jsx:53 | `every` over the rows: an empty list passes, and a passing list has a positive counted amount in every row |
| BatchOps.PairsStep | tokenflex-frontend/src/pages/BatchOps.jsx:109-118 | one turn of the pairing loop: the pair at `i`, if both halves are present and non-empty, then the pairs from `i + 2` |
| BatchOps.Pairs | tokenflex-frontend/src/pages/BatchOps.jsx:107-118 | at most one recipient per two pieces (exactly one per two when no piece is blank, see PairsOfNonBlank) |
| BatchOps.BulkPaste | tokenflex-frontend/src/pages/BatchOps.jsx:104-118 | a paste yields at most one row per two non-blank pieces (exactly one, with both fields filled and trimmed, by BulkPasteRows) |
| BatchOps.PairLines | tokenflex-frontend/src/pages/BatchOps.jsx:107-118 | the loop builds exactly the pairs of consecutive pieces |
| BatchOps.BatchOpsPage.constructor | tokenflex-frontend/src/pages/BatchOps.jsx:23-28 | the form starts with one empty row and no status |
| BatchOps.BatchOpsPage.HandleAddRecipient | tokenflex-frontend/src/pages/BatchOps.jsx:30-32 | appends one empty row, keeps the others, and leaves the total unchanged |
| BatchOps.BatchOpsPage.HandleRemoveRecipient | tokenflex-frontend/src/pages/BatchOps.jsx:34-40 | nothing with one row left; otherwise removes exactly the row at the index and keeps the order of the others |
| BatchOps.BatchOpsPage.HandleRecipientChange | tokenflex-frontend/src/pages/BatchOps.jsx:42-49 | only the named field of the named row changes |
| BatchOps.BatchOpsPage.HandleBulkPaste | tokenflex-frontend/src/pages/BatchOps.jsx:100-123 | the rows become the pasted recipients, or stay as they were when the paste yields none |
| BatchOps.BatchOpsPage.HandleBatchTransfer | tokenflex-frontend/src/pages/BatchOps.jsx:51-92 | an invalid form only sets the failure status; a valid one submits the addresses and parsed amounts, reports the outcome, and resets to one empty row on success |
| BatchOps.StatusOf | tokenflex-frontend/src/pages/BatchOps.jsx:73-78 | the status is a success exactly when the wallet replied with success |
| BatchOps.EmptyAmountIsNaN | tokenflex-frontend/src/pages/BatchOps.jsx:96 | the empty amount of a new row parses to NaN |
| BatchOps.AddKeepsTotal | tokenflex-frontend/src/pages/BatchOps.jsx:30-32 | an added empty row contributes nothing to the total |
| BatchOps.TotalIsSubmittedSum | tokenflex-frontend/src/pages/BatchOps.jsx:95-97 | for a valid form the total shown is the sum batch.rs debits from the sender |
| BatchOps.ValidSubmissionPassesBatchChecks | tokenflex-frontend/src/pages/BatchOps.jsx:53 | a valid form submits lists of equal length whose amounts pass batch.rs's non-negative check, totalling at least one per row |
| BatchOps.PairsOfNonBlank | tokenflex-frontend/src/pages/BatchOps.jsx:109-118 | over non-blank pieces, recipient k is the trimmed pieces 2k and 2k + 1, an odd last piece being dropped |
| BatchOps.BulkPasteRows | tokenflex-frontend/src/pages/BatchOps.jsx:100-123 | a paste makes one recipient for every two non-blank pieces, each with a non-empty address and amount that do not start with whitespace |
| Utils.TruncateAddress | tokenflex-frontend/src/utils.js:14-17 | the result is empty exactly for a missing or empty address |
| Utils.TruncateAddressShape | tokenflex-frontend/src/utils.js:16 | the first min(4, n) characters, the ellipsis, the last min(4, n) characters, for a length of 2 * min(4, n) + 3 |
| Utils.ShortAddressRepeats | tokenflex-frontend/src/utils.js:16 | an address shorter than four characters appears whole on both sides of the ellipsis |
| Utils.LongAddressKeepsEnds | tokenflex-frontend/src/utils.js:16 | an address of eight or more characters shows its first four and last four around the ellipsis, 11 characters in all |

## Left out

- The contract modules `balance`, `allowance`, `admin`, `metadata` and `storage_types` are
  not part of this model. Balances are a map with a default of 0, as `read_balance` is
  used. The administrator and metadata are fields.
- `transfer_from`, `burn_from`, `approve` and `allowance` (allowance logic) are left out.
  So are the trivial reads `decimals`, `name` and `symbol`.
- `schedule_recurring_payment` is left out: it is an empty stub.
- Events are not modelled; they have no effect on storage.
- `extend_ttl` is not modelled: the lifetime of storage entries is a host concern.
- i128 and u32 overflow is not modelled: amounts and ledgers are unbounded integers. In
  particular, `total_amount * elapsed` and `start_ledger + duration_ledgers` never wrap.
- `require_auth` is modelled as membership of the party in the set of signers. The host's
  signature and nonce checks are outside the model.
- WalletContext.WalletProvider.CreateVesting takes `steps` and `cliffLedger` as given: the
  JavaScript default of 0 for an omitted argument is a call-site convenience.
- The Freighter extension API, the network and every service of `services/soroban.js` are
  inputs: answers are parameters of the methods that await them.
- `connectWallet`'s test mode is not modelled. It is a `setTimeout` that fakes a session.
- The timers of the delayed balance re-fetch appear only as entries of the `refetches` log;
  when they fire is not modelled.
- Interleaving of concurrent async operations and React's batched state updates are not
  modelled; each operation runs to completion.
- JavaScript strings are UTF-16 code units; here a string is a sequence of characters.
  Surrogate pairs therefore count as one character in `substring` and `trim`.
- `parseInt` returns a double: very large numerals lose precision in JavaScript, while here
  they parse exactly.
- `formatTokenAmount` and `formatDate` are not modelled: they rely on floating point and
  locale formatting.
- The pages, hooks and components (Dashboard, Vesting, Admin, Header, Layout, Background3D,
  useToken, useWallet, useVesting) are markup, animation or mock plumbing.
- BatchOps.BatchOpsPage.HandleRecipientChange requires an index inside the list. JavaScript
  would create a sparse array for an index past the end; the form only passes indices of
  rendered rows.
