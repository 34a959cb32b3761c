/** The frontend's wallet session (WalletContext.jsx). `WalletProvider` is the React
    provider's state; each exported operation is a method that changes that state the way the
    state setters do. What the services and the Freighter wallet answer is a parameter
    (`Outcome`, `Answer`); the services invoked are logged in `calls`, and each
    `setTimeout(() => fetchTokenInfo(key), 2000)` is logged in `refetches` as the address it
    will re-fetch. Setter batching, rendering and the interleaving of awaits are not part of
    this model: each method runs its statements in program order. */
module WalletContext {
  import opened Common

  /** What a service call of an operation ends in: a result object whose `success` field
      is read, or a thrown error with its message. */
  datatype Outcome = Settled(success: bool) | Threw(message: string)

  /** What an awaited query answers: a value, or a thrown error. */
  datatype Answer<T> = Answer(value: T) | Failed

  /** The object an operation returns: `{ success }` or `{ success: false, error }`. */
  datatype Response = Response(success: bool, error: Option<string>)

  datatype NetworkDetails = NetworkDetails(networkPassphrase: string, networkName: string)

  /** The service calls of services/soroban.js, with the arguments the provider passes.
      Form values reach the services as the strings the pages hold, except the batch
      amounts, which the batch page parses into numbers before handing them over. */
  datatype ServiceCall =
    | GetBalance(address: string)
    | GetTokenName
    | GetTokenSymbol
    | TransferTokens(from: string, to: string, amount: string)
    | BatchTransfer(from: string, recipients: seq<string>, amounts: seq<int>)
    | MintTokens(admin: string, to: string, amount: string)
    | BurnTokens(from: string, amount: string)
    | FreezeAccount(admin: string, account: string)
    | UnfreezeAccount(admin: string, account: string)
    | CreateConditionalTransfer(from: string, to: string, amount: string, conditionType: string,
                                expirationLedger: string)
    | ExecuteConditionalTransfer(caller: string, transferId: string, approver: string)
    | CreateVestingSchedule(admin: string, beneficiary: string, totalAmount: string, startLedger: string,
                            durationLedgers: string, vestingType: string, steps: string, cliffLedger: string)
    | ClaimVestedTokens(beneficiary: string)
    | GetVestingInfo(beneficiary: string)

  const NotConnectedResponse := Response(false, Some("Wallet not connected"))
  const NotAuthorizedResponse := Response(false, Some("Not authorized"))
  const TokenInfoError := "Failed to load token information"
  const ConnectionCheckError := "Wallet connection check failed"
  const SwitchNetworkError := "Please switch network to Stellar Testnet in Freighter wallet. Current: "

  /** JavaScript truthiness of a string value that may be null. */
  predicate Truthy(s: Option<string>) {
    s.Some? && s.value != ""
  }

  /** The guard `!connected || !publicKey`: the error an operation open to any connected
      user returns before calling a service, if any. */
  function SessionGuard(connected: bool, publicKey: Option<string>): (r: Option<Response>)
    ensures r.None? <==> connected && Truthy(publicKey)
    ensures r.Some? ==> r.value == NotConnectedResponse && !r.value.success
  {
    if !connected || !Truthy(publicKey) then Some(NotConnectedResponse) else None
  }

  /** The guard `!connected || !publicKey || !isAdmin` of the administrator operations. */
  function AdminGuard(connected: bool, publicKey: Option<string>, isAdmin: bool): (r: Option<Response>)
    ensures r.None? <==> connected && Truthy(publicKey) && isAdmin
    ensures r.Some? ==> r.value == NotAuthorizedResponse && !r.value.success
    ensures SessionGuard(connected, publicKey).Some? ==> r.Some?
  {
    if !connected || !Truthy(publicKey) || !isAdmin then Some(NotAuthorizedResponse) else None
  }

  /** The object an operation returns once its service call has ended. */
  function OutcomeResponse(outcome: Outcome): (r: Response)
    ensures r.success <==> outcome == Settled(true)
    ensures r.error.Some? <==> outcome.Threw?
    ensures outcome.Threw? ==> r.error == Some(outcome.message)
  {
    match outcome
    case Settled(success) => Response(success, None)
    case Threw(message) => Response(false, Some(message))
  }

  class WalletProvider {
    /** NETWORK_PASSPHRASE of the configuration. */
    const networkPassphrase: string

    var connected: bool
    var publicKey: Option<string>
    /** The displayed balance, as the text the balance query returned; "0" for the 0 the
        provider stores itself. */
    var balance: string
    var tokenName: string
    var tokenSymbol: string
    var loading: bool
    var error: Option<string>
    var isAdmin: bool
    var networkName: Option<string>

    var calls: seq<ServiceCall>
    var refetches: seq<string>

    /** The initial `useState` values. */
    constructor (networkPassphrase: string)
      ensures this.networkPassphrase == networkPassphrase
      ensures !connected && publicKey == None && balance == "0"
      ensures tokenName == "TokenFlex" && tokenSymbol == "TFX"
      ensures !loading && error == None && !isAdmin && networkName == None
      ensures calls == [] && refetches == []
    {
      this.networkPassphrase := networkPassphrase;
      connected := false;
      publicKey := None;
      balance := "0";
      tokenName := "TokenFlex";
      tokenSymbol := "TFX";
      loading := false;
      error := None;
      isAdmin := false;
      networkName := None;
      calls := [];
      refetches := [];
    }

    /** disconnectWallet: ends the session; token name and symbol stay as they are. */
    method DisconnectWallet()
      modifies this`connected, this`publicKey, this`balance, this`isAdmin
      ensures !connected && publicKey == None && balance == "0" && !isAdmin
      ensures SessionGuard(connected, publicKey) == Some(NotConnectedResponse)
      ensures AdminGuard(connected, publicKey, isAdmin) == Some(NotAuthorizedResponse)
    {
      connected := false;
      publicKey := None;
      balance := "0";
      isAdmin := false;
    }

    /** fetchTokenInfo: with an address, read the balance, then the name, then the symbol;
        a falsy balance is stored as 0, a falsy name or symbol is ignored, and a thrown error
        stops the remaining reads and sets the error message. Replies of `None` stand for
        the falsy values the services may answer. */
    method FetchTokenInfo(address: Option<string>, balanceReply: Answer<Option<string>>,
                          nameReply: Answer<Option<string>>, symbolReply: Answer<Option<string>>)
      modifies this`balance, this`tokenName, this`tokenSymbol, this`loading, this`error, this`calls
      ensures !Truthy(address) ==>
                && balance == old(balance) && tokenName == old(tokenName) && tokenSymbol == old(tokenSymbol)
                && loading == old(loading) && error == old(error) && calls == old(calls)
      ensures Truthy(address) ==> !loading
      ensures Truthy(address) && balanceReply.Failed? ==>
                && calls == old(calls) + [GetBalance(address.value)]
                && balance == old(balance) && tokenName == old(tokenName) && tokenSymbol == old(tokenSymbol)
                && error == Some(TokenInfoError)
      ensures Truthy(address) && balanceReply.Answer? ==>
                balance == (if Truthy(balanceReply.value) then balanceReply.value.value else "0")
      ensures Truthy(address) && balanceReply.Answer? && nameReply.Failed? ==>
                && calls == old(calls) + [GetBalance(address.value), GetTokenName]
                && tokenName == old(tokenName) && tokenSymbol == old(tokenSymbol)
                && error == Some(TokenInfoError)
      ensures Truthy(address) && balanceReply.Answer? && nameReply.Answer? ==>
                && calls == old(calls) + [GetBalance(address.value), GetTokenName, GetTokenSymbol]
                && tokenName == (if Truthy(nameReply.value) then nameReply.value.value else old(tokenName))
                && tokenSymbol == (if symbolReply.Answer? && Truthy(symbolReply.value)
                                   then symbolReply.value.value else old(tokenSymbol))
                && error == (if symbolReply.Failed? then Some(TokenInfoError) else old(error))
    {
      if !Truthy(address) {
        return;
      }
      loading := true;
      calls := calls + [GetBalance(address.value)];
      match balanceReply {
        case Failed =>
          error := Some(TokenInfoError);
        case Answer(b) =>
          balance := if Truthy(b) then b.value else "0";
          calls := calls + [GetTokenName];
          match nameReply
          case Failed =>
            error := Some(TokenInfoError);
          case Answer(n) =>
            if Truthy(n) {
              tokenName := n.value;
            }
            calls := calls + [GetTokenSymbol];
            match symbolReply
            case Failed =>
              error := Some(TokenInfoError);
            case Answer(s) =>
              if Truthy(s) {
                tokenSymbol := s.value;
              }
      }
      loading := false;
    }

    /** checkConnection: record whether the wallet is connected; continue only when the
        site is allowed and the wallet is on the configured network, then take the key,
        load the token information and grant the administrator flag. Any thrown answer sets
        the connection-check error and stops. */
    method CheckConnection(
      isConnectedReply: Answer<bool>, isAllowedReply: Answer<bool>, networkReply: Answer<NetworkDetails>,
      keyReply: Answer<string>, userInfoReply: Answer<()>,
      balanceReply: Answer<Option<string>>, nameReply: Answer<Option<string>>, symbolReply: Answer<Option<string>>)
      modifies this`connected, this`publicKey, this`networkName, this`isAdmin,
               this`balance, this`tokenName, this`tokenSymbol, this`loading, this`error, this`calls
      ensures isConnectedReply.Failed? ==>
                connected == old(connected) && publicKey == old(publicKey) && error == Some(ConnectionCheckError)
      ensures isConnectedReply.Answer? ==> connected == isConnectedReply.value
      ensures isConnectedReply == Answer(false) ==> publicKey == old(publicKey) && error == old(error)
      ensures isConnectedReply == Answer(true) && isAllowedReply == Answer(false) ==>
                publicKey == old(publicKey) && networkName == old(networkName) && error == old(error)
                && isAdmin == old(isAdmin) && calls == old(calls)
      ensures isConnectedReply == Answer(true) && isAllowedReply == Answer(true) && networkReply.Answer?
              && networkReply.value.networkPassphrase != networkPassphrase ==>
                && publicKey == old(publicKey) && networkName == old(networkName)
                && isAdmin == old(isAdmin) && calls == old(calls)
                && error == Some(SwitchNetworkError + networkReply.value.networkName)
      ensures publicKey != old(publicKey) ==>
                && isConnectedReply == Answer(true) && isAllowedReply == Answer(true) && networkReply.Answer?
                && networkReply.value.networkPassphrase == networkPassphrase
                && keyReply.Answer? && publicKey == Some(keyReply.value)
      ensures isConnectedReply == Answer(true) && isAllowedReply == Answer(true) && networkReply.Answer?
              && networkReply.value.networkPassphrase == networkPassphrase && keyReply.Answer?
              && userInfoReply.Answer? ==>
                && connected && publicKey == Some(keyReply.value) && isAdmin
                && networkName == Some(networkReply.value.networkName)
    {
      match isConnectedReply
      case Failed =>
        error := Some(ConnectionCheckError);
      case Answer(isConnected) =>
        connected := isConnected;
        if !isConnected {
          return;
        }
        match isAllowedReply
        case Failed =>
          error := Some(ConnectionCheckError);
        case Answer(allowed) =>
          if !allowed {
            return;
          }
          match networkReply
          case Failed =>
            error := Some(ConnectionCheckError);
          case Answer(details) =>
            if details.networkPassphrase != networkPassphrase {
              error := Some(SwitchNetworkError + details.networkName);
              return;
            }
            networkName := Some(details.networkName);
            match keyReply
            case Failed =>
              error := Some(ConnectionCheckError);
            case Answer(key) =>
              publicKey := Some(key);
              match userInfoReply
              case Failed =>
                error := Some(ConnectionCheckError);
              case Answer(_) =>
                FetchTokenInfo(Some(key), balanceReply, nameReply, symbolReply);
                // checkAdminStatus: every connected key is treated as the administrator.
                isAdmin := true;
    }

    /** The common tail of the operations: set `loading`, call the service, return its
        success (or the thrown message), schedule the re-fetch of `refetchFor` on success,
        and clear `loading`. */
    method RunService(call: ServiceCall, outcome: Outcome, refetchFor: Option<string>) returns (r: Response)
      modifies this`calls, this`loading, this`refetches
      ensures calls == old(calls) + [call]
      ensures !loading
      ensures r == OutcomeResponse(outcome)
      ensures refetches == old(refetches) +
                           (if outcome == Settled(true) && refetchFor.Some? then [refetchFor.value] else [])
    {
      loading := true;
      calls := calls + [call];
      if outcome == Settled(true) && refetchFor.Some? {
        refetches := refetches + [refetchFor.value];
      }
      loading := false;
      r := OutcomeResponse(outcome);
    }

    /** transfer */
    method Transfer(toAddress: string, amount: string, outcome: Outcome) returns (r: Response)
      modifies this`calls, this`loading, this`refetches
      ensures SessionGuard(connected, publicKey).Some? ==>
                r == NotConnectedResponse && calls == old(calls) && refetches == old(refetches) && loading == old(loading)
      ensures SessionGuard(connected, publicKey).None? ==>
                && calls == old(calls) + [TransferTokens(publicKey.value, toAddress, amount)]
                && r == OutcomeResponse(outcome) && !loading
                && refetches == old(refetches) + (if outcome == Settled(true) then [publicKey.value] else [])
    {
      var refused := SessionGuard(connected, publicKey);
      if refused.Some? {
        return refused.value;
      }
      r := RunService(TransferTokens(publicKey.value, toAddress, amount), outcome, publicKey);
    }

    /** batchTransferTokens */
    method BatchTransferTokens(recipients: seq<string>, amounts: seq<int>, outcome: Outcome) returns (r: Response)
      modifies this`calls, this`loading, this`refetches
      ensures SessionGuard(connected, publicKey).Some? ==>
                r == NotConnectedResponse && calls == old(calls) && refetches == old(refetches) && loading == old(loading)
      ensures SessionGuard(connected, publicKey).None? ==>
                && calls == old(calls) + [BatchTransfer(publicKey.value, recipients, amounts)]
                && r == OutcomeResponse(outcome) && !loading
                && refetches == old(refetches) + (if outcome == Settled(true) then [publicKey.value] else [])
    {
      var refused := SessionGuard(connected, publicKey);
      if refused.Some? {
        return refused.value;
      }
      r := RunService(BatchTransfer(publicKey.value, recipients, amounts), outcome, publicKey);
    }

    /** mint: administrator only; the balance is re-fetched only when minting to oneself. */
    method Mint(toAddress: string, amount: string, outcome: Outcome) returns (r: Response)
      modifies this`calls, this`loading, this`refetches
      ensures AdminGuard(connected, publicKey, isAdmin).Some? ==>
                r == NotAuthorizedResponse && calls == old(calls) && refetches == old(refetches) && loading == old(loading)
      ensures AdminGuard(connected, publicKey, isAdmin).None? ==>
                && calls == old(calls) + [MintTokens(publicKey.value, toAddress, amount)]
                && r == OutcomeResponse(outcome) && !loading
                && refetches == old(refetches) +
                                (if outcome == Settled(true) && toAddress == publicKey.value then [toAddress] else [])
    {
      var refused := AdminGuard(connected, publicKey, isAdmin);
      if refused.Some? {
        return refused.value;
      }
      var refetchFor := if toAddress == publicKey.value then publicKey else None;
      r := RunService(MintTokens(publicKey.value, toAddress, amount), outcome, refetchFor);
    }

    /** burn */
    method Burn(amount: string, outcome: Outcome) returns (r: Response)
      modifies this`calls, this`loading, this`refetches
      ensures SessionGuard(connected, publicKey).Some? ==>
                r == NotConnectedResponse && calls == old(calls) && refetches == old(refetches) && loading == old(loading)
      ensures SessionGuard(connected, publicKey).None? ==>
                && calls == old(calls) + [BurnTokens(publicKey.value, amount)]
                && r == OutcomeResponse(outcome) && !loading
                && refetches == old(refetches) + (if outcome == Settled(true) then [publicKey.value] else [])
    {
      var refused := SessionGuard(connected, publicKey);
      if refused.Some? {
        return refused.value;
      }
      r := RunService(BurnTokens(publicKey.value, amount), outcome, publicKey);
    }

    /** freeze: administrator only; no re-fetch. */
    method Freeze(accountToFreeze: string, outcome: Outcome) returns (r: Response)
      modifies this`calls, this`loading, this`refetches
      ensures refetches == old(refetches)
      ensures AdminGuard(connected, publicKey, isAdmin).Some? ==>
                r == NotAuthorizedResponse && calls == old(calls) && loading == old(loading)
      ensures AdminGuard(connected, publicKey, isAdmin).None? ==>
                && calls == old(calls) + [FreezeAccount(publicKey.value, accountToFreeze)]
                && r == OutcomeResponse(outcome) && !loading
    {
      var refused := AdminGuard(connected, publicKey, isAdmin);
      if refused.Some? {
        return refused.value;
      }
      r := RunService(FreezeAccount(publicKey.value, accountToFreeze), outcome, None);
    }

    /** unfreeze: administrator only; no re-fetch. */
    method Unfreeze(accountToUnfreeze: string, outcome: Outcome) returns (r: Response)
      modifies this`calls, this`loading, this`refetches
      ensures refetches == old(refetches)
      ensures AdminGuard(connected, publicKey, isAdmin).Some? ==>
                r == NotAuthorizedResponse && calls == old(calls) && loading == old(loading)
      ensures AdminGuard(connected, publicKey, isAdmin).None? ==>
                && calls == old(calls) + [UnfreezeAccount(publicKey.value, accountToUnfreeze)]
                && r == OutcomeResponse(outcome) && !loading
    {
      var refused := AdminGuard(connected, publicKey, isAdmin);
      if refused.Some? {
        return refused.value;
      }
      r := RunService(UnfreezeAccount(publicKey.value, accountToUnfreeze), outcome, None);
    }

    /** createConditional */
    method CreateConditional(toAddress: string, amount: string, conditionType: string,
                             expirationLedger: string, outcome: Outcome) returns (r: Response)
      modifies this`calls, this`loading, this`refetches
      ensures SessionGuard(connected, publicKey).Some? ==>
                r == NotConnectedResponse && calls == old(calls) && refetches == old(refetches) && loading == old(loading)
      ensures SessionGuard(connected, publicKey).None? ==>
                && calls == old(calls) +
                            [CreateConditionalTransfer(publicKey.value, toAddress, amount, conditionType, expirationLedger)]
                && r == OutcomeResponse(outcome) && !loading
                && refetches == old(refetches) + (if outcome == Settled(true) then [publicKey.value] else [])
    {
      var refused := SessionGuard(connected, publicKey);
      if refused.Some? {
        return refused.value;
      }
      r := RunService(CreateConditionalTransfer(publicKey.value, toAddress, amount, conditionType, expirationLedger),
                      outcome, publicKey);
    }

    /** executeConditional */
    method ExecuteConditional(transferId: string, approver: string, outcome: Outcome) returns (r: Response)
      modifies this`calls, this`loading, this`refetches
      ensures SessionGuard(connected, publicKey).Some? ==>
                r == NotConnectedResponse && calls == old(calls) && refetches == old(refetches) && loading == old(loading)
      ensures SessionGuard(connected, publicKey).None? ==>
                && calls == old(calls) + [ExecuteConditionalTransfer(publicKey.value, transferId, approver)]
                && r == OutcomeResponse(outcome) && !loading
                && refetches == old(refetches) + (if outcome == Settled(true) then [publicKey.value] else [])
    {
      var refused := SessionGuard(connected, publicKey);
      if refused.Some? {
        return refused.value;
      }
      r := RunService(ExecuteConditionalTransfer(publicKey.value, transferId, approver), outcome, publicKey);
    }

    /** createVesting: administrator only; no re-fetch. `steps` and `cliffLedger` are the
        page's values, "0" when the page leaves them out. */
    method CreateVesting(beneficiary: string, totalAmount: string, startLedger: string, durationLedgers: string,
                         vestingType: string, steps: string, cliffLedger: string, outcome: Outcome)
      returns (r: Response)
      modifies this`calls, this`loading, this`refetches
      ensures refetches == old(refetches)
      ensures AdminGuard(connected, publicKey, isAdmin).Some? ==>
                r == NotAuthorizedResponse && calls == old(calls) && loading == old(loading)
      ensures AdminGuard(connected, publicKey, isAdmin).None? ==>
                && calls == old(calls) + [CreateVestingSchedule(publicKey.value, beneficiary, totalAmount, startLedger,
                                                                durationLedgers, vestingType, steps, cliffLedger)]
                && r == OutcomeResponse(outcome) && !loading
    {
      var refused := AdminGuard(connected, publicKey, isAdmin);
      if refused.Some? {
        return refused.value;
      }
      r := RunService(CreateVestingSchedule(publicKey.value, beneficiary, totalAmount, startLedger,
                                            durationLedgers, vestingType, steps, cliffLedger),
                      outcome, None);
    }

    /** claimVested */
    method ClaimVested(outcome: Outcome) returns (r: Response)
      modifies this`calls, this`loading, this`refetches
      ensures SessionGuard(connected, publicKey).Some? ==>
                r == NotConnectedResponse && calls == old(calls) && refetches == old(refetches) && loading == old(loading)
      ensures SessionGuard(connected, publicKey).None? ==>
                && calls == old(calls) + [ClaimVestedTokens(publicKey.value)]
                && r == OutcomeResponse(outcome) && !loading
                && refetches == old(refetches) + (if outcome == Settled(true) then [publicKey.value] else [])
    {
      var refused := SessionGuard(connected, publicKey);
      if refused.Some? {
        return refused.value;
      }
      r := RunService(ClaimVestedTokens(publicKey.value), outcome, publicKey);
    }

    /** getVesting: null without a session or when the query throws; otherwise whatever
        the query answers (itself possibly null). */
    method GetVesting<T>(reply: Answer<Option<T>>) returns (r: Option<T>)
      modifies this`calls
      ensures SessionGuard(connected, publicKey).Some? ==> r == None && calls == old(calls)
      ensures SessionGuard(connected, publicKey).None? ==>
                && calls == old(calls) + [GetVestingInfo(publicKey.value)]
                && r == (if reply.Answer? then reply.value else None)
    {
      if SessionGuard(connected, publicKey).Some? {
        return None;
      }
      calls := calls + [GetVestingInfo(publicKey.value)];
      r := if reply.Answer? then reply.value else None;
    }

    /** refreshData: reload the token information of the session's own address, if any. */
    method RefreshData(balanceReply: Answer<Option<string>>, nameReply: Answer<Option<string>>,
                       symbolReply: Answer<Option<string>>)
      modifies this`balance, this`tokenName, this`tokenSymbol, this`loading, this`error, this`calls
      ensures SessionGuard(connected, publicKey).Some? ==>
                && balance == old(balance) && tokenName == old(tokenName) && tokenSymbol == old(tokenSymbol)
                && loading == old(loading) && error == old(error) && calls == old(calls)
      ensures SessionGuard(connected, publicKey).None? ==> !loading
      ensures SessionGuard(connected, publicKey).None? && balanceReply.Failed? ==>
                && calls == old(calls) + [GetBalance(publicKey.value)]
                && balance == old(balance) && tokenName == old(tokenName) && tokenSymbol == old(tokenSymbol)
                && error == Some(TokenInfoError)
      ensures SessionGuard(connected, publicKey).None? && balanceReply.Answer? ==>
                balance == (if Truthy(balanceReply.value) then balanceReply.value.value else "0")
      ensures SessionGuard(connected, publicKey).None? && balanceReply.Answer? && nameReply.Failed? ==>
                && calls == old(calls) + [GetBalance(publicKey.value), GetTokenName]
                && tokenName == old(tokenName) && tokenSymbol == old(tokenSymbol)
                && error == Some(TokenInfoError)
      ensures SessionGuard(connected, publicKey).None? && balanceReply.Answer? && nameReply.Answer? ==>
                && calls == old(calls) + [GetBalance(publicKey.value), GetTokenName, GetTokenSymbol]
                && tokenName == (if Truthy(nameReply.value) then nameReply.value.value else old(tokenName))
                && tokenSymbol == (if symbolReply.Answer? && Truthy(symbolReply.value)
                                   then symbolReply.value.value else old(tokenSymbol))
                && error == (if symbolReply.Failed? then Some(TokenInfoError) else old(error))
    {
      if connected && Truthy(publicKey) {
        FetchTokenInfo(publicKey, balanceReply, nameReply, symbolReply);
      }
    }
  }

  /** After disconnecting, no operation reaches a service: each of the twelve is refused
      with its guard's message (the queries answer null, the refresh does nothing) and the
      call log stays as it was. */
  method RefusedAfterDisconnect(wallet: WalletProvider, to: string, amount: string, outcome: Outcome)
    modifies wallet
    ensures wallet.calls == old(wallet.calls) && wallet.refetches == old(wallet.refetches)
  {
    wallet.DisconnectWallet();
    var t := wallet.Transfer(to, amount, outcome);
    assert t == NotConnectedResponse;
    var m := wallet.Mint(to, amount, outcome);
    assert m == NotAuthorizedResponse;
    var b := wallet.Burn(amount, outcome);
    var c := wallet.ClaimVested(outcome);
    var v := wallet.CreateVesting(to, amount, "0", "1", "Linear", "0", "0", outcome);
    assert b == NotConnectedResponse && c == NotConnectedResponse && v == NotAuthorizedResponse;
    var bt := wallet.BatchTransferTokens([to], [0], outcome);
    var f := wallet.Freeze(to, outcome);
    var u := wallet.Unfreeze(to, outcome);
    assert bt == NotConnectedResponse && f == NotAuthorizedResponse && u == NotAuthorizedResponse;
    var cc := wallet.CreateConditional(to, amount, "time", "0", outcome);
    var ec := wallet.ExecuteConditional("0", to, outcome);
    assert cc == NotConnectedResponse && ec == NotConnectedResponse;
    var g := wallet.GetVesting<string>(Answer(Some("")));
    assert g == None;
    wallet.RefreshData(Answer(Some("1")), Answer(Some("")), Answer(Some("")));
  }
}
