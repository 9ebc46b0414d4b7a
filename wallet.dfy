/**
 * The browser-wallet hook (`useWallet`): picking an injected provider, shortening an address
 * for display, and the status / accounts / error state that connect, disconnect and the
 * provider's account events move through.
 *
 * The provider is never called here: whatever a request resolves to or throws is a parameter of
 * the step that consumes it.  The asynchronous `connect` is split at its `await` into
 * `BeginConnect` (the synchronous part) and `FinishConnect` (the continuation).
 */
module Wallet {
  import opened Options

  datatype Status = Idle | Unavailable | Connecting | Connected | Error

  /** An injected EIP-1193 provider object, with the two properties the hook inspects. */
  datatype Provider = Provider(id: nat, isMetaMask: bool, hasRequest: bool)

  /**
   * `window.ethereum`: the injected object itself and, when several wallets are installed, its
   * `providers` array, whose entries may be null or undefined (`None`).
   */
  datatype Injected = Injected(root: Provider, providers: Option<seq<Option<Provider>>>)

  /** Server-side rendering (no `window`) or a browser with or without `window.ethereum`. */
  datatype Env = ServerSide | Browser(ethereum: Option<Injected>)

  /** A JavaScript value the provider hands back: an array of account strings or anything else. */
  datatype Payload = ArrayOf(items: seq<string>) | NotAnArray

  /** What a thrown value is: an `Error` with its message, or any other value. */
  datatype Thrown = ErrorObject(message: string) | OtherValue

  /** How a provider request settles. */
  datatype Reply = Returned(value: Payload) | Threw(thrown: Thrown)

  const Ellipsis: string := "…"
  const NoWalletMessage: string := "瀏覽器尚未偵測到相容的錢包擴充功能。"
  const ConnectFailedMessage: string := "錢包連線失敗，請再試一次。"

  /** `s.slice(0, k)` */
  function Take(s: string, k: nat): string
  {
    if |s| <= k then s else s[..k]
  }

  /** `s.slice(-k)` for k > 0 */
  function TakeLast(s: string, k: nat): string
  {
    if |s| <= k then s else s[|s| - k..]
  }

  /** `${address.slice(0, 6)}…${address.slice(-4)}` */
  function TruncateAddress(address: string): string
  {
    Take(address, 6) + Ellipsis + TakeLast(address, 4)
  }

  function Min(x: int, y: int): int
  {
    if x <= y then x else y
  }

  /**
   * The shortened address is the first six characters, an ellipsis, then the last four; shorter
   * addresses contribute all of their characters to both ends.
   */
  lemma TruncateAddressShape(address: string)
    ensures var r := TruncateAddress(address);
            var head := Min(6, |address|);
            && |r| == head + 1 + Min(4, |address|)
            && r[..head] == address[..head]
            && r[head] == '…'
            && r[head + 1..] == address[|address| - Min(4, |address|)..]
  {
  }

  /**
   * For addresses of at least six characters the shortened form determines, and is determined
   * by, their first six and last four characters.
   */
  lemma TruncateAddressSameExactly(x: string, y: string)
    requires |x| >= 6 && |y| >= 6
    ensures TruncateAddress(x) == TruncateAddress(y) <==>
              x[..6] == y[..6] && x[|x| - 4..] == y[|y| - 4..]
  {
    var rx, ry := TruncateAddress(x), TruncateAddress(y);
    assert rx == x[..6] + Ellipsis + x[|x| - 4..];
    assert ry == y[..6] + Ellipsis + y[|y| - 4..];
    if rx == ry {
      assert rx[..6] == x[..6] && ry[..6] == y[..6];
      assert rx[7..] == x[|x| - 4..] && ry[7..] == y[|y| - 4..];
    }
  }

  /** Whether a `providers` entry passes `provider && provider.isMetaMask`. */
  predicate IsMetaMaskEntry(entry: Option<Provider>)
  {
    entry.Some? && entry.value.isMetaMask
  }

  /** The index `providers.find(provider => provider && provider.isMetaMask)` stops at. */
  function FirstMetaMask(entries: seq<Option<Provider>>): (found: Option<nat>)
    ensures found.Some? ==>
              && found.value < |entries|
              && IsMetaMaskEntry(entries[found.value])
              && forall j :: 0 <= j < found.value ==> !IsMetaMaskEntry(entries[j])
    ensures found.None? ==> forall j :: 0 <= j < |entries| ==> !IsMetaMaskEntry(entries[j])
  {
    if entries == [] then None
    else if IsMetaMaskEntry(entries[0]) then Some(0)
    else match FirstMetaMask(entries[1..])
      case None => None
      case Some(k) => Some(k + 1)
  }

  /** `resolveBrowserProvider()` */
  function ResolveBrowserProvider(env: Env): Option<Provider>
  {
    match env
    case ServerSide => None
    case Browser(None) => None
    case Browser(Some(ethereum)) =>
      match ethereum.providers
      case Some(entries) =>
        (match FirstMetaMask(entries)
         case Some(k) => entries[k]
         case None => if |entries| > 0 then entries[0] else None)
      case None =>
        if ethereum.root.isMetaMask || ethereum.root.hasRequest then Some(ethereum.root) else None
  }

  /**
   * With a `providers` array, the first MetaMask entry wins; without one, the first entry is
   * returned as it is (nothing for an empty array or a null first entry).
   */
  lemma ResolveFromProvidersArray(root: Provider, entries: seq<Option<Provider>>)
    ensures forall k :: 0 <= k < |entries| && IsMetaMaskEntry(entries[k]) &&
                        (forall j :: 0 <= j < k ==> !IsMetaMaskEntry(entries[j])) ==>
              ResolveBrowserProvider(Browser(Some(Injected(root, Some(entries))))) == entries[k]
    ensures (forall j :: 0 <= j < |entries| ==> !IsMetaMaskEntry(entries[j])) ==>
              ResolveBrowserProvider(Browser(Some(Injected(root, Some(entries))))) ==
              (if |entries| > 0 then entries[0] else None)
  {
    var found := FirstMetaMask(entries);
    forall k | 0 <= k < |entries| && IsMetaMaskEntry(entries[k]) &&
               (forall j :: 0 <= j < k ==> !IsMetaMaskEntry(entries[j]))
      ensures found == Some(k)
    {
    }
  }

  /**
   * Without a `providers` array the injected object itself is used exactly when it is MetaMask
   * or has a `request` function; no `window` or no `window.ethereum` gives nothing.
   */
  lemma ResolveWithoutProvidersArray(root: Provider)
    ensures ResolveBrowserProvider(Browser(Some(Injected(root, None)))) ==
            (if root.isMetaMask || root.hasRequest then Some(root) else None)
    ensures ResolveBrowserProvider(Browser(None)) == None
    ensures ResolveBrowserProvider(ServerSide) == None
  {
  }

  /** JavaScript truthiness of an account string: only the empty string is falsy. */
  predicate Truthy(s: string)
  {
    s != ""
  }

  /** The hook's state: the resolved provider and the `accounts`, `status` and `error` states. */
  class WalletState {
    const provider: Option<Provider>
    var accounts: seq<string>
    var status: Status
    var error: Option<string>

    /**
     * Without a provider the status is always `unavailable` and there are no accounts; with one it
     * never is.  A connected wallet has at least one account.
     */
    ghost predicate Valid()
      reads this
    {
      && (status == Unavailable <==> provider.None?)
      && (provider.None? ==> accounts == [])
      && (status == Connected ==> |accounts| > 0)
    }

    /** `accounts[0]` */
    function PrimaryAccount(): Option<string>
      reads this
    {
      if |accounts| > 0 then Some(accounts[0]) else None
    }

    /** `status === "connected" && Boolean(primaryAccount)` */
    function IsConnected(): bool
      reads this
    {
      status == Connected && PrimaryAccount().Some? && Truthy(PrimaryAccount().value)
    }

    function IsConnecting(): bool
      reads this
    {
      status == Connecting
    }

    function WalletAvailable(): bool
      reads this
    {
      provider.Some?
    }

    /**
     * The shortened primary account, when there is a non-empty one.  A connected wallet always
     * has one, and it is never empty: its first six characters (or fewer) are those of the
     * account, then comes the ellipsis, then its last four characters.
     */
    function FormattedAddress(): (formatted: Option<string>)
      reads this
      ensures IsConnected() ==> formatted.Some? && formatted.value != []
      ensures formatted.Some? ==> |accounts| > 0 && accounts[0] != []
      ensures formatted.Some? && |accounts| > 0 ==>
                var account := accounts[0];
                var head := Min(6, |account|);
                && head < |formatted.value|
                && formatted.value[..head] == account[..head]
                && formatted.value[head] == '…'
                && formatted.value[head + 1..] == account[|account| - Min(4, |account|)..]
    {
      if |accounts| > 0 && Truthy(accounts[0]) then
        TruncateAddressShape(accounts[0]);
        Some(TruncateAddress(accounts[0]))
      else None
    }

    /** First render: resolve the provider; `idle` with one, `unavailable` without (or on the server). */
    constructor (env: Env)
      ensures Valid()
      ensures provider == ResolveBrowserProvider(env)
      ensures accounts == [] && error == None
      ensures status == if provider.Some? then Idle else Unavailable
    {
      provider := ResolveBrowserProvider(env);
      accounts := [];
      status := if env.ServerSide? then Unavailable
                else if ResolveBrowserProvider(env).Some? then Idle else Unavailable;
      error := None;
    }

    /**
     * The mount-time `eth_accounts` probe settled with `reply`: a non-empty array connects;
     * anything else, including a rejection, changes nothing.  No provider means no probe.
     */
    method ProbeAccounts(reply: Reply)
      requires Valid()
      modifies this`accounts, this`status
      ensures Valid()
      ensures if provider.Some? && reply.Returned? && reply.value.ArrayOf? && |reply.value.items| > 0
              then accounts == reply.value.items && status == Connected
              else accounts == old(accounts) && status == old(status)
    {
      if provider.Some? && reply.Returned? && reply.value.ArrayOf? && |reply.value.items| > 0 {
        accounts := reply.value.items;
        status := Connected;
      }
    }

    /**
     * An `accountsChanged` event: a non-array payload is ignored; an array replaces the accounts
     * and the status becomes `connected` or `idle` by whether it is empty.  The listener is only
     * registered when there is a provider.  The error is left as it is.
     */
    method AccountsChanged(payload: Payload)
      requires Valid()
      modifies this`accounts, this`status
      ensures Valid()
      ensures if provider.Some? && payload.ArrayOf?
              then accounts == payload.items && status == (if |payload.items| > 0 then Connected else Idle)
              else accounts == old(accounts) && status == old(status)
    {
      if provider.None? || !payload.ArrayOf? {
        return;
      }
      accounts := payload.items;
      status := if |payload.items| > 0 then Connected else Idle;
    }

    /**
     * The synchronous part of `connect`: without a provider it reports `unavailable` with a
     * message and makes no request; otherwise it enters `connecting`, clears the error and
     * requests accounts (`requested`).  Accounts are untouched.
     */
    method BeginConnect() returns (requested: bool)
      requires Valid()
      modifies this`status, this`error
      ensures Valid()
      ensures requested <==> provider.Some?
      ensures !requested ==> status == Unavailable && error == Some(NoWalletMessage)
      ensures requested ==> status == Connecting && error == None
    {
      if provider.None? {
        status := Unavailable;
        error := Some(NoWalletMessage);
        return false;
      }
      status := Connecting;
      error := None;
      return true;
    }

    /**
     * The continuation of `connect` once `eth_requestAccounts` settles: a non-empty array
     * connects with those accounts; an empty or non-array reply goes back to `idle` keeping the
     * old accounts; a throw records the Error's message (or a fallback text) and enters `error`.
     */
    method FinishConnect(reply: Reply)
      requires Valid()
      requires provider.Some?
      modifies this`accounts, this`status, this`error
      ensures Valid()
      ensures reply.Returned? && reply.value.ArrayOf? && |reply.value.items| > 0 ==>
                accounts == reply.value.items && status == Connected && error == old(error)
      ensures reply.Returned? && !(reply.value.ArrayOf? && |reply.value.items| > 0) ==>
                accounts == old(accounts) && status == Idle && error == old(error)
      ensures reply.Threw? ==>
                && accounts == old(accounts) && status == Error
                && error == Some(if reply.thrown.ErrorObject? then reply.thrown.message else ConnectFailedMessage)
    {
      match reply
      case Returned(value) =>
        if !value.ArrayOf? || |value.items| == 0 {
          status := Idle;
          return;
        }
        accounts := value.items;
        status := Connected;
      case Threw(thrown) =>
        var message := if thrown.ErrorObject? then thrown.message else ConnectFailedMessage;
        error := Some(message);
        status := Error;
    }

    /** `disconnect`: forget the accounts and the error; `idle` with a provider, else `unavailable`. */
    method Disconnect()
      requires Valid()
      modifies this`accounts, this`status, this`error
      ensures Valid()
      ensures accounts == [] && error == None
      ensures status == if provider.Some? then Idle else Unavailable
      ensures !IsConnected()
    {
      accounts := [];
      status := if provider.Some? then Idle else Unavailable;
      error := None;
    }
  }
}
