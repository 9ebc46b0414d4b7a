/**
 * The wallet button in the page header (`WalletButton`): what a click does, which label the
 * button shows, when it is disabled, and when the error line and the install hint appear.
 */
module Header {
  import opened Options
  import opened Wallet

  const InstallWalletLabel: string := "Install Wallet"
  const ConnectingLabel: string := "Connecting"
  const ConnectLabel: string := "Connect"

  /** What `handleClick` does. */
  datatype ClickAction = Ignore | CallDisconnect | CallConnect

  /** Ignored while connecting, disconnects when connected, connects otherwise. */
  function ClickActionFor(isConnecting: bool, isConnected: bool): ClickAction
  {
    if isConnecting then Ignore
    else if isConnected then CallDisconnect
    else CallConnect
  }

  /**
   * The label's priority chain: no wallet first, then the shortened address of a connected
   * wallet, then connecting, then the default.
   */
  function Label(walletAvailable: bool, isConnected: bool, formattedAddress: Option<string>, isConnecting: bool): string
  {
    if !walletAvailable then InstallWalletLabel
    else if isConnected && formattedAddress.Some? && formattedAddress.value != "" then formattedAddress.value
    else if isConnecting then ConnectingLabel
    else ConnectLabel
  }

  function ButtonDisabled(isConnecting: bool): bool
  {
    isConnecting
  }

  /** `status === "error" && error`: an empty message is falsy and is not shown either. */
  function ErrorShown(status: Status, error: Option<string>): bool
  {
    status == Error && error.Some? && error.value != ""
  }

  function HintShown(status: Status): bool
  {
    status == Unavailable
  }

  /** The label of the button for a wallet state. */
  function LabelOf(w: WalletState): string
    reads w
  {
    Label(w.WalletAvailable(), w.IsConnected(), w.FormattedAddress(), w.IsConnecting())
  }

  /** The button is disabled exactly when a click on it would be ignored. */
  lemma DisabledExactlyWhenIgnored(isConnecting: bool, isConnected: bool)
    ensures ButtonDisabled(isConnecting) <==> ClickActionFor(isConnecting, isConnected) == Ignore
  {
  }

  /** A shortened address is never one of the fixed labels, so the label tells the cases apart. */
  lemma ShortenedAddressIsNoFixedLabel(address: string)
    ensures TruncateAddress(address) != InstallWalletLabel
    ensures TruncateAddress(address) != ConnectingLabel
    ensures TruncateAddress(address) != ConnectLabel
    ensures TruncateAddress(address) != ""
  {
    TruncateAddressShape(address);
    var head := Min(6, |address|);
    var r := TruncateAddress(address);
    assert r[head] == '…';
    assert '…' !in InstallWalletLabel && '…' !in ConnectingLabel && '…' !in ConnectLabel;
  }

  /**
   * What the label says about a consistent wallet state: "Install Wallet" exactly when no wallet
   * is available, the shortened primary account exactly when connected, "Connecting" exactly
   * while connecting, and "Connect" in every other case.
   */
  lemma LabelReflectsWallet(w: WalletState)
    requires w.Valid()
    ensures LabelOf(w) == InstallWalletLabel <==> w.status == Unavailable
    ensures LabelOf(w) == ConnectingLabel <==> w.status == Connecting
    ensures w.IsConnected() ==> LabelOf(w) == TruncateAddress(w.accounts[0])
    ensures LabelOf(w) == ConnectLabel <==>
              w.status != Unavailable && w.status != Connecting && !w.IsConnected()
  {
    if |w.accounts| > 0 {
      ShortenedAddressIsNoFixedLabel(w.accounts[0]);
    }
  }

  /**
   * The install hint is shown exactly when no wallet is available, and then the error line is
   * not: the message `connect` records without a provider is never displayed.
   */
  lemma HintAndErrorLines(w: WalletState)
    requires w.Valid()
    ensures HintShown(w.status) <==> !w.WalletAvailable()
    ensures ErrorShown(w.status, w.error) ==> w.status == Error && w.WalletAvailable()
    ensures !w.WalletAvailable() ==> !ErrorShown(w.status, w.error)
  {
  }

  /**
   * `handleClick`: does nothing while connecting, disconnects a connected wallet, and otherwise
   * starts connecting (`requested` tells whether a request went to the provider).
   */
  method Click(w: WalletState) returns (requested: bool)
    requires w.Valid()
    modifies w`accounts, w`status, w`error
    ensures w.Valid()
    ensures old(w.IsConnecting()) ==> unchanged(w) && !requested
    ensures !old(w.IsConnecting()) && old(w.IsConnected()) ==>
              && w.accounts == [] && w.error == None && w.status == Idle && !requested
    ensures !old(w.IsConnecting()) && !old(w.IsConnected()) ==>
              && w.accounts == old(w.accounts)
              && (requested <==> w.provider.Some?)
              && (requested ==> w.status == Connecting && w.error == None)
              && (!requested ==> w.status == Unavailable && w.error == Some(NoWalletMessage))
  {
    requested := false;
    match ClickActionFor(w.IsConnecting(), w.IsConnected())
    case Ignore =>
    case CallDisconnect =>
      w.Disconnect();
    case CallConnect =>
      requested := w.BeginConnect();
  }
}
