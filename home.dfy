/** The page component itself: six pieces of state updated in place by asynchronous
    handlers. Each handler is a method that takes the answers of its remote steps as
    parameters and performs the JavaScript handler's steps in order; a thrown error becomes
    an early return where the handler's `catch` block takes over. Every method is one step of
    the trace model in `Page`, so the lemmas proved there hold of any sequence of calls. */
module Home {
  import opened Remote
  import opened Session
  import Addresses
  import Sale
  import Page

  class HomePage {
    var walletConnected: bool
    var presaleStarted: bool
    var presaleEnded: bool
    var loading: bool
    var isOwner: bool
    var tokenIdsMinted: nat

    /** The page state as a value. */
    function State(): Page.PageState
      reads this
    {
      Page.PageState(walletConnected, presaleStarted, presaleEnded, loading, isOwner, tokenIdsMinted)
    }

    /** The initial values of the six `useState` hooks. */
    constructor ()
      ensures State() == Page.Initial
    {
      walletConnected := false;
      presaleStarted := false;
      presaleEnded := false;
      loading := false;
      isOwner := false;
      tokenIdsMinted := 0;
    }

    /** `presaleMint`: submit a presale mint paying the mint price, raise `loading` once the
        submission is acknowledged and lower it once `wait` succeeds. */
    method PresaleMint(net: Network, tx: Tx) returns (sent: Option<ContractCall>)
      modifies this
      ensures sent == if OnSepolia(net) then Some(PresaleMintCall(MINT_PRICE_WEI)) else None
      ensures loading == if OnSepolia(net) && tx != SubmitFailed then tx == WaitFailed else old(loading)
      ensures State() == Page.Apply(old(State()), Page.PresaleMint(net, tx))
    {
      sent := None;
      var signer := GetProviderOrSigner(net, true);
      if signer.Refused? { return; }
      sent := Some(PresaleMintCall(MINT_PRICE_WEI));
      if tx == SubmitFailed { return; }
      loading := true;
      if tx == WaitFailed { return; }
      loading := false;
    }

    /** `publicMint`: the same lifecycle around the contract's public `mint`. */
    method PublicMint(net: Network, tx: Tx) returns (sent: Option<ContractCall>)
      modifies this
      ensures sent == if OnSepolia(net) then Some(MintCall(MINT_PRICE_WEI)) else None
      ensures loading == if OnSepolia(net) && tx != SubmitFailed then tx == WaitFailed else old(loading)
      ensures State() == Page.Apply(old(State()), Page.PublicMint(net, tx))
    {
      sent := None;
      var signer := GetProviderOrSigner(net, true);
      if signer.Refused? { return; }
      sent := Some(MintCall(MINT_PRICE_WEI));
      if tx == SubmitFailed { return; }
      loading := true;
      if tx == WaitFailed { return; }
      loading := false;
    }

    /** `connectWallet`: the wallet counts as connected once a provider on Sepolia is had. */
    method ConnectWallet(net: Network)
      modifies this
      ensures walletConnected == (old(walletConnected) || OnSepolia(net))
      ensures State() == Page.Apply(old(State()), Page.ConnectWallet(net))
    {
      var provider := GetProviderOrSigner(net, false);
      if provider.Refused? { return; }
      walletConnected := true;
    }

    /** `startPresale`: the write lifecycle around `startPresale`, then, once the wait has
        succeeded, an immediate re-read of the started flag with the later answers `after`. */
    method StartPresale(net: Network, tx: Tx, after: Reads) returns (sent: Option<ContractCall>)
      modifies this
      ensures sent == if OnSepolia(net) then Some(StartPresaleCall) else None
      ensures loading == if OnSepolia(net) && tx != SubmitFailed then tx == WaitFailed else old(loading)
      ensures OnSepolia(net) && tx == Mined && OnSepolia(after.net) && after.presaleStarted.Ok? ==>
        presaleStarted == after.presaleStarted.value
      ensures State() == Page.Apply(old(State()), Page.StartPresale(net, tx, after))
    {
      sent := None;
      var signer := GetProviderOrSigner(net, true);
      if signer.Refused? { return; }
      sent := Some(StartPresaleCall);
      if tx == SubmitFailed { return; }
      loading := true;
      if tx == WaitFailed { return; }
      loading := false;
      var _ := CheckIfPresaleStarted(after);
    }

    /** `checkIfPresaleStarted`: read the flag; when it is false, resolve ownership first;
        then record it and return it. A failure returns false and changes nothing. */
    method CheckIfPresaleStarted(r: Reads) returns (started: bool)
      modifies this
      ensures started == Page.PresaleStartedResult(r)
      ensures OnSepolia(r.net) && r.presaleStarted.Ok? ==> presaleStarted == r.presaleStarted.value
      ensures State() == Page.Apply(old(State()), Page.CheckIfPresaleStarted(r))
    {
      var provider := GetProviderOrSigner(r.net, false);
      if provider.Refused? || r.presaleStarted.Failed? { return false; }
      var value := r.presaleStarted.value;
      if !value {
        GetOwner(r);
      }
      presaleStarted := value;
      return value;
    }

    /** `checkIfPresaleEnded`: read the end timestamp through a signer, record and return
        whether it lies before the current whole second. A failure returns false and changes
        nothing. */
    method CheckIfPresaleEnded(r: Reads, nowMs: int) returns (ended: bool)
      modifies this
      ensures ended == Page.PresaleEndedResult(r, nowMs)
      ensures OnSepolia(r.net) && r.presaleEnded.Ok? ==> presaleEnded == ended
      ensures State() == Page.Apply(old(State()), Page.CheckIfPresaleEnded(r, nowMs))
    {
      var signer := GetProviderOrSigner(r.net, true);
      if signer.Refused? || r.presaleEnded.Failed? { return false; }
      var hasEnded := r.presaleEnded.value < Sale.NowSeconds(nowMs);
      if hasEnded {
        presaleEnded := true;
      } else {
        presaleEnded := false;
      }
      return hasEnded;
    }

    /** `getOwner`: read the owner, then the signer's address, and set `isOwner` when the two
        agree ignoring case. Nothing here ever clears the flag. */
    method GetOwner(r: Reads)
      modifies this
      ensures isOwner == (old(isOwner) || Page.OwnerMatches(r))
      ensures State() == Page.Apply(old(State()), Page.GetOwner(r))
    {
      var provider := GetProviderOrSigner(r.net, false);
      if provider.Refused? || r.owner.Failed? { return; }
      var owner := r.owner.value;
      var signer := GetProviderOrSigner(r.net, true);
      if signer.Refused? || r.account.Failed? { return; }
      var address := r.account.value;
      if Addresses.ToLower(address) == Addresses.ToLower(owner) {
        isOwner := true;
      }
    }

    /** `getTokenIdsMinted`: record the minted count on a successful read. */
    method GetTokenIdsMinted(r: Reads)
      modifies this
      ensures tokenIdsMinted == if OnSepolia(r.net) && r.tokenIds.Ok? then r.tokenIds.value else old(tokenIdsMinted)
      ensures State() == Page.Apply(old(State()), Page.GetTokenIdsMinted(r))
    {
      var provider := GetProviderOrSigner(r.net, false);
      if provider.Refused? || r.tokenIds.Failed? { return; }
      tokenIdsMinted := r.tokenIds.value;
    }
  }
}
