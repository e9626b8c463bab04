/** `renderButton`: the one affordance the page offers, chosen from the page state by a
    chain of conditionals where the first that holds wins. */
module Selector {
  import opened Remote
  import opened Session
  import opened Page

  /** What the page renders in place of the button. */
  datatype Affordance =
    | ConnectButton       // "Connect Your Wallet"
    | LoadingButton       // "Loading...", with no click handler
    | StartPresaleButton  // "Start Presale!"
    | NotStartedNotice    // "Presale hasn't started yet!", no button
    | PresaleMintButton   // "Presale Mint"
    | PublicMintButton    // "Mint a CryptoDev"

  /** The handlers a rendered button can invoke. */
  datatype Action = DoConnectWallet | DoStartPresale | DoPresaleMint | DoPublicMint

  /** The click handler attached to each affordance, if any. */
  function OnClick(a: Affordance): Option<Action> {
    match a
    case ConnectButton => Some(DoConnectWallet)
    case LoadingButton => None
    case StartPresaleButton => Some(DoStartPresale)
    case NotStartedNotice => None
    case PresaleMintButton => Some(DoPresaleMint)
    case PublicMintButton => Some(DoPublicMint)
  }

  /** The condition written in front of each affordance, read on its own. */
  predicate Guard(a: Affordance, s: PageState) {
    match a
    case ConnectButton => !s.walletConnected
    case LoadingButton => s.loading
    case StartPresaleButton => s.isOwner && !s.presaleStarted
    case NotStartedNotice => !s.presaleStarted
    case PresaleMintButton => s.presaleStarted && !s.presaleEnded
    case PublicMintButton => s.presaleStarted && s.presaleEnded
  }

  /** The position of each affordance's test in the chain. */
  function Rank(a: Affordance): nat {
    match a
    case ConnectButton => 0
    case LoadingButton => 1
    case StartPresaleButton => 2
    case NotStartedNotice => 3
    case PresaleMintButton => 4
    case PublicMintButton => 5
  }

  /** `a`'s condition holds and the condition of every affordance that comes earlier in the chain fails. */
  predicate FirstMatch(a: Affordance, s: PageState) {
    Guard(a, s) && forall b :: Rank(b) < Rank(a) ==> !Guard(b, s)
  }

  /** The selector always renders something (the fall-through after the last test is never
      reached), and what it renders is the first affordance whose condition holds. */
  function RenderButton(s: PageState): (r: Option<Affordance>)
    ensures r.Some?
    ensures r.Some? ==> FirstMatch(r.value, s)
  {
    if !s.walletConnected then Some(ConnectButton)
    else if s.loading then Some(LoadingButton)
    else if s.isOwner && !s.presaleStarted then Some(StartPresaleButton)
    else if !s.presaleStarted then Some(NotStartedNotice)
    else if s.presaleStarted && !s.presaleEnded then Some(PresaleMintButton)
    else if s.presaleStarted && s.presaleEnded then Some(PublicMintButton)
    else None
  }

  /** At most one affordance is the first match, so the selector's answer is determined by
      the state and by nothing else. */
  lemma FirstMatchIsUnique(a: Affordance, b: Affordance, s: PageState)
    requires FirstMatch(a, s) && FirstMatch(b, s)
    ensures a == b
  {
  }

  /** The selector renders `a` exactly when `a` is the first match. */
  lemma RenderButtonIsFirstMatch(a: Affordance, s: PageState)
    ensures RenderButton(s) == Some(a) <==> FirstMatch(a, s)
  {
  }

  /** Without a wallet the page offers to connect one, whatever else it believes. */
  lemma ConnectComesFirst(s: PageState)
    requires !s.walletConnected
    ensures RenderButton(s) == Some(ConnectButton)
    ensures OnClick(RenderButton(s).value) == Some(DoConnectWallet)
  {
  }

  /** With a wallet and `loading` up, the page shows the loading button, which invokes no
      handler, whatever the owner and phase flags say. */
  lemma LoadingComesSecond(s: PageState)
    requires s.walletConnected && s.loading
    ensures RenderButton(s) == Some(LoadingButton)
    ensures OnClick(RenderButton(s).value) == None
  {
  }

  /** Past connection and loading, the phase decides: the owner may start the presale, others
      are told it has not started; once started, the ended flag alone chooses between the
      presale mint and the public mint, and each mint button submits the fixed price. */
  lemma PhaseDecides(s: PageState)
    requires s.walletConnected && !s.loading
    ensures !s.presaleStarted ==>
      RenderButton(s) == Some(if s.isOwner then StartPresaleButton else NotStartedNotice)
    ensures s.presaleStarted ==>
      RenderButton(s) == Some(if s.presaleEnded then PublicMintButton else PresaleMintButton)
  {
  }

  /** Once a `startPresale` transaction is mined and the re-read sees the presale started, the
      start button is gone and a mint button takes its place. */
  lemma MinedStartPresaleOffersMint(s: PageState, net: Network, after: Reads)
    requires s.walletConnected && OnSepolia(net)
    requires OnSepolia(after.net) && after.presaleStarted == Ok(true)
    ensures RenderButton(Apply(s, StartPresale(net, Mined, after))) ==
      Some(if s.presaleEnded then PublicMintButton else PresaleMintButton)
  {
  }

  /** A failed `wait` leaves `loading` up: as long as no write is mined afterwards, every
      state the session reaches shows the loading button, which invokes nothing. Only a
      write submitted before, whose `wait` is still pending, could bring it down. */
  lemma {:induction false} FailedWaitKeepsLoading(s: PageState, hs: seq<Handler>)
    requires s.walletConnected && s.loading
    requires forall i :: 0 <= i < |hs| ==> LoadingSet(hs[i]) != Some(false)
    ensures RenderButton(Run(s, hs)) == Some(LoadingButton)
    decreases |hs|
  {
    if hs != [] {
      var t := Apply(s, hs[0]);
      assert LoadingSet(hs[0]) != Some(false);
      assert t.walletConnected && t.loading;
      FailedWaitKeepsLoading(t, hs[1..]);
    }
  }

  /** The action a handler run performs when it is a write, i.e. the button that starts it. */
  function WriteAction(h: Handler): Option<Action> {
    match h
    case PresaleMint(_, _) => Some(DoPresaleMint)
    case PublicMint(_, _) => Some(DoPublicMint)
    case StartPresale(_, _, _) => Some(DoStartPresale)
    case _ => None
  }

  /** A session driven by the page: every write is started by the click handler of the
      button rendered in the state it starts from; reads and connects may come at any time. */
  predicate ButtonDriven(s: PageState, hs: seq<Handler>)
    decreases |hs|
  {
    hs == [] ||
    ((WriteAction(hs[0]).None? || WriteAction(hs[0]) == OnClick(RenderButton(s).value)) &&
     ButtonDriven(Apply(s, hs[0]), hs[1..]))
  }

  /** Once `loading` is up on a connected page, a session driven by the page never lowers it:
      the loading button starts no write, so no `wait` can succeed, and the page shows the
      loading button for good. */
  lemma {:induction false} ButtonDrivenSessionStaysLoading(s: PageState, hs: seq<Handler>)
    requires s.walletConnected && s.loading
    requires ButtonDriven(s, hs)
    ensures Run(s, hs).loading
    ensures RenderButton(Run(s, hs)) == Some(LoadingButton)
    decreases |hs|
  {
    if hs != [] {
      assert RenderButton(s) == Some(LoadingButton);
      assert WriteAction(hs[0]).None?;
      var t := Apply(s, hs[0]);
      assert t.walletConnected && t.loading;
      ButtonDrivenSessionStaysLoading(t, hs[1..]);
    }
  }
}
