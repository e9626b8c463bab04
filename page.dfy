/** The page's local state and the effect every handler has on it. The handlers of the
    page are asynchronous functions that call the wallet and the contract and update React
    state as they go; here each handler run is one event carrying the answers its remote
    steps got, and its effect is a function of the state before it. A session is a sequence
    of such events. */
module Page {
  import opened Remote
  import opened Session
  import Addresses
  import Sale

  /** The six pieces of React state the page keeps. */
  datatype PageState = PageState(
    walletConnected: bool,
    presaleStarted: bool,
    presaleEnded: bool,
    loading: bool,
    isOwner: bool,
    tokenIdsMinted: nat)

  /** Every flag starts false and the minted count at zero. */
  const Initial: PageState := PageState(false, false, false, false, false, 0)

  /** One run of one handler, with the answers its remote steps got. A write handler gets the
      network its signer request sees and how its transaction fared; `startPresale` also gets
      the answers of the re-read it makes once its transaction is mined. */
  datatype Handler =
    | ConnectWallet(net: Network)
    | CheckIfPresaleStarted(answers: Reads)
    | CheckIfPresaleEnded(answers: Reads, nowMs: int)
    | GetOwner(answers: Reads)
    | GetTokenIdsMinted(answers: Reads)
    | PresaleMint(net: Network, tx: Tx)
    | PublicMint(net: Network, tx: Tx)
    | StartPresale(net: Network, tx: Tx, after: Reads)

  /** `getOwner` reaches its comparison and the signer's address matches the owner's. */
  predicate OwnerMatches(r: Reads) {
    OnSepolia(r.net) && r.owner.Ok? && r.account.Ok? &&
    Addresses.SameAddress(r.account.value, r.owner.value)
  }

  /** `getOwner`: sets the owner flag when the addresses match, and never clears it. */
  function GetOwnerEffect(s: PageState, r: Reads): PageState {
    s.(isOwner := s.isOwner || OwnerMatches(r))
  }

  /** What `checkIfPresaleStarted` returns: the flag it read, or false when a step failed. */
  function PresaleStartedResult(r: Reads): bool {
    OnSepolia(r.net) && r.presaleStarted == Ok(true)
  }

  /** `checkIfPresaleStarted`: on a successful read, resolve ownership if the presale has not
      started and record the flag; on a failure, change nothing. */
  function CheckIfPresaleStartedEffect(s: PageState, r: Reads): PageState {
    if OnSepolia(r.net) && r.presaleStarted.Ok? then
      var started := r.presaleStarted.value;
      (if started then s else GetOwnerEffect(s, r)).(presaleStarted := started)
    else s
  }

  /** What `checkIfPresaleEnded` returns: the projection of the end timestamp it read, or
      false when a step failed. */
  function PresaleEndedResult(r: Reads, nowMs: int): bool {
    OnSepolia(r.net) && r.presaleEnded.Ok? && Sale.HasEnded(r.presaleEnded.value, nowMs)
  }

  /** `checkIfPresaleEnded`: on a successful read, record the projection; else change nothing. */
  function CheckIfPresaleEndedEffect(s: PageState, r: Reads, nowMs: int): PageState {
    if OnSepolia(r.net) && r.presaleEnded.Ok? then
      s.(presaleEnded := Sale.HasEnded(r.presaleEnded.value, nowMs))
    else s
  }

  /** `getTokenIdsMinted`: on a successful read, record the count; else change nothing. */
  function GetTokenIdsMintedEffect(s: PageState, r: Reads): PageState {
    if OnSepolia(r.net) && r.tokenIds.Ok? then s.(tokenIdsMinted := r.tokenIds.value) else s
  }

  /** A mint or `startPresale` up to the end of its `wait`: `loading` goes up once the
      submission is acknowledged and back down once the wait succeeds. */
  function WriteEffect(s: PageState, net: Network, tx: Tx): PageState {
    if !OnSepolia(net) || tx == SubmitFailed then s
    else s.(loading := tx == WaitFailed)
  }

  /** The effect of one handler run on the page state. */
  function Apply(s: PageState, h: Handler): PageState {
    match h
    case ConnectWallet(net) => if OnSepolia(net) then s.(walletConnected := true) else s
    case CheckIfPresaleStarted(r) => CheckIfPresaleStartedEffect(s, r)
    case CheckIfPresaleEnded(r, nowMs) => CheckIfPresaleEndedEffect(s, r, nowMs)
    case GetOwner(r) => GetOwnerEffect(s, r)
    case GetTokenIdsMinted(r) => GetTokenIdsMintedEffect(s, r)
    case PresaleMint(net, tx) => WriteEffect(s, net, tx)
    case PublicMint(net, tx) => WriteEffect(s, net, tx)
    case StartPresale(net, tx, after) =>
      var t := WriteEffect(s, net, tx);
      if OnSepolia(net) && tx == Mined then CheckIfPresaleStartedEffect(t, after) else t
  }

  /** The state after a sequence of handler runs, one after the other. */
  function Run(s: PageState, hs: seq<Handler>): PageState
    decreases |hs|
  {
    if hs == [] then s else Run(Apply(s, hs[0]), hs[1..])
  }

  lemma {:induction false} RunSnoc(s: PageState, hs: seq<Handler>, h: Handler)
    ensures Run(s, hs + [h]) == Apply(Run(s, hs), h)
    decreases |hs|
  {
    if hs != [] {
      assert (hs + [h])[1..] == hs[1..] + [h];
      RunSnoc(Apply(s, hs[0]), hs[1..], h);
    }
  }

  // ---------------------------------------------------------------------------------------
  // Failures are contained: a handler that fails before any setter runs changes nothing.

  /** One of the handler's remote steps fails before any setter runs, so its `catch` block
      takes over with the state untouched. */
  predicate FailsEarly(h: Handler) {
    match h
    case ConnectWallet(net) => !OnSepolia(net)
    case CheckIfPresaleStarted(r) => !OnSepolia(r.net) || r.presaleStarted.Failed?
    case CheckIfPresaleEnded(r, _) => !OnSepolia(r.net) || r.presaleEnded.Failed?
    case GetOwner(r) => !OnSepolia(r.net) || r.owner.Failed? || r.account.Failed?
    case GetTokenIdsMinted(r) => !OnSepolia(r.net) || r.tokenIds.Failed?
    case PresaleMint(net, tx) => !OnSepolia(net) || tx == SubmitFailed
    case PublicMint(net, tx) => !OnSepolia(net) || tx == SubmitFailed
    case StartPresale(net, tx, _) => !OnSepolia(net) || tx == SubmitFailed
  }

  /** Any sequence of failing handler runs leaves the whole state as it was: no field is
      partly overwritten or reset. */
  lemma {:induction false} FailuresChangeNothing(s: PageState, hs: seq<Handler>)
    requires forall i :: 0 <= i < |hs| ==> FailsEarly(hs[i])
    ensures Run(s, hs) == s
    decreases |hs|
  {
    if hs != [] {
      assert FailsEarly(hs[0]);
      assert Apply(s, hs[0]) == s;
      FailuresChangeNothing(s, hs[1..]);
    }
  }

  // ---------------------------------------------------------------------------------------
  // Sticky flags: `walletConnected` and `isOwner` are only ever set to true.

  /** The handler run sets `isOwner`: `getOwner` itself, or the ownership check that
      `checkIfPresaleStarted` (also inside `startPresale`) makes when it reads false. */
  predicate SetsOwner(h: Handler) {
    match h
    case GetOwner(r) => OwnerMatches(r)
    case CheckIfPresaleStarted(r) =>
      OnSepolia(r.net) && r.presaleStarted == Ok(false) && OwnerMatches(r)
    case StartPresale(net, tx, after) =>
      OnSepolia(net) && tx == Mined &&
      OnSepolia(after.net) && after.presaleStarted == Ok(false) && OwnerMatches(after)
    case _ => false
  }

  /** After any session, the page believes its user owns the contract exactly when it did
      before or some handler run found a match; nothing ever sets the flag back to false. */
  lemma {:induction false} OwnerFlagIsSticky(s: PageState, hs: seq<Handler>)
    ensures Run(s, hs).isOwner <==> s.isOwner || exists i :: 0 <= i < |hs| && SetsOwner(hs[i])
    decreases |hs|
  {
    if hs != [] {
      var t := Apply(s, hs[0]);
      assert t.isOwner == (s.isOwner || SetsOwner(hs[0]));
      OwnerFlagIsSticky(t, hs[1..]);
      if exists i :: 0 <= i < |hs| && SetsOwner(hs[i]) {
        var i :| 0 <= i < |hs| && SetsOwner(hs[i]);
        if i > 0 { assert SetsOwner(hs[1..][i - 1]); }
      }
      if exists j :: 0 <= j < |hs[1..]| && SetsOwner(hs[1..][j]) {
        var j :| 0 <= j < |hs[1..]| && SetsOwner(hs[1..][j]);
        assert SetsOwner(hs[j + 1]);
      }
    }
  }

  /** The wallet counts as connected after a session exactly when it did before or some
      `connectWallet` run reached Sepolia. */
  lemma {:induction false} ConnectionIsSticky(s: PageState, hs: seq<Handler>)
    ensures Run(s, hs).walletConnected <==>
      s.walletConnected || exists i :: 0 <= i < |hs| && hs[i].ConnectWallet? && OnSepolia(hs[i].net)
    decreases |hs|
  {
    if hs != [] {
      var t := Apply(s, hs[0]);
      ConnectionIsSticky(t, hs[1..]);
      if exists i :: 0 <= i < |hs| && hs[i].ConnectWallet? && OnSepolia(hs[i].net) {
        var i :| 0 <= i < |hs| && hs[i].ConnectWallet? && OnSepolia(hs[i].net);
        if i > 0 { assert hs[1..][i - 1] == hs[i]; }
      }
      if exists j :: 0 <= j < |hs[1..]| && hs[1..][j].ConnectWallet? && OnSepolia(hs[1..][j].net) {
        var j :| 0 <= j < |hs[1..]| && hs[1..][j].ConnectWallet? && OnSepolia(hs[1..][j].net);
        assert hs[j + 1] == hs[1..][j];
      }
    }
  }

  // ---------------------------------------------------------------------------------------
  // The other fields hold the most recent observation.

  /** The value the last handler run in `hs` that observes something gave, or `default` when
      none does. */
  function LastObserved<T>(hs: seq<Handler>, observe: Handler -> Option<T>, default: T): T
    decreases |hs|
  {
    if hs == [] then default
    else match observe(hs[|hs| - 1])
      case Some(v) => v
      case None => LastObserved(hs[..|hs| - 1], observe, default)
  }

  /** The minted count a handler run reads successfully. */
  function MintedCountRead(h: Handler): Option<nat> {
    if h.GetTokenIdsMinted? && OnSepolia(h.answers.net) && h.answers.tokenIds.Ok?
    then Some(h.answers.tokenIds.value) else None
  }

  /** The ended projection a handler run computes from a successful read. */
  function PresaleEndedRead(h: Handler): Option<bool> {
    if h.CheckIfPresaleEnded? && OnSepolia(h.answers.net) && h.answers.presaleEnded.Ok?
    then Some(Sale.HasEnded(h.answers.presaleEnded.value, h.nowMs)) else None
  }

  /** The started flag a handler run reads successfully, directly or in the re-read that
      follows a mined `startPresale`. */
  function PresaleStartedRead(h: Handler): Option<bool> {
    match h
    case CheckIfPresaleStarted(r) =>
      if OnSepolia(r.net) && r.presaleStarted.Ok? then Some(r.presaleStarted.value) else None
    case StartPresale(net, tx, after) =>
      if OnSepolia(net) && tx == Mined && OnSepolia(after.net) && after.presaleStarted.Ok?
      then Some(after.presaleStarted.value) else None
    case _ => None
  }

  /** Where a handler run leaves `loading`: up after a submission whose wait failed, down
      after a wait that succeeded. */
  function LoadingSet(h: Handler): Option<bool> {
    match h
    case PresaleMint(net, tx) => WriteLoading(net, tx)
    case PublicMint(net, tx) => WriteLoading(net, tx)
    case StartPresale(net, tx, _) => WriteLoading(net, tx)
    case _ => None
  }

  function WriteLoading(net: Network, tx: Tx): Option<bool> {
    if OnSepolia(net) && tx != SubmitFailed then Some(tx == WaitFailed) else None
  }

  /** A field that every handler run either sets to what it observed or leaves alone holds,
      after any session, the last observation, or its initial value if there was none. */
  lemma {:induction false} RunKeepsLastObservation<T>(
    get: PageState -> T, observe: Handler -> Option<T>, s: PageState, hs: seq<Handler>)
    requires forall t, h :: get(Apply(t, h)) == if observe(h).Some? then observe(h).value else get(t)
    ensures get(Run(s, hs)) == LastObserved(hs, observe, get(s))
    decreases |hs|
  {
    if hs != [] {
      var init := hs[..|hs| - 1];
      var last := hs[|hs| - 1];
      assert hs == init + [last];
      RunSnoc(s, init, last);
      RunKeepsLastObservation(get, observe, s, init);
    }
  }

  /** The minted count shown is the one read last; failed reads keep the previous one. */
  lemma MintedCountIsLastRead(s: PageState, hs: seq<Handler>)
    ensures Run(s, hs).tokenIdsMinted == LastObserved(hs, MintedCountRead, s.tokenIdsMinted)
  {
    RunKeepsLastObservation((t: PageState) => t.tokenIdsMinted, MintedCountRead, s, hs);
  }

  /** The ended flag is the projection computed at the last successful end-timestamp read. */
  lemma PresaleEndedIsLastProjection(s: PageState, hs: seq<Handler>)
    ensures Run(s, hs).presaleEnded == LastObserved(hs, PresaleEndedRead, s.presaleEnded)
  {
    RunKeepsLastObservation((t: PageState) => t.presaleEnded, PresaleEndedRead, s, hs);
  }

  /** The started flag is the value of the last successful read of it. */
  lemma PresaleStartedIsLastRead(s: PageState, hs: seq<Handler>)
    ensures Run(s, hs).presaleStarted == LastObserved(hs, PresaleStartedRead, s.presaleStarted)
  {
    RunKeepsLastObservation((t: PageState) => t.presaleStarted, PresaleStartedRead, s, hs);
  }

  /** `loading` is whatever the last acknowledged write left it at: a failed wait leaves it
      up, and only a later successful wait brings it down. No handler run reads it. */
  lemma LoadingIsLastWriteOutcome(s: PageState, hs: seq<Handler>)
    ensures Run(s, hs).loading == LastObserved(hs, LoadingSet, s.loading)
  {
    RunKeepsLastObservation((t: PageState) => t.loading, LoadingSet, s, hs);
  }
}
