# NFT presale page: state machine and button selector

This project models the home page of the Crypto Devs NFT minting client
(`client/src/pages/index.js`). The page keeps six pieces of React state: wallet
connected, presale started, presale ended, loading, is-owner, and tokens minted.
Asynchronous handlers update that state from the answers of the wallet connector and
the NFT contract. `renderButton` turns the state into the one affordance the user sees.

The model has four parts.

- `Session.GetProviderOrSigner` is the accessor factory. It refuses every chain but
  Sepolia (chain id 11155111) and gives a signer only when one is asked for.
- `Page` holds the state as a value and gives each handler run an effect on it.
  A handler run is a `Handler` event carrying the answers its remote steps got.
  `Run` folds a sequence of runs. The lemmas there cover whole sessions: failures
  change nothing; `walletConnected` and `isOwner` only ever become true; every other
  field holds the last value observed.
- `Selector.RenderButton` is the first-match-wins chain of `renderButton`.
- `Home.HomePage` is the component as a class with the six fields. It has one method
  per handler. Each method performs the JavaScript handler's steps in order and takes the
  remote answers as parameters. A thrown error becomes an early return where the
  handler's `catch` block takes over. Each method's postcondition equates the new state with
  `Page.Apply` of the old state, so the session lemmas hold of any sequence of calls.

Two behaviours of the code are worth knowing.

- The handlers never read `loading`, so nothing stops a second write while one is
  pending. A failed `wait` leaves `loading` up. The loading button has no click handler
  (`index.js:259-265`), so no new write can start from the page. Only a write submitted
  earlier, whose `wait` is still pending, can bring `loading` down again.
  `Selector.FailedWaitKeepsLoading` proves that the loading button stays while no write is
  mined. `Selector.ButtonDrivenSessionStaysLoading` proves that a session which starts
  writes only from the rendered button, besides the polls, stays on it for good.
- `index.js:134` tests `endTimestamp < floor(now / 1000)`, which is strict, so the page
  says "not ended" throughout the end second itself (`Sale.NotEndedAtEndSecond`).

## Model

| member | source | states |
|---|---|---|
| `Session.GetProviderOrSigner` | client/src/pages/index.js:191-208 | an accessor is granted exactly on chain 11155111; it is a signer exactly when `needSigner`; any other chain id is reported as a wrong-network error |
| `Addresses.LowerChar` | client/src/pages/index.js:164 | upper-case ASCII letters map to their lower-case letter, every other character is kept |
| `Addresses.ToLower` | client/src/pages/index.js:164 | `toLowerCase` keeps the length and lower-cases every position |
| `Addresses.SameAddressPointwise` | client/src/pages/index.js:164 | the owner comparison holds exactly when both addresses have the same length and agree at every position ignoring case |
| `Addresses.ToLowerIdempotent` | client/src/pages/index.js:164 | lower-casing twice is lower-casing once |
| `Addresses.SameAddressIsEquivalence` | client/src/pages/index.js:164 | the case-insensitive comparison is reflexive, symmetric and transitive, and an address matches its lower-cased form |
| `Sale.NowSeconds` | client/src/pages/index.js:134 | `Math.floor(Date.now() / 1000)` is the whole second that contains the millisecond time |
| `Sale.HasEnded` | client/src/pages/index.js:132-134 | the presale counts as ended exactly when the time in milliseconds is at least (end timestamp + 1) * 1000 |
| `Sale.EndedStaysEnded` | client/src/pages/index.js:134 | for one end timestamp, the projection can only flip from not ended to ended as time advances |
| `Sale.NotEndedAtEndSecond` | client/src/pages/index.js:134 | during the end second itself the strict comparison still says not ended |
| `Page.RunSnoc` | client/src/pages/index.js:32-189 | running one more handler after a session is applying its effect to the session's final state |
| `Page.FailuresChangeNothing` | client/src/pages/index.js:32-189 | any sequence of handler runs that each fail before any setter runs leaves the whole page state unchanged |
| `Page.OwnerFlagIsSticky` | client/src/pages/index.js:147-170 | after any session `isOwner` is true exactly when it was before or some run found the signer address equal to the owner ignoring case; it is never set back to false |
| `Page.ConnectionIsSticky` | client/src/pages/index.js:73-81 | after any session the wallet counts as connected exactly when it did before or some `connectWallet` run reached Sepolia |
| `Page.RunKeepsLastObservation` | client/src/pages/index.js:109-189 | a field that every handler run either overwrites with what it observed or leaves alone holds the last observation after any session |
| `Page.MintedCountIsLastRead` | client/src/pages/index.js:173-189 | the minted count is the value of the last successful `tokenIds` read, or the previous count if none succeeded |
| `Page.PresaleEndedIsLastProjection` | client/src/pages/index.js:126-145 | the ended flag is the projection computed at the last successful end-timestamp read |
| `Page.PresaleStartedIsLastRead` | client/src/pages/index.js:109-123 | the started flag is the last successful read of it, including the re-read after a mined `startPresale` |
| `Page.LoadingIsLastWriteOutcome` | client/src/pages/index.js:32-105 | `loading` is up exactly when the last acknowledged write's `wait` failed, or as before if no write was acknowledged; reads and failed submissions never touch it |
| `Selector.RenderButton` | client/src/pages/index.js:248-309 | some affordance is always rendered, so the fall-through is unreachable; the one rendered is the first whose condition holds |
| `Selector.FirstMatchIsUnique` | client/src/pages/index.js:248-309 | at most one affordance is the first match |
| `Selector.RenderButtonIsFirstMatch` | client/src/pages/index.js:248-309 | the selector renders an affordance exactly when it is the first match |
| `Selector.ConnectComesFirst` | client/src/pages/index.js:250-256 | without a wallet the connect button is rendered and invokes `connectWallet`, whatever the other flags |
| `Selector.LoadingComesSecond` | client/src/pages/index.js:259-265 | connected and loading renders the loading button with no handler, whatever the owner and phase flags |
| `Selector.PhaseDecides` | client/src/pages/index.js:268-308 | past connection and loading: not started gives start-presale to the owner and the notice to others; started gives presale mint or public mint by the ended flag |
| `Selector.MinedStartPresaleOffersMint` | client/src/pages/index.js:94-101 | a mined `startPresale` whose re-read sees the presale started replaces the start button by a mint button at once |
| `Selector.FailedWaitKeepsLoading` | client/src/pages/index.js:41-46 | with `loading` up and no write mined afterwards, every state the session reaches shows the inert loading button |
| `Selector.ButtonDrivenSessionStaysLoading` | client/src/pages/index.js:259-265 | once `loading` is up, a session whose writes all come from the rendered button's click handler, besides the polls, keeps `loading` up and shows the loading button for good |
| `Home.HomePage.constructor` | client/src/pages/index.js:11-26 | all flags start false and the minted count at zero |
| `Home.HomePage.PresaleMint` | client/src/pages/index.js:32-53 | sends `presaleMint` paying 0.01 ether when a signer is granted; `loading` rises once submitted and falls once `wait` succeeds, and is otherwise unchanged; nothing else changes |
| `Home.HomePage.PublicMint` | client/src/pages/index.js:56-70 | the same lifecycle around the public `mint` paying 0.01 ether |
| `Home.HomePage.ConnectWallet` | client/src/pages/index.js:73-81 | the wallet becomes connected exactly when a provider on Sepolia is had; nothing else changes |
| `Home.HomePage.StartPresale` | client/src/pages/index.js:84-105 | sends `startPresale`; the `loading` lifecycle; after a mined transaction the started flag is re-read at once |
| `Home.HomePage.CheckIfPresaleStarted` | client/src/pages/index.js:109-123 | returns the flag read, or false on failure; on success records it, resolving ownership first when it is false; on failure changes nothing |
| `Home.HomePage.CheckIfPresaleEnded` | client/src/pages/index.js:126-145 | returns and records whether the end timestamp lies before the current whole second; on failure returns false and changes nothing |
| `Home.HomePage.GetOwner` | client/src/pages/index.js:147-170 | `isOwner` becomes true when the signer address equals the owner ignoring case, and is otherwise unchanged |
| `Home.HomePage.GetTokenIdsMinted` | client/src/pages/index.js:173-189 | records the minted count on a successful read, otherwise keeps it |

## Left out

- The two `setInterval` polling loops and the `useEffect` that starts them (`index.js:211-245`) are left out. They are timer scheduling and interleaving of asynchronous calls, not sequential logic. The effect calls `checkIfPresaleEnded` whatever the started check returns, because it tests an un-awaited Promise, which is always truthy. The interval likewise stops on the first tick that reads the presale as started. Every handler run the loops make is still a `Page.Handler` event, so the session lemmas cover any order of them.
- Interleaving inside one handler is not modelled. Each handler run is atomic, and all its accessor requests see one network outcome (`Reads.net`, or `net` for writes).
- The wallet connector, the ethers provider and signer, and the contract are not modelled. Their answers are parameters of each handler: a value or a thrown error. No ledger is modelled.
- `window.alert` and `console.error` notices are left out. They are output only and change no state.
- The JSX markup, the CSS classes and the "/20 have been minted" text are presentation. The maximum supply of 20 is not enforced anywhere in the client.
- `setTokenIdsMinted` stores the count's decimal string. The model stores the number.
- `toLowerCase` is modelled on ASCII letters only. Account addresses are hexadecimal strings, and full Unicode case mapping is not modelled.
- `backend/scripts/deploy.js` is not part of this model. It is a one-shot deployment script with no runtime logic.
