/** Values that cross the boundary between the page and the outside world: the wallet
    connector, the network and the NFT contract. None of these is modelled itself; each
    remote step only contributes its answer (a value, or the error it throws). */
module Remote {

  /** The answer of one remote call: the value it resolved with, or a thrown error. */
  datatype Outcome<+T> = Ok(value: T) | Failed

  /** A value that may be absent (JavaScript `undefined`). */
  datatype Option<+T> = None | Some(value: T)

  /** Chain id of the Sepolia test network, the only network the page accepts. */
  const SEPOLIA_CHAIN_ID: int := 11155111

  /** The payment attached to a presale or public mint, 0.01 ether, in wei. */
  const MINT_PRICE_WEI: nat := 10_000_000_000_000_000

  /** What the wallet modal's `connect` followed by `getNetwork` yields: the modal is
      dismissed or either call throws (`Unreachable`), or the wallet reports a chain id. */
  datatype Network = Unreachable | Chain(chainId: int)

  /** The answers the wallet and the contract give during one handler run.
      `presaleEnded` is the contract's end timestamp in seconds; `account` is what the
      signer's `getAddress` yields; `tokenIds` is the number of tokens minted so far. */
  datatype Reads = Reads(
    net: Network,
    presaleStarted: Outcome<bool>,
    presaleEnded: Outcome<nat>,
    owner: Outcome<string>,
    account: Outcome<string>,
    tokenIds: Outcome<nat>)

  /** How a state-changing contract call fares: the submission is rejected or throws,
      the submission is acknowledged but `wait` throws, or both succeed. */
  datatype Tx = SubmitFailed | WaitFailed | Mined

  /** The state-changing contract calls the page submits, with the value they carry. */
  datatype ContractCall = PresaleMintCall(value: nat) | MintCall(value: nat) | StartPresaleCall
}
