/** The accessor factory `getProviderOrSigner`: connect through the wallet modal, read the
    chain id, refuse every network but Sepolia, and hand out a signer or a read-only
    provider. */
module Session {
  import opened Remote

  /** A read-only provider or a signing accessor, both bound to the chain they came from. */
  datatype Accessor = Provider(chainId: int) | Signer(chainId: int)

  /** Why no accessor was obtained: the connection failed, or the wallet is on another chain. */
  datatype AccessError = ConnectFailed | WrongNetwork(chainId: int)

  datatype Access = Granted(accessor: Accessor) | Refused(error: AccessError)

  /** The accessor request succeeds exactly on Sepolia; it yields a signer exactly when one
      was asked for, and a wrong chain id is reported as such. */
  function GetProviderOrSigner(net: Network, needSigner: bool): (r: Access)
    ensures r.Granted? <==> net == Chain(SEPOLIA_CHAIN_ID)
    ensures r.Granted? ==> r.accessor.chainId == SEPOLIA_CHAIN_ID
    ensures r.Granted? ==> (r.accessor.Signer? <==> needSigner)
    ensures net.Chain? && net.chainId != SEPOLIA_CHAIN_ID ==> r.Refused? && r.error == WrongNetwork(net.chainId)
  {
    match net
    case Unreachable => Refused(ConnectFailed)
    case Chain(chainId) =>
      if chainId != SEPOLIA_CHAIN_ID then Refused(WrongNetwork(chainId))
      else if needSigner then Granted(Signer(chainId))
      else Granted(Provider(chainId))
  }

  /** Whether the network lets any accessor request through. */
  predicate OnSepolia(net: Network) {
    net == Chain(SEPOLIA_CHAIN_ID)
  }
}
