/** The parts of the ledger SDK that the wallet logic depends on, left
    abstract: assets as values, and the key functions as parameters. */
module Ledger {

  /** `StellarSdk.Asset`: the native currency or a (code, issuer) pair. */
  datatype Asset = Native | Credit(code: string, issuer: string)

  /** `asset.code`: the SDK reports the native asset's code as `XLM`. */
  function Code(a: Asset): string
  {
    match a
    case Native => "XLM"
    case Credit(code, _) => code
  }

  /** The key handling of the SDK, which the model does not look inside:
      `isValidSecret(s)` holds when `Keypair.fromSecret(s)` succeeds,
      `publicKeyOf(s)` is that keypair's `publicKey()`, and
      `isValidPublicKey(s)` is `StrKey.isValidEd25519PublicKey(s)`. */
  datatype Keys = Keys(
    isValidSecret: string -> bool,
    publicKeyOf: string -> string,
    isValidPublicKey: string -> bool)
}
