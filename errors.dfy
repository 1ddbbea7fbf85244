/** The errors the command-line wallet raises, one constructor per
    distinct `throw` (or run-time type error) in the source. */
module Errors {

  datatype Error =
    /** No wallet name or special operation on the command line. */
    | UsageError
    /** A single argument that is neither `help` nor `xdr`. */
    | UnknownSpecialOp(op: string)
    /** A verb missing from the operation table: the lookup yields
        `undefined`, and calling it is a type error. */
    | NotAFunction(verb: string)
    /** `create` or `import` on a name that is already stored. */
    | AlreadyExists(name: string)
    /** `import` of a string that is neither a secret seed nor a public key. */
    | InvalidImport
    /** An asset symbol that is neither native nor in the registry
        (carries the upper-cased symbol). */
    | AssetDoesNotExist(code: string)
    /** `getAsset` of a custom code with no wallet named `master`. */
    | NoMasterAccount
    /** A field read on a wallet that is not in the store. */
    | MissingRecord
    /** The SDK refused to build a keypair from a member's seed. */
    | InvalidSecret
    /** Any failure reported by the ledger gateway. */
    | GatewayError(detail: string)
}
