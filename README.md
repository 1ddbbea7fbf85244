# s-cli wallet core, modelled in Dafny

s-cli is a command-line wallet for the Stellar network. It keeps named
wallets (an address, optionally the secret seed, optionally a default memo)
in a JSON file, resolves asset symbols through a registry file, and hands
every ledger operation to an external SDK. This project models the
deterministic part of it and proves properties of that model:

- the asset registry (`StellarAssets`): loading with a fallback to an
  empty table, and the case-normalising `get` with the native asset
  special-cased (`stellar_assets.dfy`);
- the wallet store (`Wallets`): the in-memory dictionary as a class with
  its enumeration order and its file image, `create` and `import` (no
  overwrite, exactly one key added, the whole store saved), `getWallets`,
  `getMasterAccount` and `getAsset` (`wallets.dfy`);
- the dispatcher (`Commands`): the network selection, the split of the
  process arguments, the verb table and the top-level decision between a
  handler run, `help`, `xdr`, a logged error and a fatal one
  (`commands.dfy`);
- the handlers with logic of their own (`Handlers`): `send` with its
  asset resolution, memo fallback, ownership warning and confirmation
  decision, and the best-effort per-member loops of `issueAsset` and
  `trustAsset` (`handlers.dfy`).

The SDK is a parameter: `Ledger.Keys` holds the key functions
(`Keypair.fromSecret` validity, `publicKey()`, `StrKey.isValidEd25519PublicKey`)
and `Handlers.Gateway` the network calls (account handle, payment, account load, trust
submission), each of which may succeed or fail. `createAccount`'s result is
an argument of `Create`. A JavaScript `undefined` is `None`, a thrown
error is an `Err`/`Fail` value of `Errors.Error`.

Some behaviour of the code differs from what its names suggest; the model
follows the code:

- Batch loops do not skip the wallet named `a`. Records written by
  `create`/`import` have no `name` field (scli.js:170, 181, 187), so for
  them `w.name == "a"` never holds; `IssuePaysWalletA` states the
  consequence.
- The `xdr` special operation is only reached when `argv[3]` is missing or
  empty, so it never receives an envelope (`EnvelopeIsNeverSupplied`); an
  envelope after `xdr` is read as a verb (`EnvelopeIsReadAsVerb`).
- The registry's `get` special-cases only an empty name and `XLM`, not
  `native` (`NativeWordIsLookedUp`); only `getAsset` accepts `native`.
- `getWallets(n)` for an unknown `n` returns a one-element list holding
  `undefined` rather than failing; the batch loops then fail on that member.
- `issueAsset` pays with the module-level `asset`, which is never assigned
  (scli.js:35), so its payments carry no asset (`None`).
- `getAsset` and `getMasterAccount` have no caller: their only use is
  commented out (scli.js:369-370). They are modelled as written.
- Both loaders catch every `require` error, so an unparseable wallet or
  asset file is treated like a missing one; after an unparseable wallet
  file, the next `create` or `import` rewrites it with the new wallet alone
  (`CreateAfterUnloadableFile`).

## Model

| member | source | states |
|---|---|---|
| `StellarAssets.Load` | stellarAssets.js:5-12 | the table is the loaded file, or empty when the file is missing or unparseable |
| `StellarAssets.Get` | stellarAssets.js:22-38 | absent/empty name and any casing of XLM give native; otherwise the upper-cased key gives its stored code and issuer, or fails with "Asset does not exist" and that key |
| `StellarAssets.EmptyNameIsNativeForAnyTable` | stellarAssets.js:22-25 | an absent or empty name gives native whatever the table holds |
| `StellarAssets.NativeCodeIsCaseInsensitive` | stellarAssets.js:27-30 | `xlm`, `Xlm`, `xLm` and `XLM` all give native |
| `StellarAssets.GetIgnoresCase` | stellarAssets.js:27-37 | a name and its upper-cased form give the same asset or the same failure |
| `StellarAssets.KnownCodeResolvesToEntry` | stellarAssets.js:27-37 | a name whose upper-cased form is a key (other than XLM) resolves to exactly that entry's code and issuer |
| `StellarAssets.ResolvedEntriesHaveUpperCaseKeys` | stellarAssets.js:27-37 | every custom asset returned comes from an upper-case key other than XLM |
| `StellarAssets.XlmEntryIsShadowed` | stellarAssets.js:27-30 | a table entry under XLM can never be returned |
| `StellarAssets.NativeWordIsLookedUp` | stellarAssets.js:27-36 | `native` is looked up as the code NATIVE, not treated as native |
| `StellarAssets.MissingFileRegistry` | stellarAssets.js:6-36 | with a missing or unparseable file exactly the native names succeed, and they give native |
| `Commands.NetworkOf` | scli.js:13-23 | the live network is chosen exactly when LIVE is "1" |
| `Commands.NetworksUseSeparateFiles` | scli.js:13-23 | the live wallet and asset files are used exactly when LIVE is "1", and the two networks never share a file |
| `Commands.SplitArgs` | scli.js:77-86 | missing/empty argv[2] is a usage error; a non-empty argv[3] makes a wallet command with argv[4..] as arguments; otherwise argv[2] is a special operation |
| `Commands.VerbNamesListTable` | scli.js:88-106 | the verbs help lists are exactly the table's keys, each once |
| `Commands.PayIsSend` | scli.js:92-94 | `pay` and `send` run the same handler |
| `Commands.Dispatch` | scli.js:108-127 | a known verb runs its handler with the wallet and the remaining arguments; the program's own top-level throws are exactly a usage error and an unknown special operation; help lists the verb names, `xdr` decodes argv[3], an unknown verb is logged as not a function, and each fatal case carries its error |
| `Commands.UnknownVerbIsLogged` | scli.js:108-114 | an unknown verb after a wallet name is caught and logged, not fatal |
| `Commands.EnvelopeIsNeverSupplied` | scli.js:121-122 | the xdr operation only ever sees a missing or empty argument |
| `Commands.EnvelopeIsReadAsVerb` | scli.js:81-83 | `xdr <envelope>` is a wallet command with the envelope as an unknown verb |
| `Wallets.WalletStore.Load` | scli.js:25-31 | the store is the parsed wallet file, or empty when the file is missing or unparseable |
| `Wallets.WalletStore.Save` | scli.js:159-162 | the file image becomes the whole store in enumeration order |
| `Wallets.LoadAfterSave` | scli.js:159-162 | reading the saved image back gives the same dictionary and order |
| `Wallets.SaveAfterLoad` | scli.js:27-28 | saving a freshly loaded store writes back the same file |
| `Wallets.OrderSize` | scli.js:277-279 | the enumeration visits as many names as the store holds |
| `Wallets.WalletStore.Insert` | scli.js:170-171 | the record is added under the new name, appended to the order, and the store is saved |
| `Wallets.WalletStore.Create` | scli.js:164-172 | an existing name fails with the store unchanged; otherwise exactly the new key is added, holding the gateway's seed and address, every other entry is kept, and the file equals the new store |
| `Wallets.ImportedRecord` | scli.js:179-189 | a valid secret gives {seed, derived address}; failing that a valid public key gives {address} without seed; anything else fails |
| `Wallets.ImportedAddressIsValid` | scli.js:180-187 | under a sound SDK every imported address is a valid public key |
| `Wallets.WalletStore.Import` | scli.js:174-192 | an existing name or an invalid string fails with the store unchanged; otherwise exactly the new key is added with the imported record and the file equals the new store |
| `Wallets.WalletStore.GetWallets` | scli.js:271-281 | `all` gives every record in enumeration order, one per stored wallet; any other name gives the one-element list of its record or undefined |
| `Wallets.CreateAfterUnloadableFile` | scli.js:25-31 | after a wallet file that could not be loaded, a successful create rewrites the file with the new wallet alone |
| `Wallets.AllGroupHoldsEachWalletOnce` | scli.js:276-280 | in the `all` group every stored wallet appears at exactly one position and no member is undefined |
| `Wallets.MasterAccount` | scli.js:320-322 | the master account is the record stored under `master`, if any |
| `Wallets.GetAsset` | scli.js:324-336 | `native`/`xlm` in any casing give native; otherwise the upper-cased code issued by master, or a failure when there is no master |
| `Wallets.GetAssetIgnoresCase` | scli.js:325-334 | a name and its upper-cased form give the same result |
| `Wallets.GetAssetIssuerIsMaster` | scli.js:329-334 | every custom asset is issued by the master wallet and has an upper-case code |
| `Handlers.PrepareSend` | scli.js:210-227 | an unknown asset fails; an unknown destination fails, before the sender's account handle is requested when no memo is given and after it otherwise; a failure to get the sender's handle fails; otherwise the payment goes from the named wallet to the destination's address with the given amount and resolved asset, the memo falls back to the destination's memo, the summary shows the same data, and the warning shows exactly when the destination has no seed |
| `Handlers.Confirm` | scli.js:236-246 | exactly the line `y` makes the one payment; any other line cancels with no payment |
| `Handlers.Send` | scli.js:210-249 | send fails exactly when preparation fails, and otherwise ends as the confirmation decides |
| `Handlers.SendPaysOnlyOnYes` | scli.js:236-245 | a send pays at most once, pays exactly on `y`, and pays the destination's stored address |
| `Handlers.SendFromAToB` | scli.js:210-245 | when the gateway gives `a`'s account handle, sending 10 XLM from a seeded `a` to an address-only `b` warns, cancels on `n` with no call, and on `y` pays `b`'s address once in the native asset |
| `Handlers.IssueStep` | scli.js:255-267 | an undefined member fails at the field read; every stored member, `a` included, asks for wallet `a`'s account handle and, when that succeeds, gets a payment from `a` with no memo and no asset |
| `Handlers.IssueAsset` | scli.js:251-269 | the amount defaults to 1000; one attempt per group member, in order, each independent of earlier failures |
| `Handlers.IssuePaysWalletA` | scli.js:257-262 | the wallet stored under `a` is not skipped: it is paid like any other member whenever `a`'s account handle is obtained |
| `Handlers.TrustStep` | scli.js:293-316 | a change is submitted exactly when the member exists, its account loads and its seed is a valid secret; it is signed with that seed; otherwise the iteration fails |
| `Handlers.TrustAsset` | scli.js:283-318 | an unknown asset fails before any member; otherwise the limit defaults to 1000000 and there is one attempt per group member, in order, each independent of earlier failures |
| `Handlers.AddressOnlyMembersNeverSubmit` | scli.js:309-311 | a member without a seed never submits a change |

## Left out

- The handlers that only forward to the SDK (`balance`, `info`, `tx`,
  `offer`, `offerdel`, `clearOffers`, `domain`, `pathxlm`, `test`,
  `encode`): they appear as verbs of the table only; their bodies are
  network calls, console output, or a shell-out to `openssl`.
- `Wallet.getTransactions` and XDR decoding: SDK work.
- File I/O: the wallet and asset files enter as already-parsed values,
  `None` standing for a file that is missing or does not parse; saving is
  the `saved` image of the store, which is `None` after a failed load even
  when an unparseable file is still on disk.
- Commands.Dispatch: the `xdr` branch decodes its argument outside any
  `try`, so an SDK error there also ends the process; only the program's
  own throws are modelled as `Fatal`.
- Handlers.TrustStep: building the `changeTrust` transaction (which may
  reject the limit) is folded into `submitTrust`, after the keypair check,
  although the source builds it before the keypair.
- Wallets.WalletStore.Load: requires the parsed file to have distinct
  member names, as any parsed JSON object has. Every member of the file is
  a record `{seed?, address, memo?}`: null or other non-object members,
  records without `address`, and extra fields such as `name` are not
  modelled. So a falsy member, which `create`/`import` would overwrite
  (the `if (wallets[name])` tests at scli.js:165 and 175), and a
  hand-written record with `"name": "a"`, which the batch loops would
  skip (scli.js:257, 295), are outside the model.
- Wallets.WalletStore.Create: the gateway's `createAccount` result is an
  argument, so the model cannot say that the gateway is not called when
  the name already exists; it only says that the result is then ignored.
- The readline prompt and `process.exit` in `send` and `getAccount`: only
  the decision on the line read is modelled.
- Asynchrony: the handlers are `async`, so their errors become rejected
  promises reported by the `unhandledRejection` hook rather than the
  surrounding `try`/`catch`; the model returns the error as a value.
- Case conversion covers the ASCII letters only; Unicode case mapping of
  `toUpperCase`/`toLowerCase` is not modelled.
- Names that are properties of `Object.prototype` (`constructor`,
  `toString`, ...) used as wallet names or verbs: JavaScript finds
  inherited members there, which the map model does not have.
- Enumeration order is insertion order; JavaScript's rule that
  integer-like keys are enumerated first, in ascending order, is not
  modelled.
- The SDK's validation inside `new Asset(code, issuer)` (code format,
  issuer key) and non-object values in the asset file.
- Handlers.Gateway: the gateway is a function of the request, so two
  identical requests get the same outcome; the network's
  nondeterminism between identical calls is not modelled.
- Console output and logging, beyond the summary, the ownership warning
  and the cancellation decision of `send`.
