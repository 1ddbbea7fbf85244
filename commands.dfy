/** The top-level decisions of scli.js: which network's files are used,
    how the process arguments split into a wallet command or a special
    operation, and the verb table (`operationMap`). */
module Commands {
  import opened Wrappers
  import opened Errors

  /** The network chosen once at start-up from the `LIVE` environment variable. */
  datatype Network = LiveNet | TestNet

  function NetworkOf(live: Option<string>): (n: Network)
    ensures n == LiveNet <==> live == Some("1")
  {
    if live == Some("1") then LiveNet else TestNet
  }

  function WalletFile(n: Network): string
  {
    match n
    case LiveNet => "./config/wallets_live.json"
    case TestNet => "./config/wallets.json"
  }

  function AssetsFile(n: Network): string
  {
    match n
    case LiveNet => "./config/assets_live.json"
    case TestNet => "./config/assets.json"
  }

  /** The live and the test network never share a wallet file or an
      asset file. */
  lemma NetworksUseSeparateFiles(live: Option<string>)
    ensures WalletFile(NetworkOf(live)) == "./config/wallets_live.json" <==> live == Some("1")
    ensures AssetsFile(NetworkOf(live)) == "./config/assets_live.json" <==> live == Some("1")
    ensures WalletFile(LiveNet) != WalletFile(TestNet)
    ensures AssetsFile(LiveNet) != AssetsFile(TestNet)
  {
  }

  /** JavaScript truthiness of an optional string argument: present and
      not empty. */
  predicate Truthy(a: Option<string>)
  {
    a.Some? && a.value != ""
  }

  /** `a || fallback` for an optional string argument. */
  function OrDefault(a: Option<string>, fallback: string): (r: string)
    ensures Truthy(a) ==> r == a.value
    ensures !Truthy(a) ==> r == fallback
  {
    if Truthy(a) then a.value else fallback
  }

  /** `argv[i]`, `undefined` past the end. */
  function Arg(argv: seq<string>, i: nat): (a: Option<string>)
    ensures a.Some? <==> i < |argv|
    ensures a.Some? ==> a.value == argv[i]
  {
    if i < |argv| then Some(argv[i]) else None
  }

  /** One handler per entry of the verb table. */
  datatype Verb =
    | Create | Import | Balance | Send | Info | Tx | Encode | Trust | Issue
    | Offer | OfferDel | PathToNative | Test | ClearOffers | Domain

  /** `operationMap`. The source's object literal names `send` twice; a
      JavaScript object keeps one member, bound to the same handler. */
  const OperationMap: map<string, Verb> := map[
    "create" := Create,
    "import" := Import,
    "balance" := Balance,
    "send" := Send,
    "pay" := Send,
    "info" := Info,
    "tx" := Tx,
    "encode" := Encode,
    "trust" := Trust,
    "issue" := Issue,
    "offer" := Offer,
    "offerdel" := OfferDel,
    "pathxlm" := PathToNative,
    "test" := Test,
    "clearOffers" := ClearOffers,
    "domain" := Domain
  ]

  /** The keys of `operationMap` in enumeration order, as `help` prints
      them: a repeated member keeps the position of its first occurrence. */
  const VerbNames: seq<string> := [
    "create", "import", "balance", "send", "pay", "info", "tx", "encode",
    "trust", "issue", "offer", "offerdel", "pathxlm", "test", "clearOffers", "domain"
  ]

  /** `help` lists exactly the verbs of the table, each once. */
  lemma VerbNamesListTable()
    ensures forall v :: v in OperationMap <==> v in VerbNames
    ensures forall i, j :: 0 <= i < j < |VerbNames| ==> VerbNames[i] != VerbNames[j]
  {
  }

  /** `pay` and `send` run the same handler. */
  lemma PayIsSend()
    ensures OperationMap["pay"] == OperationMap["send"] == Send
  {
  }

  /** The split of the process arguments (`argv[0]` is the interpreter,
      `argv[1]` the script). */
  datatype Invocation =
    | WalletCommand(wallet: string, verb: string, args: seq<string>)
    | SpecialCommand(op: string, arg: Option<string>)

  /** A missing or empty `argv[2]` is a usage error. A non-empty `argv[3]`
      makes `argv[2]` a wallet name and `argv[3]` a verb, with the rest
      passed on; otherwise `argv[2]` is a special operation, which may
      read `argv[3]`. */
  function SplitArgs(argv: seq<string>): (r: Result<Invocation, Error>)
    ensures r.Err? <==> !Truthy(Arg(argv, 2))
    ensures r.Err? ==> r.error == UsageError
    ensures r.Ok? && r.value.WalletCommand? ==>
      |argv| >= 4 && r.value.wallet == argv[2] != "" && r.value.verb == argv[3] != "" &&
      r.value.args == argv[4..]
    ensures r.Ok? && r.value.SpecialCommand? ==>
      r.value.op == argv[2] != "" && r.value.arg == Arg(argv, 3) && !Truthy(Arg(argv, 3))
    ensures r.Ok? ==> (r.value.WalletCommand? <==> Truthy(Arg(argv, 3)))
  {
    if !Truthy(Arg(argv, 2)) then Err(UsageError)
    else if Truthy(Arg(argv, 3)) then Ok(WalletCommand(argv[2], argv[3], argv[4..]))
    else Ok(SpecialCommand(argv[2], Arg(argv, 3)))
  }

  /** What one invocation of the program does. */
  datatype Action =
    /** Run a verb's handler on a wallet name and the remaining arguments. */
    | Run(verb: Verb, wallet: string, args: seq<string>)
    /** `help`: print the verb names. */
    | ListVerbs(names: seq<string>)
    /** `xdr`: decode and print the argument as a transaction envelope. */
    | DecodeEnvelope(envelope: Option<string>)
    /** An error caught around the handler call and logged. */
    | Logged(error: Error)
    /** An error thrown at top level, which ends the process. */
    | Fatal(error: Error)

  /** The top-level dispatch of the program. */
  function Dispatch(argv: seq<string>): (a: Action)
    ensures a.Run? <==> Truthy(Arg(argv, 2)) && Truthy(Arg(argv, 3)) && argv[3] in OperationMap
    ensures a.Run? ==>
      |argv| >= 4 && argv[3] in OperationMap &&
      a.verb == OperationMap[argv[3]] && a.wallet == argv[2] && a.args == argv[4..]
    ensures a.Fatal? <==>
      !Truthy(Arg(argv, 2)) || (!Truthy(Arg(argv, 3)) && argv[2] != "help" && argv[2] != "xdr")
    ensures a.ListVerbs? ==> a.names == VerbNames
    ensures !Truthy(Arg(argv, 2)) ==> a == Fatal(UsageError)
    ensures Truthy(Arg(argv, 2)) && Truthy(Arg(argv, 3)) && argv[3] !in OperationMap ==>
      a == Logged(NotAFunction(argv[3]))
    ensures Truthy(Arg(argv, 2)) && !Truthy(Arg(argv, 3)) ==>
      && (argv[2] == "help" ==> a == ListVerbs(VerbNames))
      && (argv[2] == "xdr" ==> a == DecodeEnvelope(Arg(argv, 3)))
      && (argv[2] != "help" && argv[2] != "xdr" ==> a == Fatal(UnknownSpecialOp(argv[2])))
  {
    match SplitArgs(argv)
    case Err(e) => Fatal(e)
    case Ok(WalletCommand(wallet, verb, args)) =>
      if verb in OperationMap then Run(OperationMap[verb], wallet, args)
      else Logged(NotAFunction(verb))
    case Ok(SpecialCommand(op, arg)) =>
      if op == "help" then ListVerbs(VerbNames)
      else if op == "xdr" then DecodeEnvelope(arg)
      else Fatal(UnknownSpecialOp(op))
  }

  /** A mistyped verb after a wallet name is caught and logged; it never
      ends the process with an uncaught error. */
  lemma UnknownVerbIsLogged(argv: seq<string>)
    requires Truthy(Arg(argv, 2)) && Truthy(Arg(argv, 3)) && argv[3] !in OperationMap
    ensures Dispatch(argv) == Logged(NotAFunction(argv[3]))
  {
  }

  /** `xdr` reads `argv[3]` only on the branch where `argv[3]` is missing or
      empty, so it is never handed an envelope to decode. */
  lemma EnvelopeIsNeverSupplied(argv: seq<string>)
    requires Dispatch(argv).DecodeEnvelope?
    ensures Dispatch(argv).envelope == None || Dispatch(argv).envelope == Some("")
  {
  }

  /** `xdr` followed by an envelope is read as a wallet named `xdr` with
      the envelope as its verb. */
  lemma EnvelopeIsReadAsVerb(envelope: string)
    requires envelope != "" && envelope !in OperationMap
    ensures Dispatch(["node", "scli.js", "xdr", envelope]) == Logged(NotAFunction(envelope))
  {
  }
}
