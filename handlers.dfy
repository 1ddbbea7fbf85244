/** The verb handlers of scli.js whose own logic goes beyond one SDK call:
    `send` (defaults and the confirmation decision), and the best-effort
    batch loops of `issueAsset` and `trustAsset`. The ledger gateway is a
    parameter whose calls may succeed or fail. */
module Handlers {
  import opened Wrappers
  import opened Errors
  import opened Ledger
  import opened Wallets
  import opened Commands
  import StellarAssets

  type TxId = string

  /** `stellarServer.getAccount(source).sendPayment(destination, amount, memo, asset)`;
      an absent asset is JavaScript's `undefined`. */
  datatype Payment = Payment(
    source: Option<Wallet>,
    destination: string,
    amount: Option<string>,
    memo: Option<string>,
    asset: Option<Asset>)

  /** A `changeTrust` transaction for `account`, signed with `signer`. */
  datatype TrustChange = TrustChange(account: string, signer: string, asset: Asset, limit: string)

  /** The ledger gateway, left abstract: each call may succeed or fail.
      `getAccount` is `stellarServer.getAccount(wallet)`, which builds the
      account handle for a record that may be `undefined`; `submitTrust`
      stands for building, signing and submitting a `changeTrust`
      transaction together. */
  datatype Gateway = Gateway(
    getAccount: Option<Wallet> -> Outcome<Error>,
    sendPayment: Payment -> Result<TxId, Error>,
    loadAccount: string -> Outcome<Error>,
    submitTrust: TrustChange -> Outcome<Error>)

  /** `wallets[x]` for an optional argument: JavaScript turns an
      `undefined` key into the string "undefined". */
  function KeyOf(a: Option<string>): (k: string)
    ensures a.Some? ==> k == a.value
  {
    if a.Some? then a.value else "undefined"
  }

  /** The trust limit used when none is given. */
  const DefaultLimit := "1000000"

  /** The amount issued when none is given. */
  const DefaultIssueAmount := "1000"

  // ---------------------------------------------------------------- send

  /** What `send` shows before asking for confirmation. */
  datatype Summary = Summary(
    destination: Option<string>,
    address: string,
    amount: Option<string>,
    code: string,
    memo: Option<string>,
    warnNoSeed: bool)

  /** A prepared `send`: the summary shown and the payment it would make. */
  datatype SendPlan = SendPlan(summary: Summary, payment: Payment)

  /** The part of `send` before the prompt: resolve the asset, find the
      destination wallet, fall back to its memo, get the sender's account
      handle (for a sender that may be `undefined`), and decide on the
      ownership warning. A missing destination fails at the memo fallback
      when no memo is given, and otherwise after the account handle is
      obtained, when its address is read. */
  function PrepareSend(
    wallets: map<string, Wallet>, reg: StellarAssets.Registry, name: string,
    destination: Option<string>, amount: Option<string>, assetName: Option<string>,
    memo: Option<string>, gw: Gateway): (r: Result<SendPlan, Error>)
    ensures StellarAssets.Get(reg, assetName).Err? ==> r == Err(StellarAssets.Get(reg, assetName).error)
    ensures StellarAssets.Get(reg, assetName).Ok? && KeyOf(destination) !in wallets && !Truthy(memo) ==>
      r == Err(MissingRecord)
    ensures StellarAssets.Get(reg, assetName).Ok? && (KeyOf(destination) in wallets || Truthy(memo)) ==>
      (if gw.getAccount(Lookup(wallets, name)).Fail?
       then r == Err(gw.getAccount(Lookup(wallets, name)).error)
       else (KeyOf(destination) !in wallets ==> r == Err(MissingRecord)))
    ensures r.Ok? <==>
      && StellarAssets.Get(reg, assetName).Ok?
      && KeyOf(destination) in wallets
      && gw.getAccount(Lookup(wallets, name)).Pass?
    ensures r.Ok? ==>
      var dest := wallets[KeyOf(destination)];
      var p := r.value.payment;
      && p.source == Lookup(wallets, name)
      && p.destination == dest.address
      && p.amount == amount
      && p.asset == Some(StellarAssets.Get(reg, assetName).value)
      && (Truthy(memo) ==> p.memo == memo)
      && (!Truthy(memo) ==> p.memo == dest.memo)
      && r.value.summary == Summary(destination, p.destination, amount, Code(p.asset.value), p.memo, r.value.summary.warnNoSeed)
      && (r.value.summary.warnNoSeed <==> !Truthy(dest.seed))
  {
    match StellarAssets.Get(reg, assetName)
    case Err(e) => Err(e)
    case Ok(asset) =>
      var destWallet := Lookup(wallets, KeyOf(destination));
      if destWallet.None? && !Truthy(memo) then Err(MissingRecord)
      else
        var source := Lookup(wallets, name);
        match gw.getAccount(source)
        case Fail(e) => Err(e)
        case Pass =>
          match destWallet
          case None => Err(MissingRecord)
          case Some(dest) =>
            var chosenMemo := if Truthy(memo) then memo else dest.memo;
            var payment := Payment(source, dest.address, amount, chosenMemo, Some(asset));
            Ok(SendPlan(Summary(destination, dest.address, amount, Code(asset), chosenMemo, !Truthy(dest.seed)), payment))
  }

  /** How a `send` ends. */
  datatype SendResult = Sent(txId: TxId) | SendFailed(error: Error) | Cancelled

  /** The gateway calls a `send` made and how it ended. */
  datatype SendRun = SendRun(payments: seq<Payment>, result: SendResult)

  /** The decision on the line read at the prompt: only exactly `y` pays. */
  function Confirm(plan: SendPlan, line: string, gw: Gateway): (r: SendRun)
    ensures line == "y" ==> r.payments == [plan.payment]
    ensures line != "y" ==> r.payments == [] && r.result == Cancelled
    ensures r.result.Cancelled? <==> line != "y"
    ensures r.result.Sent? ==> gw.sendPayment(plan.payment) == Ok(r.result.txId)
    ensures r.result.SendFailed? ==> gw.sendPayment(plan.payment) == Err(r.result.error)
  {
    if line == "y" then
      match gw.sendPayment(plan.payment)
      case Ok(id) => SendRun([plan.payment], Sent(id))
      case Err(e) => SendRun([plan.payment], SendFailed(e))
    else SendRun([], Cancelled)
  }

  /** `send(name, destination, amount, assetName, memo)` answered with `line`. */
  function Send(
    wallets: map<string, Wallet>, reg: StellarAssets.Registry, name: string,
    destination: Option<string>, amount: Option<string>, assetName: Option<string>,
    memo: Option<string>, line: string, gw: Gateway): (r: Result<SendRun, Error>)
    ensures r.Err? <==> PrepareSend(wallets, reg, name, destination, amount, assetName, memo, gw).Err?
    ensures r.Ok? ==> r.value == Confirm(PrepareSend(wallets, reg, name, destination, amount, assetName, memo, gw).value, line, gw)
  {
    match PrepareSend(wallets, reg, name, destination, amount, assetName, memo, gw)
    case Err(e) => Err(e)
    case Ok(plan) => Ok(Confirm(plan, line, gw))
  }

  /** A `send` pays at most once, and pays exactly when it got as far as
      the prompt and the line was `y`; the payment goes to the
      destination wallet's stored address. */
  lemma SendPaysOnlyOnYes(
    wallets: map<string, Wallet>, reg: StellarAssets.Registry, name: string,
    destination: Option<string>, amount: Option<string>, assetName: Option<string>,
    memo: Option<string>, line: string, gw: Gateway)
    requires Send(wallets, reg, name, destination, amount, assetName, memo, line, gw).Ok?
    ensures var run := Send(wallets, reg, name, destination, amount, assetName, memo, line, gw).value;
      && |run.payments| <= 1
      && (|run.payments| == 1 <==> line == "y")
      && (|run.payments| == 1 ==> run.payments[0].destination == wallets[KeyOf(destination)].address)
  {
  }

  /** A store with a seeded wallet `a` and an address-only wallet `b`:
      once the gateway gives the sender's account handle, sending 10 XLM
      from `a` to `b` shows `b`'s address with the ownership warning; the
      answer `n` cancels without a gateway call, and `y` makes exactly one
      payment of the native asset to `b`'s address. */
  lemma SendFromAToB(reg: StellarAssets.Registry, gw: Gateway)
    requires gw.getAccount(Some(Wallet(Some("SA"), "GA", None))).Pass?
    ensures
      var a := Wallet(Some("SA"), "GA", None);
      var wallets := map["a" := a, "b" := Wallet(None, "GB", None)];
      var plan := PrepareSend(wallets, reg, "a", Some("b"), Some("10"), Some("XLM"), None, gw);
      && plan.Ok?
      && plan.value.summary == Summary(Some("b"), "GB", Some("10"), "XLM", None, true)
      && Confirm(plan.value, "n", gw) == SendRun([], Cancelled)
      && Confirm(plan.value, "y", gw).payments == [Payment(Some(a), "GB", Some("10"), None, Some(Native))]
  {
    StellarAssets.NativeCodeIsCaseInsensitive(reg);
  }

  // --------------------------------------------------------------- issue

  /** One iteration of the `issueAsset` loop. */
  datatype IssueAttempt = IssueAttempt(payment: Option<Payment>, result: Result<TxId, Error>)

  /** A member that is `undefined` fails at the `w.name` read. A stored
      record has no `name` field, so the `w.name == "a"` skip never fires:
      every member gets the account handle of wallet `a` and, when that
      succeeds, a payment from it. The asset passed is the module-level
      `asset`, which nothing ever assigns. */
  function IssueStep(wallets: map<string, Wallet>, member: Option<Wallet>, amount: string, gw: Gateway): (a: IssueAttempt)
    ensures a.payment.Some? <==> member.Some? && gw.getAccount(Lookup(wallets, "a")).Pass?
    ensures member.None? ==> a.result == Err(MissingRecord)
    ensures member.Some? && gw.getAccount(Lookup(wallets, "a")).Fail? ==>
      a.result == Err(gw.getAccount(Lookup(wallets, "a")).error)
    ensures a.payment.Some? ==>
      && a.payment.value == Payment(Lookup(wallets, "a"), member.value.address, Some(amount), None, None)
      && a.result == gw.sendPayment(a.payment.value)
  {
    match member
    case None => IssueAttempt(None, Err(MissingRecord))
    case Some(w) =>
      var source := Lookup(wallets, "a");
      match gw.getAccount(source)
      case Fail(e) => IssueAttempt(None, Err(e))
      case Pass =>
        var payment := Payment(source, w.address, Some(amount), None, None);
        IssueAttempt(Some(payment), gw.sendPayment(payment))
  }

  /** `issueAsset(name, amount)`: one attempt per member of the group,
      in order; a failing member does not stop the ones after it. */
  method IssueAsset(store: WalletStore, name: string, amount: Option<string>, gw: Gateway)
    returns (group: seq<Option<Wallet>>, log: seq<IssueAttempt>)
    requires store.Valid()
    ensures IsGroup(store.wallets, store.order, name, group)
    ensures |log| == |group|
    ensures forall i :: 0 <= i < |group| ==>
      log[i] == IssueStep(store.wallets, group[i], OrDefault(amount, DefaultIssueAmount), gw)
  {
    var value := OrDefault(amount, DefaultIssueAmount);
    group := store.GetWallets(name);
    log := [];
    var i := 0;
    while i < |group|
      invariant 0 <= i <= |group|
      invariant |log| == i
      invariant forall j :: 0 <= j < i ==> log[j] == IssueStep(store.wallets, group[j], value, gw)
    {
      log := log + [IssueStep(store.wallets, group[i], value, gw)];
      i := i + 1;
    }
  }

  /** The wallet stored under `a` is paid like any other member of the
      `all` group: the skip meant for it compares a field records lack. */
  lemma IssuePaysWalletA(store: WalletStore, amount: string, gw: Gateway, group: seq<Option<Wallet>>, i: int)
    requires store.Valid() && "a" in store.wallets
    requires IsGroup(store.wallets, store.order, "all", group)
    requires 0 <= i < |group| && store.order[i] == "a"
    ensures IssueStep(store.wallets, group[i], amount, gw).payment ==
      if gw.getAccount(Some(store.wallets["a"])).Pass?
      then Some(Payment(Some(store.wallets["a"]), store.wallets["a"].address, Some(amount), None, None))
      else None
  {
  }

  // --------------------------------------------------------------- trust

  /** One iteration of the `trustAsset` loop: the change submitted, if the
      loop got that far, and how the iteration ended. */
  datatype TrustAttempt = TrustAttempt(change: Option<TrustChange>, result: Outcome<Error>)

  /** A member that is `undefined` fails at the `w.name` read; otherwise
      the account is loaded, a keypair is built from the member's own seed,
      and the `changeTrust` transaction is built, signed and submitted. The
      build (which may reject the limit) comes before the keypair in the
      source; the model folds it into `submitTrust`, so a member whose seed
      is invalid reports `InvalidSecret` even where the build would have
      failed first. */
  function TrustStep(member: Option<Wallet>, asset: Asset, limit: string, keys: Keys, gw: Gateway): (a: TrustAttempt)
    ensures a.change.Some? <==>
      && member.Some?
      && gw.loadAccount(member.value.address).Pass?
      && member.value.seed.Some?
      && keys.isValidSecret(member.value.seed.value)
    ensures a.change.Some? ==>
      && a.change.value == TrustChange(member.value.address, member.value.seed.value, asset, limit)
      && a.result == gw.submitTrust(a.change.value)
    ensures a.change.None? ==> a.result.Fail?
    ensures member.Some? && gw.loadAccount(member.value.address).Fail? ==>
      a.result == gw.loadAccount(member.value.address)
  {
    match member
    case None => TrustAttempt(None, Fail(MissingRecord))
    case Some(w) =>
      match gw.loadAccount(w.address)
      case Fail(e) => TrustAttempt(None, Fail(e))
      case Pass =>
        if w.seed.None? || !keys.isValidSecret(w.seed.value) then TrustAttempt(None, Fail(InvalidSecret))
        else
          var change := TrustChange(w.address, w.seed.value, asset, limit);
          TrustAttempt(Some(change), gw.submitTrust(change))
  }

  /** `trustAsset(walletName, assetName, limit)`: an unknown asset fails
      before any member is tried; otherwise one attempt per member of the
      group, in order, each failure caught. */
  method TrustAsset(
    store: WalletStore, reg: StellarAssets.Registry, walletName: string,
    assetName: Option<string>, limit: Option<string>, keys: Keys, gw: Gateway)
    returns (assetError: Option<Error>, group: seq<Option<Wallet>>, log: seq<TrustAttempt>)
    requires store.Valid()
    ensures StellarAssets.Get(reg, assetName).Err? ==>
      assetError == Some(StellarAssets.Get(reg, assetName).error) && log == []
    ensures StellarAssets.Get(reg, assetName).Ok? ==>
      && assetError == None
      && IsGroup(store.wallets, store.order, walletName, group)
      && |log| == |group|
      && (forall i :: 0 <= i < |group| ==>
            log[i] == TrustStep(group[i], StellarAssets.Get(reg, assetName).value,
                                OrDefault(limit, DefaultLimit), keys, gw))
  {
    var trustLimit := OrDefault(limit, DefaultLimit);
    var resolved := StellarAssets.Get(reg, assetName);
    if resolved.Err? {
      return Some(resolved.error), [], [];
    }
    var asset := resolved.value;
    assetError := None;
    group := store.GetWallets(walletName);
    log := [];
    var i := 0;
    while i < |group|
      invariant 0 <= i <= |group|
      invariant |log| == i
      invariant forall j :: 0 <= j < i ==> log[j] == TrustStep(group[j], asset, trustLimit, keys, gw)
    {
      log := log + [TrustStep(group[i], asset, trustLimit, keys, gw)];
      i := i + 1;
    }
  }

  /** An address-only wallet never signs: no change is submitted for a
      member without a seed. */
  lemma AddressOnlyMembersNeverSubmit(w: Wallet, asset: Asset, limit: string, keys: Keys, gw: Gateway)
    requires w.seed.None?
    ensures TrustStep(Some(w), asset, limit, keys, gw).change.None?
    ensures TrustStep(Some(w), asset, limit, keys, gw).result.Fail?
  {
  }
}
