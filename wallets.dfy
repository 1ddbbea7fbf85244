/** The wallet store of scli.js: the global dictionary `wallets` from
    wallet name to record, its file image, and the resolvers that read it
    (`getWallets`, `getMasterAccount`, `getAsset`). */
module Wallets {
  import opened Wrappers
  import opened Errors
  import opened Text
  import opened Ledger

  /** A stored record `{seed?, address, memo?}`. The wallet's name is the
      key it is stored under; the record itself has no `name` field. */
  datatype Wallet = Wallet(seed: Option<string>, address: string, memo: Option<string>)

  /** The wallet file as parsed JSON: its top-level members in file order. */
  type Entries = seq<(string, Wallet)>

  /** A parsed JSON object never has two members with the same name. */
  predicate DistinctNames(e: Entries)
  {
    forall i, j :: 0 <= i < j < |e| ==> e[i].0 != e[j].0
  }

  predicate NoDuplicates(s: seq<string>)
  {
    forall i, j :: 0 <= i < j < |s| ==> s[i] != s[j]
  }

  /** `order` enumerates the keys of `wallets`, each once: the order in
      which `for (let name in wallets)` visits them. */
  ghost predicate Consistent(wallets: map<string, Wallet>, order: seq<string>)
  {
    && NoDuplicates(order)
    && (forall k :: k in wallets <==> k in order)
  }

  function Names(e: Entries): (ns: seq<string>)
    ensures |ns| == |e|
    ensures forall i :: 0 <= i < |e| ==> ns[i] == e[i].0
  {
    seq(|e|, i requires 0 <= i < |e| => e[i].0)
  }

  /** The object a parsed file denotes: later members overwrite earlier ones. */
  function MapOf(e: Entries): (m: map<string, Wallet>)
    ensures forall k :: k in m <==> k in Names(e)
    ensures DistinctNames(e) ==> forall i :: 0 <= i < |e| ==> m[e[i].0] == e[i].1
  {
    if e == [] then map[]
    else
      var prefix := e[..|e| - 1];
      assert Names(e) == Names(prefix) + [e[|e| - 1].0];
      MapOf(prefix)[e[|e| - 1].0 := e[|e| - 1].1]
  }

  /** `JSON.stringify(wallets)`: the members in enumeration order. */
  function Serialize(wallets: map<string, Wallet>, order: seq<string>): (e: Entries)
    requires forall k :: k in order ==> k in wallets
    ensures Names(e) == order
    ensures forall i :: 0 <= i < |order| ==> e[i] == (order[i], wallets[order[i]])
  {
    seq(|order|, i requires 0 <= i < |order| => (order[i], wallets[order[i]]))
  }

  /** Reading a saved store back gives the same dictionary and order. */
  lemma LoadAfterSave(wallets: map<string, Wallet>, order: seq<string>)
    requires Consistent(wallets, order)
    ensures DistinctNames(Serialize(wallets, order))
    ensures MapOf(Serialize(wallets, order)) == wallets
    ensures Names(Serialize(wallets, order)) == order
  {
    var e := Serialize(wallets, order);
    var m := MapOf(e);
    forall k | k in wallets
      ensures k in m && m[k] == wallets[k]
    {
      var i :| 0 <= i < |order| && order[i] == k;
      assert e[i] == (k, wallets[k]);
    }
  }

  /** Saving a loaded store writes back the file it was loaded from. */
  lemma SaveAfterLoad(e: Entries)
    requires DistinctNames(e)
    ensures Consistent(MapOf(e), Names(e))
    ensures Serialize(MapOf(e), Names(e)) == e
  {
  }

  /** A duplicate-free sequence has as many elements as its set. */
  lemma {:induction false} DistinctCount(s: seq<string>)
    requires NoDuplicates(s)
    ensures |set x | x in s| == |s|
  {
    if s != [] {
      var last := s[|s| - 1];
      var prefix := s[..|s| - 1];
      DistinctCount(prefix);
      assert (set x | x in s) == (set x | x in prefix) + {last};
      assert last !in (set x | x in prefix);
    }
  }

  /** The enumeration order lists exactly as many names as the store holds. */
  lemma OrderSize(wallets: map<string, Wallet>, order: seq<string>)
    requires Consistent(wallets, order)
    ensures |order| == |wallets|
  {
    DistinctCount(order);
    assert wallets.Keys == set x | x in order;
  }

  /** `wallets[key]`: the stored record, or `undefined`. */
  function Lookup(wallets: map<string, Wallet>, key: string): (w: Option<Wallet>)
    ensures w.Some? <==> key in wallets
    ensures w.Some? ==> w.value == wallets[key]
  {
    if key in wallets then Some(wallets[key]) else None
  }

  /** `getMasterAccount()`: the record stored under `master`, if any. */
  function MasterAccount(wallets: map<string, Wallet>): (w: Option<Wallet>)
    ensures w.Some? <==> "master" in wallets
    ensures w.Some? ==> w.value == wallets["master"]
  {
    Lookup(wallets, "master")
  }

  /** `getAsset(name)`: `native` and `xlm` in any casing give the native
      asset; any other code is issued by the `master` wallet. */
  function GetAsset(wallets: map<string, Wallet>, name: string): (r: Result<Asset, Error>)
    ensures Lower(name) == "native" || Lower(name) == "xlm" ==> r == Ok(Native)
    ensures Lower(name) != "native" && Lower(name) != "xlm" ==>
      (if "master" in wallets
       then r == Ok(Credit(Upper(name), wallets["master"].address))
       else r == Err(NoMasterAccount))
  {
    var lowered := Lower(name);
    if lowered == "native" || lowered == "xlm" then Ok(Native)
    else
      match MasterAccount(wallets)
      case None => Err(NoMasterAccount)
      case Some(master) =>
        UpperOfLower(name);
        Ok(Credit(Upper(lowered), master.address))
  }

  /** `getAsset` gives the same answer for a name in any casing. */
  lemma GetAssetIgnoresCase(wallets: map<string, Wallet>, name: string)
    ensures GetAsset(wallets, name) == GetAsset(wallets, Upper(name))
  {
    LowerOfUpper(name);
    UpperIdempotent(name);
  }

  /** A custom asset from `getAsset` always names the master wallet as issuer. */
  lemma GetAssetIssuerIsMaster(wallets: map<string, Wallet>, name: string)
    requires GetAsset(wallets, name).Ok? && GetAsset(wallets, name).value.Credit?
    ensures "master" in wallets
    ensures GetAsset(wallets, name).value.issuer == wallets["master"].address
    ensures IsUpper(GetAsset(wallets, name).value.code)
  {
    UpperIdempotent(name);
  }

  /** The record `import` stores for a secret or an address: a valid
      secret is kept together with the address derived from it; failing
      that, a valid public key is kept as an address-only record. */
  function ImportedRecord(secret: Option<string>, keys: Keys): (r: Result<Wallet, Error>)
    ensures r.Ok? <==>
      secret.Some? && (keys.isValidSecret(secret.value) || keys.isValidPublicKey(secret.value))
    ensures r.Err? ==> r.error == InvalidImport
    ensures r.Ok? ==> r.value.memo.None?
    ensures r.Ok? ==> (r.value.seed.Some? <==> keys.isValidSecret(secret.value))
    ensures r.Ok? && r.value.seed.Some? ==>
      r.value.seed.value == secret.value && r.value.address == keys.publicKeyOf(secret.value)
    ensures r.Ok? && r.value.seed.None? ==> r.value.address == secret.value
  {
    match secret
    case None => Err(InvalidImport)
    case Some(s) =>
      if keys.isValidSecret(s) then Ok(Wallet(Some(s), keys.publicKeyOf(s), None))
      else if keys.isValidPublicKey(s) then Ok(Wallet(None, s, None))
      else Err(InvalidImport)
  }

  /** The SDK's own promise: a valid secret's public key is a valid public key. */
  ghost predicate SoundKeys(keys: Keys)
  {
    forall s :: keys.isValidSecret(s) ==> keys.isValidPublicKey(keys.publicKeyOf(s))
  }

  /** Under a sound SDK, every imported record holds a valid public key as
      its address. */
  lemma ImportedAddressIsValid(secret: Option<string>, keys: Keys)
    requires SoundKeys(keys)
    requires ImportedRecord(secret, keys).Ok?
    ensures keys.isValidPublicKey(ImportedRecord(secret, keys).value.address)
  {
    var s := secret.value;
    if keys.isValidSecret(s) {
      assert keys.isValidPublicKey(keys.publicKeyOf(s));
    }
  }

  /** The in-memory store (`wallets` with its enumeration order) and the
      last image written to the wallet file. */
  class WalletStore {
    var wallets: map<string, Wallet>
    var order: seq<string>
    var saved: Option<Entries>

    ghost predicate Valid()
      reads this
    {
      Consistent(wallets, order)
    }

    /** Start-up: the parsed wallet file, or an empty store when the file
        could not be loaded. `require` fails alike for a missing and for an
        unparseable file, so `None` stands for both; `saved` is then `None`
        although an unparseable file may still be on disk. */
    constructor Load(file: Option<Entries>)
      requires file.Some? ==> DistinctNames(file.value)
      ensures Valid()
      ensures file.None? ==> wallets == map[] && order == []
      ensures file.Some? ==> wallets == MapOf(file.value) && order == Names(file.value)
      ensures saved == file
    {
      match file {
        case None =>
          wallets, order := map[], [];
        case Some(e) =>
          SaveAfterLoad(e);
          wallets, order := MapOf(e), Names(e);
      }
      saved := file;
    }

    /** `saveWallets()`: the file is rewritten with the whole store. */
    method Save()
      requires Valid()
      modifies this`saved
      ensures saved == Some(Serialize(wallets, order))
    {
      saved := Some(Serialize(wallets, order));
    }

    /** Adds a record under a new name and persists the store. */
    method Insert(name: string, w: Wallet)
      requires Valid() && name !in wallets
      modifies this
      ensures Valid()
      ensures wallets == old(wallets)[name := w]
      ensures order == old(order) + [name]
      ensures saved == Some(Serialize(wallets, order))
    {
      wallets := wallets[name := w];
      order := order + [name];
      Save();
    }

    /** `create(name)`: refuses an existing name; otherwise stores the
        fresh `(seed, address)` the gateway created and persists. A
        gateway failure leaves the store as it was. */
    method Create(name: string, created: Result<(string, string), Error>) returns (r: Outcome<Error>)
      requires Valid()
      modifies this
      ensures Valid()
      ensures name in old(wallets) ==> r == Fail(AlreadyExists(name)) && unchanged(this)
      ensures name !in old(wallets) && created.Err? ==> r == Fail(created.error) && unchanged(this)
      ensures name !in old(wallets) && created.Ok? ==>
        && r == Pass
        && wallets.Keys == old(wallets).Keys + {name}
        && |wallets| == |old(wallets)| + 1
        && wallets[name] == Wallet(Some(created.value.0), created.value.1, None)
        && (forall k :: k in old(wallets) ==> wallets[k] == old(wallets)[k])
        && order == old(order) + [name]
        && saved == Some(Serialize(wallets, order))
    {
      if name in wallets {
        return Fail(AlreadyExists(name));
      }
      match created {
        case Err(e) =>
          return Fail(e);
        case Ok(keypair) =>
          var (seed, address) := keypair;
          Insert(name, Wallet(Some(seed), address, None));
          return Pass;
      }
    }

    /** `importAccount(name, seed)`: refuses an existing name; otherwise
        stores the record `ImportedRecord` gives, or fails with the store
        unchanged when the string is neither a secret nor a public key. */
    method Import(name: string, secret: Option<string>, keys: Keys) returns (r: Outcome<Error>)
      requires Valid()
      modifies this
      ensures Valid()
      ensures name in old(wallets) ==> r == Fail(AlreadyExists(name)) && unchanged(this)
      ensures name !in old(wallets) && ImportedRecord(secret, keys).Err? ==>
        r == Fail(InvalidImport) && unchanged(this)
      ensures name !in old(wallets) && ImportedRecord(secret, keys).Ok? ==>
        && r == Pass
        && wallets.Keys == old(wallets).Keys + {name}
        && |wallets| == |old(wallets)| + 1
        && wallets[name] == ImportedRecord(secret, keys).value
        && (forall k :: k in old(wallets) ==> wallets[k] == old(wallets)[k])
        && order == old(order) + [name]
        && saved == Some(Serialize(wallets, order))
    {
      if name in wallets {
        return Fail(AlreadyExists(name));
      }
      var record := ImportedRecord(secret, keys);
      if record.Err? {
        return Fail(record.error);
      }
      Insert(name, record.value);
      return Pass;
    }

    /** `getWallets(selector)`. */
    method GetWallets(selector: string) returns (ws: seq<Option<Wallet>>)
      requires Valid()
      ensures IsGroup(wallets, order, selector, ws)
      ensures selector == "all" ==> |ws| == |wallets|
    {
      if selector != "all" {
        return [Lookup(wallets, selector)];
      }
      OrderSize(wallets, order);
      ws := [];
      for i := 0 to |order|
        invariant |ws| == i
        invariant forall j :: 0 <= j < i ==> ws[j] == Some(wallets[order[j]])
      {
        ws := ws + [Some(wallets[order[i]])];
      }
    }
  }

  /** The group a selector names: every record, in enumeration order, for
      `all`; otherwise the one-element list holding `wallets[selector]`,
      which is `undefined` when no such wallet is stored. */
  ghost predicate IsGroup(wallets: map<string, Wallet>, order: seq<string>, selector: string, ws: seq<Option<Wallet>>)
    requires Consistent(wallets, order)
  {
    if selector == "all" then
      && |ws| == |order|
      && (forall i :: 0 <= i < |ws| ==> ws[i] == Some(wallets[order[i]]))
    else
      ws == [Lookup(wallets, selector)]
  }

  /** After a wallet file that could not be loaded (missing or
      unparseable), the first successful `create` rewrites the file with
      the new wallet alone: whatever an unparseable file held is lost. */
  method CreateAfterUnloadableFile(name: string, seed: string, address: string)
    returns (r: Outcome<Error>, image: Option<Entries>)
    ensures r == Pass
    ensures image == Some([(name, Wallet(Some(seed), address, None))])
  {
    var store := new WalletStore.Load(None);
    r := store.Create(name, Ok((seed, address)));
    image := store.saved;
    var e := Serialize(store.wallets, store.order);
    assert store.order == [name];
    assert e[0] == (name, Wallet(Some(seed), address, None));
    assert e == [(name, Wallet(Some(seed), address, None))];
  }

  /** The `all` group holds each stored wallet at exactly one position. */
  lemma AllGroupHoldsEachWalletOnce(wallets: map<string, Wallet>, order: seq<string>, ws: seq<Option<Wallet>>, k: string)
    requires Consistent(wallets, order)
    requires IsGroup(wallets, order, "all", ws)
    requires k in wallets
    ensures exists i :: 0 <= i < |ws| && order[i] == k && ws[i] == Some(wallets[k])
    ensures forall i :: 0 <= i < |ws| ==> ws[i].Some?
    ensures forall i, j :: 0 <= i < |ws| && 0 <= j < |ws| && order[i] == k && order[j] == k ==> i == j
  {
    var i :| 0 <= i < |order| && order[i] == k;
    assert ws[i] == Some(wallets[k]);
  }
}
