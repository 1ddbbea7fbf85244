/** The asset registry (stellarAssets.js): a table from upper-case asset
    code to `{code, issuer}`, loaded once, and a case-normalising lookup
    with the native asset special-cased. */
module StellarAssets {
  import opened Wrappers
  import opened Errors
  import opened Text
  import opened Ledger

  /** One entry of the asset file: `{code, issuer}`. */
  datatype AssetEntry = AssetEntry(code: string, issuer: string)

  /** A registry; `assets` is assigned once, at construction, and never
      changed afterwards, so the registry is a value. */
  datatype Registry = Registry(assets: map<string, AssetEntry>)

  /** The constructor: the parsed asset file when it could be loaded,
      an empty table when it could not. */
  function Load(file: Option<map<string, AssetEntry>>): (r: Registry)
    ensures file.Some? ==> r.assets == file.value
    ensures file.None? ==> r.assets == map[]
  {
    match file
    case Some(table) => Registry(table)
    case None => Registry(map[])
  }

  /** `get(name)`: an absent or empty name and any casing of `XLM` give
      the native asset; otherwise the upper-cased name is looked up in the
      table. */
  function Get(reg: Registry, name: Option<string>): (r: Result<Asset, Error>)
    ensures (name.None? || name == Some("")) ==> r == Ok(Native)
    ensures name.Some? && name.value != "" && Upper(name.value) == "XLM" ==> r == Ok(Native)
    ensures name.Some? && name.value != "" && Upper(name.value) != "XLM" ==>
      var key := Upper(name.value);
      if key in reg.assets
      then r == Ok(Credit(reg.assets[key].code, reg.assets[key].issuer))
      else r == Err(AssetDoesNotExist(key))
  {
    if name.None? || name.value == "" then Ok(Native)
    else
      var key := Upper(name.value);
      if key == "XLM" then Ok(Native)
      else if key !in reg.assets then Err(AssetDoesNotExist(key))
      else Ok(Credit(reg.assets[key].code, reg.assets[key].issuer))
  }

  /** `get` never consults the table for an absent or empty name. */
  lemma EmptyNameIsNativeForAnyTable(reg1: Registry, reg2: Registry, name: Option<string>)
    requires name.None? || name == Some("")
    ensures Get(reg1, name) == Get(reg2, name) == Ok(Native)
  {
  }

  /** `xlm`, `Xlm` and `XLM` all give the native asset, whatever the table. */
  lemma NativeCodeIsCaseInsensitive(reg: Registry)
    ensures Get(reg, Some("xlm")) == Ok(Native)
    ensures Get(reg, Some("Xlm")) == Ok(Native)
    ensures Get(reg, Some("XLM")) == Ok(Native)
    ensures Get(reg, Some("xLm")) == Ok(Native)
  {
    assert Upper("xlm") == "XLM";
    assert Upper("Xlm") == "XLM";
    assert Upper("xLm") == "XLM";
    assert Upper("XLM") == "XLM";
  }

  /** Resolution is case-insensitive: a name and its upper-cased form give
      the same asset or the same failure. */
  lemma GetIgnoresCase(reg: Registry, s: string)
    ensures Get(reg, Some(s)) == Get(reg, Some(Upper(s)))
  {
    UpperIdempotent(s);
  }

  /** A code stored under its upper-cased key resolves, in any casing, to
      exactly the stored code and issuer, unless the key is `XLM`, which the
      native asset shadows. */
  lemma KnownCodeResolvesToEntry(reg: Registry, s: string)
    requires s != "" && Upper(s) in reg.assets && Upper(s) != "XLM"
    ensures Get(reg, Some(s)) == Ok(Credit(reg.assets[Upper(s)].code, reg.assets[Upper(s)].issuer))
  {
  }

  /** Every custom asset `get` returns comes from an upper-case key of the
      table; entries under keys with lower-case letters can never be reached. */
  lemma ResolvedEntriesHaveUpperCaseKeys(reg: Registry, name: Option<string>)
    requires Get(reg, name).Ok? && Get(reg, name).value.Credit?
    ensures exists key :: (key in reg.assets && IsUpper(key) && key != "XLM" &&
                           Get(reg, name).value == Credit(reg.assets[key].code, reg.assets[key].issuer))
  {
    var key := Upper(name.value);
    UpperIdempotent(name.value);
    assert key in reg.assets && IsUpper(key) && key != "XLM";
  }

  /** A table entry stored under `XLM` is never returned: the native
      asset always wins. */
  lemma XlmEntryIsShadowed(reg: Registry, s: string)
    requires Upper(s) == "XLM"
    ensures Get(reg, Some(s)) == Ok(Native)
  {
    assert s != "" by { assert |Upper(s)| == 3; }
  }

  /** Unlike `getAsset` in the wallet store, `get` gives `native` no
      special meaning: it is looked up as the code `NATIVE`. */
  lemma NativeWordIsLookedUp(reg: Registry)
    ensures "NATIVE" !in reg.assets ==> Get(reg, Some("native")) == Err(AssetDoesNotExist("NATIVE"))
    ensures "NATIVE" in reg.assets ==>
      Get(reg, Some("native")) == Ok(Credit(reg.assets["NATIVE"].code, reg.assets["NATIVE"].issuer))
  {
    assert Upper("native") == "NATIVE";
  }

  /** A registry whose file was missing has an empty table: every name
      that is not native fails, while the empty name and `XLM` still
      succeed. */
  lemma MissingFileRegistry(name: Option<string>)
    ensures Get(Load(None), name).Ok? <==>
      (name.None? || name.value == "" || Upper(name.value) == "XLM")
    ensures Get(Load(None), name).Ok? ==> Get(Load(None), name) == Ok(Native)
  {
  }
}
