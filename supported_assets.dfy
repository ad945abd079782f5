/** The static asset table (name, symbol, decimals by lower-case address) and its lookups. */
module SupportedAssets {
  import opened Wrappers
  import opened Text
  import opened Addresses

  datatype AssetConfigEntry = AssetConfigEntry(name: string, symbol: string, decimals: nat)

  const UsdcAddress: string := "0xd24eab8a12c6d42d4614493eb2f3f9ad34b1cf5f"
  const Usdt0Address: string := "0xe0fb0f453abfbd74368074cf0291711fc82cbc07"
  const WethAddress: string := "0x1c97c5715f20445400716db9b1ea2e82f873cf35"

  /** `SUPPORTED_ASSETS`, in the key order `Object.keys` reports. */
  const Table: seq<(string, AssetConfigEntry)> := [
    (UsdcAddress, AssetConfigEntry("USDC", "USDC", 6)),
    (Usdt0Address, AssetConfigEntry("USDT0", "USDT0", 6)),
    (WethAddress, AssetConfigEntry("WETH", "WETH", 18))
  ]

  /** The entry stored under `key` in a table, if any (property access on the record). */
  function Lookup(table: seq<(string, AssetConfigEntry)>, key: string): (r: Option<AssetConfigEntry>)
    ensures r.Some? <==> exists k :: 0 <= k < |table| && table[k].0 == key
    ensures r.Some? ==> exists k :: 0 <= k < |table| && table[k] == (key, r.value)
  {
    if table == [] then None
    else if table[0].0 == key then Some(table[0].1)
    else
      var r := Lookup(table[1..], key);
      assert forall k :: 1 <= k < |table| ==> table[k] == table[1..][k - 1];
      r
  }

  /** `getAssetConfig`: the table entry for the lower-cased address (`""` for an empty one). */
  function GetAssetConfig(address: string): (r: Option<AssetConfigEntry>)
    ensures r.Some? <==> ToLower(address) in {UsdcAddress, Usdt0Address, WethAddress}
  {
    assert Table[0].0 == UsdcAddress && Table[1].0 == Usdt0Address && Table[2].0 == WethAddress;
    Lookup(Table, ToLower(address))
  }

  /** `getSymbol`: the table symbol, else `"??"`. */
  function GetSymbol(address: string): (r: string)
    ensures GetAssetConfig(address).Some? ==> r == GetAssetConfig(address).value.symbol
    ensures GetAssetConfig(address).None? ==> r == "??"
  {
    match GetAssetConfig(address)
    case Some(c) => c.symbol
    case None => "??"
  }

  /** `getDecimals`: the table decimals, else 18. */
  function GetDecimals(address: string): (r: nat)
    ensures GetAssetConfig(address).Some? ==> r == GetAssetConfig(address).value.decimals
    ensures GetAssetConfig(address).None? ==> r == 18
  {
    match GetAssetConfig(address)
    case Some(c) => c.decimals
    case None => 18
  }

  /** The lookup ignores case: an address and its lower-case form resolve alike. */
  lemma LookupIgnoresCase(address: string)
    ensures GetAssetConfig(address) == GetAssetConfig(ToLower(address))
    ensures GetSymbol(address) == GetSymbol(ToLower(address))
    ensures GetDecimals(address) == GetDecimals(ToLower(address))
  {
    ToLowerIdempotent(address);
  }

  /** Exactly the three listed tokens resolve; USDC and USDT0 have 6 decimals, WETH 18. */
  lemma TableContents(address: string)
    ensures ToLower(address) == UsdcAddress ==> GetSymbol(address) == "USDC" && GetDecimals(address) == 6
    ensures ToLower(address) == Usdt0Address ==> GetSymbol(address) == "USDT0" && GetDecimals(address) == 6
    ensures ToLower(address) == WethAddress ==> GetSymbol(address) == "WETH" && GetDecimals(address) == 18
    ensures ToLower(address) !in {UsdcAddress, Usdt0Address, WethAddress} ==>
              GetSymbol(address) == "??" && GetDecimals(address) == 18
  {
  }

  /** An empty address is looked up as `""`, which no key equals, so both defaults apply. */
  lemma EmptyAddressDefaults()
    ensures GetAssetConfig("") == None
    ensures GetSymbol("") == "??" && GetDecimals("") == 18
  {
  }

  /** Every key is a valid lower-case address. */
  lemma KeysAreAddresses(k: nat)
    requires k < |Table|
    ensures IsAddress(Table[k].0)
    ensures ToLower(Table[k].0) == Table[k].0
    ensures GetAssetConfig(Table[k].0) == Some(Table[k].1)
  {
    UsdcKey();
    Usdt0Key();
    WethKey();
  }

  // One lemma per literal key keeps each character-by-character check small.

  lemma UsdcKey()
    ensures IsAddress(UsdcAddress) && ToLower(UsdcAddress) == UsdcAddress
  {
    UsdcIsAddress();
    ToLowerOfLower(UsdcAddress);
  }

  lemma Usdt0Key()
    ensures IsAddress(Usdt0Address) && ToLower(Usdt0Address) == Usdt0Address
  {
    Usdt0IsAddress();
    ToLowerOfLower(Usdt0Address);
  }

  lemma WethKey()
    ensures IsAddress(WethAddress) && ToLower(WethAddress) == WethAddress
  {
    WethIsAddress();
    ToLowerOfLower(WethAddress);
  }

  lemma UsdcIsAddress() ensures IsAddress(UsdcAddress) { }
  lemma Usdt0IsAddress() ensures IsAddress(Usdt0Address) { }
  lemma WethIsAddress() ensures IsAddress(WethAddress) { }
}
