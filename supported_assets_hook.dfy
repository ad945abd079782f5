/**
 * `useSupportedAssets`: the contract's supported asset addresses, one `symbol` and one
 * `decimals` read per address, the asset list built from those reads, and lookups into it.
 */
module SupportedAssetsHook {
  import opened Wrappers
  import opened Text
  import opened Addresses

  /** A value an ERC-20 view returns: `symbol`/`name` give text, `decimals` a number. */
  datatype Erc20Value = TextValue(text: string) | UintValue(n: nat)

  /** One ERC-20 view read the client asks for, by token address. */
  datatype Erc20Read = SymbolRead(token: string) | DecimalsRead(token: string) | NameRead(token: string)

  datatype SupportedAsset = SupportedAsset(address: string, symbol: string, decimals: nat)

  /** The filter: a non-empty entry that is not, ignoring case, the zero address. */
  predicate KeepAddress(a: string) {
    a != "" && ToLower(a) != ToLower(ZeroAddress)
  }

  /** The supported addresses that are kept, or none when the list is not yet read. */
  function FilterAddresses(supported: Option<seq<string>>): (r: seq<string>)
    ensures supported.None? ==> r == []
    ensures forall i :: 0 <= i < |r| ==> KeepAddress(r[i])
  {
    match supported
    case None => []
    case Some(s) => KeepOnly(s)
  }

  function KeepOnly(s: seq<string>): (r: seq<string>)
    ensures |r| <= |s|
    ensures forall i :: 0 <= i < |r| ==> KeepAddress(r[i]) && r[i] in s
  {
    if s == [] then [] else (if KeepAddress(s[0]) then [s[0]] else []) + KeepOnly(s[1..])
  }

  /** The filter keeps exactly the wanted entries, in their original order. */
  lemma {:induction false} KeepOnlyAppend(a: seq<string>, b: seq<string>)
    ensures KeepOnly(a + b) == KeepOnly(a) + KeepOnly(b)
  {
    if a != [] {
      assert (a + b)[1..] == a[1..] + b;
      KeepOnlyAppend(a[1..], b);
    } else {
      assert a + b == b;
    }
  }

  /** An entry of the input is kept if and only if it passes the filter. */
  lemma {:induction false} KeepOnlyMembership(s: seq<string>, x: string)
    ensures x in KeepOnly(s) <==> x in s && KeepAddress(x)
  {
    if s != [] {
      KeepOnlyMembership(s[1..], x);
      assert s == [s[0]] + s[1..];
    }
  }

  /** Two reads per address, symbol then decimals, in address order. */
  function ContractReads(addresses: seq<string>): (calls: seq<Erc20Read>)
    ensures |calls| == 2 * |addresses|
    ensures forall i :: 0 <= i < |addresses| ==>
              calls[2 * i] == SymbolRead(addresses[i]) && calls[2 * i + 1] == DecimalsRead(addresses[i])
  {
    if addresses == [] then []
    else
      var rest := ContractReads(addresses[1..]);
      var calls := [SymbolRead(addresses[0]), DecimalsRead(addresses[0])] + rest;
      assert forall i :: 1 <= i < |addresses| ==> addresses[i] == addresses[1..][i - 1];
      assert forall j :: 2 <= j < |calls| ==> calls[j] == rest[j - 2];
      calls
  }

  /** The text of a successful, non-null symbol read; `"???"` otherwise. */
  function SymbolOf(r: ReadResult<Option<Erc20Value>>): (symbol: string)
    ensures (r.Failure? || r.result.None?) ==> symbol == "???"
    ensures r.Success? && r.result.Some? && r.result.value.TextValue? ==> symbol == r.result.value.text
    ensures r.Success? && r.result.Some? && r.result.value.UintValue? ==> symbol == NatToString(r.result.value.n)
    ensures r.Success? && r.result.Some? ==> symbol != "???" || r.result.value == TextValue("???")
  {
    match r
    case Success(Some(TextValue(t))) => t
    case Success(Some(UintValue(n))) => NatToString(n)
    case _ => "???"
  }

  /** `Number(result)` of a successful, non-null decimals read; 18 otherwise. */
  function DecimalsOf(r: ReadResult<Option<Erc20Value>>): (decimals: nat)
    ensures (r.Failure? || r.result.None?) ==> decimals == 18
    ensures r.Success? && r.result.Some? && r.result.value.UintValue? ==> decimals == r.result.value.n
  {
    match r
    case Success(Some(UintValue(n))) => n
    case _ => 18
  }

  /** The asset list the hook returns, as a value. */
  function AssetsOf(addresses: seq<string>, results: Option<seq<ReadResult<Option<Erc20Value>>>>): (assets: seq<SupportedAsset>)
    ensures results.None? || |results.value| != 2 * |addresses| ==> assets == []
    ensures results.Some? && |results.value| == 2 * |addresses| ==>
              |assets| == |addresses| &&
              forall i :: 0 <= i < |addresses| ==> assets[i].address == addresses[i]
  {
    if results.Some? && |results.value| == 2 * |addresses| then
      seq(|addresses|, i requires 0 <= i < |addresses| =>
        SupportedAsset(addresses[i], SymbolOf(results.value[2 * i]), DecimalsOf(results.value[2 * i + 1])))
    else []
  }

  /**
   * The loop of the hook: only when there is one result per read is anything built;
   * then asset `i` takes address `i`, its symbol from result `2i` and its decimals from
   * result `2i+1`.
   */
  method BuildAssets(addresses: seq<string>, results: Option<seq<ReadResult<Option<Erc20Value>>>>)
    returns (assets: seq<SupportedAsset>)
    ensures assets == AssetsOf(addresses, results)
  {
    assets := [];
    if results.Some? && |results.value| == |ContractReads(addresses)| {
      var rs := results.value;
      ghost var all := AssetsOf(addresses, results);
      for i := 0 to |addresses|
        invariant assets == all[..i]
      {
        var symbolResult := rs[i * 2];
        var decimalsResult := rs[i * 2 + 1];
        assets := assets + [SupportedAsset(addresses[i], SymbolOf(symbolResult), DecimalsOf(decimalsResult))];
      }
    }
  }

  /** A failed or null read falls back per field; the other field is unaffected. */
  lemma AssetDefaults(addresses: seq<string>, results: seq<ReadResult<Option<Erc20Value>>>, i: nat)
    requires |results| == 2 * |addresses| && i < |addresses|
    ensures var a := AssetsOf(addresses, Some(results))[i];
            && ((results[2 * i].Failure? || results[2 * i].result.None?) ==> a.symbol == "???")
            && ((results[2 * i + 1].Failure? || results[2 * i + 1].result.None?) ==> a.decimals == 18)
            && a.symbol == SymbolOf(results[2 * i]) && a.decimals == DecimalsOf(results[2 * i + 1])
  {
    var a := AssetsOf(addresses, Some(results))[i];
    assert a == SupportedAsset(addresses[i], SymbolOf(results[2 * i]), DecimalsOf(results[2 * i + 1]));
  }

  predicate Matches(a: SupportedAsset, key: string) { ToLower(a.address) == key }

  /** The index of the first asset whose lower-cased address is the key. */
  function FindIndex(assets: seq<SupportedAsset>, key: string): (r: Option<nat>)
    ensures r.Some? ==> r.value < |assets| && Matches(assets[r.value], key)
    ensures r.Some? ==> forall j :: 0 <= j < r.value ==> !Matches(assets[j], key)
    ensures r.None? ==> forall j :: 0 <= j < |assets| ==> !Matches(assets[j], key)
  {
    if assets == [] then None
    else if Matches(assets[0], key) then Some(0)
    else match FindIndex(assets[1..], key)
      case None => None
      case Some(k) => Some(k + 1)
  }

  /** The hook's `getSymbol`: the first matching asset's symbol, else six characters and `…`. */
  function GetSymbol(assets: seq<SupportedAsset>, address: string): (r: string)
    ensures var key := ToLower(address);
            match FindIndex(assets, key)
            case Some(i) => r == assets[i].symbol
            case None => r == key[..if |key| < 6 then |key| else 6] + "\U{2026}"
  {
    var key := ToLower(address);
    match FindIndex(assets, key)
    case Some(i) => assets[i].symbol
    case None => key[..if |key| < 6 then |key| else 6] + "\U{2026}"
  }

  /** The hook's `getDecimals`: the first matching asset's decimals, else 18. */
  function GetDecimals(assets: seq<SupportedAsset>, address: string): (r: nat)
    ensures FindIndex(assets, ToLower(address)).Some? ==> r == assets[FindIndex(assets, ToLower(address)).value].decimals
    ensures FindIndex(assets, ToLower(address)).None? ==> r == 18
  {
    match FindIndex(assets, ToLower(address))
    case Some(i) => assets[i].decimals
    case None => 18
  }

  /** Both lookups ignore the case of the address asked for. */
  lemma HookLookupIgnoresCase(assets: seq<SupportedAsset>, address: string)
    ensures GetSymbol(assets, address) == GetSymbol(assets, ToLower(address))
    ensures GetDecimals(assets, address) == GetDecimals(assets, ToLower(address))
  {
    ToLowerIdempotent(address);
  }

  /** Both lookups answer from the first asset whose address matches, ignoring case. */
  lemma HookLookupFirstMatch(assets: seq<SupportedAsset>, address: string, i: nat)
    requires i < |assets| && ToLower(assets[i].address) == ToLower(address)
    requires forall j :: 0 <= j < i ==> ToLower(assets[j].address) != ToLower(address)
    ensures GetSymbol(assets, address) == assets[i].symbol
    ensures GetDecimals(assets, address) == assets[i].decimals
  {
  }

  /** With no asset matching, the symbol fallback is at most seven characters ending in `…`. */
  lemma SymbolFallbackShape(assets: seq<SupportedAsset>, address: string)
    requires FindIndex(assets, ToLower(address)).None?
    ensures var s := GetSymbol(assets, address);
            |s| == (if |address| < 6 then |address| else 6) + 1 && s[|s| - 1] == '\U{2026}'
  {
  }
}
