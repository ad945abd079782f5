/** `TokenDisplay`: the static table first; only for unknown tokens read `symbol` and `name`. */
module TokenDisplay {
  import opened Wrappers
  import SupportedAssets
  import opened SupportedAssetsHook

  /** What the component renders: a text label or a spinner. */
  datatype Shown = Label(text: string) | Spinner

  /** The batched read the component requests. */
  datatype ReadPlan = ReadPlan(calls: seq<Erc20Read>, enabled: bool)

  function Plan(address: string): (p: ReadPlan)
    ensures SupportedAssets.GetAssetConfig(address).Some? ==> p.calls == [] && !p.enabled
    ensures SupportedAssets.GetAssetConfig(address).None? ==>
              p.calls == [SymbolRead(address), NameRead(address)] && p.enabled
  {
    if SupportedAssets.GetAssetConfig(address).None? then
      ReadPlan([SymbolRead(address), NameRead(address)], true)
    else ReadPlan([], false)
  }

  /** `"name (symbol)"` when asked for and the two differ, else the symbol alone. */
  function NameAndSymbol(showName: bool, name: string, symbol: string): (s: string)
    ensures !showName || name == symbol ==> s == symbol
    ensures showName && name != symbol ==> s == name + " (" + symbol + ")"
  {
    if showName && name != symbol then name + " (" + symbol + ")" else symbol
  }

  /** The chain-read symbol: the result's text on success, `"??"` otherwise (or when absent). */
  function ChainSymbol(data: seq<ReadResult<string>>): (symbol: string)
    ensures |data| > 0 && data[0].Success? ==> symbol == data[0].result
    ensures !(|data| > 0 && data[0].Success?) ==> symbol == "??"
  {
    if |data| > 0 && data[0].Success? then data[0].result else "??"
  }

  /** The chain-read name: on success its result, otherwise the symbol. */
  function ChainName(data: seq<ReadResult<string>>): (name: string)
    ensures |data| > 1 && data[1].Success? ==> name == data[1].result
    ensures !(|data| > 1 && data[1].Success?) ==> name == ChainSymbol(data)
  {
    if |data| > 1 && data[1].Success? then data[1].result else ChainSymbol(data)
  }

  /**
   * The render decision: config path, then spinner while pending, then `"??"` when there
   * is no data, then the symbol and name read from the token contract.
   */
  function Render(address: string, showName: bool, isPending: bool, data: Option<seq<ReadResult<string>>>): (shown: Shown)
    ensures SupportedAssets.GetAssetConfig(address).Some? ==>
              var c := SupportedAssets.GetAssetConfig(address).value;
              shown == Label(NameAndSymbol(showName, c.name, c.symbol))
    ensures SupportedAssets.GetAssetConfig(address).None? && isPending ==> shown == Spinner
    ensures SupportedAssets.GetAssetConfig(address).None? && !isPending && data.None? ==> shown == Label("??")
    ensures SupportedAssets.GetAssetConfig(address).None? && !isPending && data.Some? ==>
              shown == Label(NameAndSymbol(showName, ChainName(data.value), ChainSymbol(data.value)))
  {
    match SupportedAssets.GetAssetConfig(address)
    case Some(c) => Label(NameAndSymbol(showName, c.name, c.symbol))
    case None =>
      if isPending then Spinner
      else match data
        case None => Label("??")
        case Some(d) => Label(NameAndSymbol(showName, ChainName(d), ChainSymbol(d)))
  }

  /** Without `showName` the label is always a symbol: the table's, the read one, or `"??"`. */
  lemma SymbolOnlyWithoutName(address: string, isPending: bool, data: Option<seq<ReadResult<string>>>)
    ensures var shown := Render(address, false, isPending, data);
            shown == Spinner ||
            (SupportedAssets.GetAssetConfig(address).Some? && shown == Label(SupportedAssets.GetSymbol(address))) ||
            (SupportedAssets.GetAssetConfig(address).None? && data.Some? && shown == Label(ChainSymbol(data.value))) ||
            shown == Label("??")
  {
  }

  /** A failed symbol read shows `"??"`; a failed name read never adds a parenthesised name. */
  lemma FailedReadsDegrade(address: string, showName: bool, d: seq<ReadResult<string>>)
    requires SupportedAssets.GetAssetConfig(address).None?
    ensures |d| >= 1 && d[0].Failure? ==> ChainSymbol(d) == "??"
    ensures (|d| < 2 || d[1].Failure?) ==> Render(address, showName, false, Some(d)) == Label(ChainSymbol(d))
  {
  }

  /** On the chain path with both reads successful and different, the label is `name (symbol)`. */
  lemma ChainNameShown(address: string, name: string, symbol: string)
    requires SupportedAssets.GetAssetConfig(address).None? && name != symbol
    ensures Render(address, true, false, Some([Success(symbol), Success(name)])) ==
            Label(name + " (" + symbol + ")")
  {
  }

  /**
   * A failed symbol read with a successful name read still shows the name, next to `??`;
   * a name equal to the symbol is never repeated.
   */
  lemma MixedReadsShown(address: string, name: string, symbol: string)
    requires SupportedAssets.GetAssetConfig(address).None?
    ensures name != "??" ==> Render(address, true, false, Some([Failure, Success(name)])) == Label(name + " (??)")
    ensures Render(address, true, false, Some([Success(symbol), Success(symbol)])) == Label(symbol)
  {
  }
}
