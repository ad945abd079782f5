/**
 * `FaucetForm`: the token/address/amount schema, the faucet write a valid submit issues,
 * the default token, the option labels of the static table, and the mint button.
 */
module FaucetForm {
  import opened Wrappers
  import opened Addresses
  import SupportedAssets

  datatype FaucetValues = FaucetValues(token: string, address: string, amount: string)

  datatype FaucetErrors = FaucetErrors(token: seq<string>, address: seq<string>, amount: seq<string>)

  /** A field that must be given and must be an address, with its two messages. */
  function AddressFieldErrors(s: string, missing: string, invalid: string): (errors: seq<string>)
    ensures errors == [] <==> IsAddress(s)
  {
    (if |s| < 1 then [missing] else []) + (if !IsAddress(s) then [invalid] else [])
  }

  /**
   * `amountPositive` stands for `Number(s.trim()) > 0`, a floating-point test outside this
   * model; `Number("")` is 0, so the empty amount always gets both messages.
   */
  function AmountFieldErrors(amount: string, amountPositive: bool): (errors: seq<string>)
    ensures errors == [] <==> amount != "" && amountPositive
    ensures amount == "" ==> errors == ["Amount is required", "Amount must be a positive number"]
  {
    (if |amount| < 1 then ["Amount is required"] else [])
      + (if |amount| < 1 || !amountPositive then ["Amount must be a positive number"] else [])
  }

  predicate Valid(v: FaucetValues, amountPositive: bool) {
    IsAddress(v.token) && IsAddress(v.address) && v.amount != "" && amountPositive
  }

  /**
   * The faucet schema (the same rules on the faucet page): token and address must be
   * non-empty valid addresses and the amount given and positive.
   */
  function Validate(v: FaucetValues, amountPositive: bool): (r: Option<FaucetErrors>)
    ensures r.None? <==> Valid(v, amountPositive)
    ensures v.token == "" ==> r.Some? && "Select a token" in r.value.token
    ensures v.address == "" ==> r.Some? && "Address is required" in r.value.address
  {
    var e := FaucetErrors(
      AddressFieldErrors(v.token, "Select a token", "Invalid token"),
      AddressFieldErrors(v.address, "Address is required", "Invalid address"),
      AmountFieldErrors(v.amount, amountPositive));
    if e.token == [] && e.address == [] && e.amount == [] then None else Some(e)
  }

  /** `faucet(address, parseUnits(amount, decimals))` on the token; the scaling itself is outside this model. */
  datatype FaucetCall = FaucetCall(token: string, recipient: string, amount: string, decimals: nat)

  /**
   * A submit issues the faucet write only for valid input whose amount `parseUnits` accepts
   * (`amountParses`), with the table's decimals.
   */
  function OnSubmit(v: FaucetValues, amountPositive: bool, amountParses: bool): (call: Option<FaucetCall>)
    ensures call.Some? <==> Valid(v, amountPositive) && amountParses
    ensures call.Some? ==> call.value == FaucetCall(v.token, v.address, v.amount, SupportedAssets.GetDecimals(v.token))
    ensures call.Some? ==> IsAddress(call.value.token) && IsAddress(call.value.recipient)
  {
    if Validate(v, amountPositive).Some? || !amountParses then None
    else Some(FaucetCall(v.token, v.address, v.amount, SupportedAssets.GetDecimals(v.token)))
  }

  /** The first key of the static table, or `""` for an empty table. */
  function DefaultToken(): (t: string)
    ensures t == SupportedAssets.UsdcAddress
    ensures IsAddress(t) && SupportedAssets.GetAssetConfig(t).Some?
  {
    SupportedAssets.KeysAreAddresses(0);
    if |SupportedAssets.Table| > 0 then SupportedAssets.Table[0].0 else ""
  }

  /** The option label: the symbol, with ` (name)` only when the name differs. */
  function OptionLabel(config: SupportedAssets.AssetConfigEntry): (text: string)
    ensures config.name == config.symbol ==> text == config.symbol
    ensures config.name != config.symbol ==> text == config.symbol + " (" + config.name + ")"
  {
    config.symbol + (if config.name != config.symbol then " (" + config.name + ")" else "")
  }

  /** Every entry of the current table has its name equal to its symbol, so each label is a bare symbol. */
  lemma TableLabelsAreSymbols(k: nat)
    requires k < |SupportedAssets.Table|
    ensures OptionLabel(SupportedAssets.Table[k].1) == SupportedAssets.Table[k].1.symbol
  {
  }

  /** The control under the form: the mint button when a wallet is connected, else the connect button. */
  datatype MintControl = ConnectWallet | Mint(disabled: bool, caption: string)

  function Control(isConnected: bool, canSubmit: bool, isSubmitting: bool, isPending: bool): (c: MintControl)
    ensures !isConnected <==> c == ConnectWallet
    ensures c.Mint? ==> (c.disabled <==> !canSubmit || isSubmitting || isPending)
    ensures c.Mint? ==> c.caption == (if isSubmitting then "Minting\U{2026}" else "Mint")
    ensures c.Mint? && isSubmitting ==> c.disabled
  {
    if !isConnected then ConnectWallet
    else Mint(!canSubmit || isSubmitting || isPending, if isSubmitting then "Minting\U{2026}" else "Mint")
  }
}
