/**
 * The faucet page: the faucet schema over the on-chain asset list, its default token, the
 * decimals it mints with, and the reset of form and write after a successful write.
 */
module FaucetPage {
  import opened Wrappers
  import opened Addresses
  import opened Transaction
  import SupportedAssetsHook
  import FaucetForm

  /** The first on-chain asset's address, or the empty string. */
  function DefaultToken(assets: seq<SupportedAssetsHook.SupportedAsset>): (t: string)
    ensures assets == [] ==> t == ""
    ensures assets != [] ==> t == assets[0].address
  {
    if assets == [] then "" else assets[0].address
  }

  /**
   * A submit issues the faucet write only for valid input whose amount `parseUnits` accepts
   * (`amountParses`), with the hook's decimals (default 18).
   */
  function OnSubmit(v: FaucetForm.FaucetValues, amountPositive: bool, amountParses: bool,
                    assets: seq<SupportedAssetsHook.SupportedAsset>)
    : (call: Option<FaucetForm.FaucetCall>)
    ensures call.Some? <==> FaucetForm.Valid(v, amountPositive) && amountParses
    ensures call.Some? ==> call.value.token == v.token && call.value.recipient == v.address
    ensures call.Some? ==> call.value.decimals == SupportedAssetsHook.GetDecimals(assets, v.token)
    ensures call.Some? && SupportedAssetsHook.FindIndex(assets, Text.ToLower(v.token)).None? ==>
              call.value.decimals == 18
  {
    if FaucetForm.Validate(v, amountPositive).Some? || !amountParses then None
    else Some(FaucetForm.FaucetCall(v.token, v.address, v.amount, SupportedAssetsHook.GetDecimals(assets, v.token)))
  }

  datatype PageState = PageState(form: FaucetForm.FaucetValues, write: WriteState)

  function DefaultValues(assets: seq<SupportedAssetsHook.SupportedAsset>): FaucetForm.FaucetValues {
    FaucetForm.FaucetValues(DefaultToken(assets), "", "")
  }

  /** The effect on `isSuccess`: after a successful write the form and the write are both reset. */
  function AfterRender(st: PageState, assets: seq<SupportedAssetsHook.SupportedAsset>): (next: PageState)
    ensures st.write.status == Succeeded ==> next == PageState(DefaultValues(assets), IdleWrite)
    ensures st.write.status != Succeeded ==> next == st
  {
    if st.write.status == Succeeded then PageState(DefaultValues(assets), IdleWrite) else st
  }

  /** The reset leaves no successful write behind, so a second pass changes nothing. */
  lemma ResetSettles(st: PageState, assets: seq<SupportedAssetsHook.SupportedAsset>)
    ensures AfterRender(AfterRender(st, assets), assets) == AfterRender(st, assets)
    ensures AfterRender(st, assets).write.status != Succeeded
  {
  }
}
