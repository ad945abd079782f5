/**
 * `TokenAllowanceGate`: the wrapper around the deposit button that first asks for a
 * connected wallet, then for an ERC-20 allowance towards the game contract, and only then
 * shows what it wraps.
 */
module TokenAllowanceGate {
  import opened Wrappers
  import opened Addresses
  import SupportedAssets

  /** `isValidToken`: defined and of the `0x` + 40 hex digits shape. */
  predicate IsValidToken(token: Option<string>) { token.Some? && IsAddress(token.value) }

  /** The `allowance(owner, spender)` read for `token`. */
  datatype AllowanceRead = AllowanceRead(token: string, owner: string, spender: string)

  /**
   * The read is aimed at the token only when it is valid, and it has arguments only
   * when the wallet address is also given; the spender is the game contract.
   */
  function AllowanceArgs(address: Option<string>, token: Option<string>, pasanaku: string): (r: Option<AllowanceRead>)
    ensures r.Some? <==> Truthy(address) && IsValidToken(token)
    ensures r.Some? ==> r.value == AllowanceRead(token.value, address.value, pasanaku)
  {
    if Truthy(address) && IsValidToken(token) then Some(AllowanceRead(token.value, address.value, pasanaku))
    else None
  }

  /** Any positive allowance counts, however small. */
  predicate HasAllowance(allowance: Option<nat>) { allowance.Some? && allowance.value > 0 }

  const ApprovingCaption: string := "Approving\U{2026}"

  datatype GateView =
    | ConnectWallet
    | Nothing
    | Children
    | Checking
    | ApproveButton(caption: string, approving: bool, disabled: bool)

  /** `Approve {symbol} for game`, with the table's symbol or `??` for a token it does not list. */
  function ApproveCaption(token: string): (caption: string)
    ensures |caption| >= 17 && caption[..8] == "Approve " && caption[|caption| - 9..] == " for game"
    ensures SupportedAssets.GetAssetConfig(token).None? ==> caption == "Approve ?? for game"
    ensures SupportedAssets.GetAssetConfig(token).Some? ==>
              caption[8..|caption| - 9] == SupportedAssets.GetAssetConfig(token).value.symbol
  {
    "Approve " + SupportedAssets.GetSymbol(token) + " for game"
  }

  /** The decision chain, in the component's order. */
  function Gate(isConnected: bool, address: Option<string>, token: Option<string>,
                allowancePending: bool, allowance: Option<nat>, isApproving: bool): (v: GateView)
    ensures v == ConnectWallet <==> !isConnected
    ensures v == Nothing <==> isConnected && !Truthy(address)
    ensures v == Checking <==>
              isConnected && Truthy(address) && IsValidToken(token) && (allowancePending || allowance.None?)
    ensures v.ApproveButton? <==>
              isConnected && Truthy(address) && IsValidToken(token) && !allowancePending && allowance == Some(0)
    ensures v.ApproveButton? ==>
              v.disabled == isApproving && v.approving == isApproving &&
              v.caption == (if isApproving then ApprovingCaption else ApproveCaption(token.value))
    ensures v == Children <==>
              isConnected && Truthy(address) && (!IsValidToken(token) || (!allowancePending && HasAllowance(allowance)))
  {
    if !isConnected then ConnectWallet
    else if !Truthy(address) then Nothing
    else if !IsValidToken(token) then Children
    else if allowancePending || allowance.None? then Checking
    else if !HasAllowance(allowance) then
      ApproveButton(if isApproving then ApprovingCaption else ApproveCaption(token.value), isApproving, isApproving)
    else Children
  }

  /** An invalid token is never gated: a connected wallet sees the children at once. */
  lemma InvalidTokenUngated(address: Option<string>, token: Option<string>,
                            allowancePending: bool, allowance: Option<nat>, isApproving: bool)
    requires Truthy(address) && !IsValidToken(token)
    ensures Gate(true, address, token, allowancePending, allowance, isApproving) == Children
  {
  }

  /** A settled positive allowance unlocks the children for a valid token. */
  lemma PositiveAllowanceUnlocks(address: Option<string>, token: Option<string>, n: nat, isApproving: bool)
    requires Truthy(address) && IsValidToken(token) && n > 0
    ensures Gate(true, address, token, false, Some(n), isApproving) == Children
  {
  }

  /** `maxUint256`, the largest unsigned 256-bit value. */
  const MaxUint256: nat := 0xffff_ffff_ffff_ffff_ffff_ffff_ffff_ffff_ffff_ffff_ffff_ffff_ffff_ffff_ffff_ffff

  /** An `approve(spender, amount)` write to a token. */
  datatype ApproveCall = ApproveCall(token: string, spender: string, amount: nat)

  /** `handleApprove`: nothing without a token; otherwise an unlimited approval for the game contract. */
  function ApproveRequest(token: Option<string>, pasanaku: string): (r: Option<ApproveCall>)
    ensures r.Some? <==> token.Some? && token.value != ""
    ensures r.Some? ==> r.value.token == token.value && r.value.spender == pasanaku
    ensures r.Some? ==> r.value.amount + 1 == 0x1_0000_0000_0000_0000_0000_0000_0000_0000_0000_0000_0000_0000_0000_0000_0000_0000
  {
    if token.Some? && token.value != "" then Some(ApproveCall(token.value, pasanaku, MaxUint256)) else None
  }
}
