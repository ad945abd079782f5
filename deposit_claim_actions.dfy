/**
 * `DepositClaimActions`: which affordance the game view offers (ended, already deposited,
 * claim, deposit or nothing), the amounts it names, and the confirm handlers that issue
 * the claim or deposit write and close their modal.
 */
module DepositClaimActions {
  import opened Wrappers
  import opened GameState
  import opened Transaction
  import GameDetailsView

  /**
   * The three contract reads for the connected wallet; `None` stands for `undefined`
   * (no wallet, so no read arguments, or a read still pending).
   */
  datatype Facts = Facts(canClaim: Option<bool>, canDeposit: Option<bool>, hasDeposited: Option<bool>)

  /** The arguments of `can_claim` / `can_deposit`: only with a wallet address. */
  function ClaimArgs(address: Option<string>, tokenId: nat): (args: Option<(string, nat)>)
    ensures args.Some? <==> address.Some?
    ensures args.Some? ==> args.value == (address.value, tokenId)
  {
    if address.Some? then Some((address.value, tokenId)) else None
  }

  /** The arguments of `has_deposited`: the address, the token and the current round index. */
  function HasDepositedArgs(address: Option<string>, tokenId: nat, g: Game): (args: Option<(string, nat, nat)>)
    ensures args.Some? <==> address.Some?
    ensures args.Some? ==> args.value == (address.value, tokenId, g.currentIndex)
  {
    if address.Some? then Some((address.value, tokenId, g.currentIndex)) else None
  }

  /** A read without arguments never runs, so its data stays `undefined`. */
  function Fact<A>(args: Option<A>, data: Option<bool>): (f: Option<bool>)
    ensures args.None? ==> f.None?
    ensures args.Some? ==> f == data
  {
    if args.None? then None else data
  }

  /** What the component sees of the three reads, given what the chain would answer. */
  function FactsFor(address: Option<string>, tokenId: nat, g: Game, answers: Facts): (f: Facts)
    ensures address.None? ==> f == Facts(None, None, None)
    ensures address.Some? ==> f == answers
  {
    Facts(Fact(ClaimArgs(address, tokenId), answers.canClaim),
          Fact(ClaimArgs(address, tokenId), answers.canDeposit),
          Fact(HasDepositedArgs(address, tokenId, g), answers.hasDeposited))
  }

  predicate IsTrue(b: Option<bool>) { b == Some(true) }

  predicate CanShowClaim(g: Game, f: Facts) { !g.ended && IsTrue(f.canClaim) }
  predicate CanShowDeposit(g: Game, f: Facts) { !g.ended && IsTrue(f.canDeposit) }
  predicate AlreadyDeposited(g: Game, f: Facts) { !g.ended && IsTrue(f.hasDeposited) }

  datatype Affordance = GameEnded | DepositedMessage | OfferClaim(total: int) | OfferDeposit(amount: nat) | Nothing

  /**
   * The render chain in the order the component checks it: ended, then already
   * deposited, then claim, then deposit, then nothing.
   */
  function Render(g: Game, f: Facts): (a: Affordance)
    ensures g.ended <==> a == GameEnded
    ensures !g.ended && IsTrue(f.hasDeposited) <==> a == DepositedMessage
    ensures a.OfferClaim? <==> !g.ended && !IsTrue(f.hasDeposited) && IsTrue(f.canClaim)
    ensures a.OfferDeposit? <==> !g.ended && !IsTrue(f.hasDeposited) && !IsTrue(f.canClaim) && IsTrue(f.canDeposit)
    ensures a.OfferClaim? ==> a.total == GameDetailsView.ExpectedTotal(g.amount, g.playerCount)
    ensures a.OfferDeposit? ==> a.amount == g.amount
  {
    if g.ended then GameEnded
    else if AlreadyDeposited(g, f) then DepositedMessage
    else if CanShowClaim(g, f) then OfferClaim(GameDetailsView.ExpectedTotal(g.amount, g.playerCount))
    else if CanShowDeposit(g, f) then OfferDeposit(g.amount)
    else Nothing
  }

  /** Having deposited wins over being able to claim. */
  lemma DepositedBeatsClaim(g: Game, f: Facts)
    requires !g.ended && f.hasDeposited == Some(true) && f.canClaim == Some(true)
    ensures Render(g, f) == DepositedMessage
  {
  }

  /** Without a wallet every fact is undefined, so no action is offered. */
  lemma NoWalletNoAction(g: Game, tokenId: nat, answers: Facts)
    ensures Render(g, FactsFor(None, tokenId, g, answers)) == (if g.ended then GameEnded else Nothing)
  {
  }

  /** Undefined or false facts offer nothing on a running game. */
  lemma UnknownFactsNoAction(g: Game, f: Facts)
    requires !g.ended && !IsTrue(f.canClaim) && !IsTrue(f.canDeposit) && !IsTrue(f.hasDeposited)
    ensures Render(g, f) == Nothing
  {
  }

  /** The action buttons are disabled while a write is pending or while the fee is unknown. */
  function ButtonDisabled(isPending: bool, protocolFee: Option<nat>): (disabled: bool)
    ensures !disabled <==> !isPending && protocolFee.Some?
  {
    isPending || protocolFee.None?
  }

  datatype WriteFunction = Claim | Deposit

  /** A write to the game contract: the function, its `[tokenId]` argument and the fee sent as value. */
  datatype ContractWrite = ContractWrite(entry: WriteFunction, tokenId: nat, value: nat)

  /** The component's own state: its two modal flags and the writes it has handed to the wallet. */
  class ActionsState {
    var claimModalOpen: bool
    var depositModalOpen: bool
    var writes: seq<ContractWrite>

    constructor ()
      ensures !claimModalOpen && !depositModalOpen && writes == []
    {
      claimModalOpen, depositModalOpen, writes := false, false, [];
    }

    /** The claim button opens the claim modal. */
    method OpenClaimModal()
      modifies this
      ensures claimModalOpen && depositModalOpen == old(depositModalOpen) && writes == old(writes)
    {
      claimModalOpen := true;
    }

    /** The deposit button opens the deposit modal. */
    method OpenDepositModal()
      modifies this
      ensures depositModalOpen && claimModalOpen == old(claimModalOpen) && writes == old(writes)
    {
      depositModalOpen := true;
    }

    /** The modal's open-change callback and its Cancel button set the claim flag. */
    method SetClaimModalOpen(open: bool)
      modifies this
      ensures claimModalOpen == open && depositModalOpen == old(depositModalOpen) && writes == old(writes)
    {
      claimModalOpen := open;
    }

    /** The same for the deposit modal. */
    method SetDepositModalOpen(open: bool)
      modifies this
      ensures depositModalOpen == open && claimModalOpen == old(claimModalOpen) && writes == old(writes)
    {
      depositModalOpen := open;
    }

    /** `handleConfirmClaim`: a no-op without a fee; else one claim write and the claim modal closes. */
    method ConfirmClaim(tokenId: nat, protocolFee: Option<nat>)
      modifies this
      ensures protocolFee.None? ==>
                claimModalOpen == old(claimModalOpen) && depositModalOpen == old(depositModalOpen) && writes == old(writes)
      ensures protocolFee.Some? ==>
                && writes == old(writes) + [ContractWrite(Claim, tokenId, protocolFee.value)]
                && !claimModalOpen && depositModalOpen == old(depositModalOpen)
    {
      if protocolFee.None? {
        return;
      }
      writes := writes + [ContractWrite(Claim, tokenId, protocolFee.value)];
      claimModalOpen := false;
    }

    /** `handleConfirmDeposit`: a no-op without a fee; else one deposit write and the deposit modal closes. */
    method ConfirmDeposit(tokenId: nat, protocolFee: Option<nat>)
      modifies this
      ensures protocolFee.None? ==>
                claimModalOpen == old(claimModalOpen) && depositModalOpen == old(depositModalOpen) && writes == old(writes)
      ensures protocolFee.Some? ==>
                && writes == old(writes) + [ContractWrite(Deposit, tokenId, protocolFee.value)]
                && !depositModalOpen && claimModalOpen == old(claimModalOpen)
    {
      if protocolFee.None? {
        return;
      }
      writes := writes + [ContractWrite(Deposit, tokenId, protocolFee.value)];
      depositModalOpen := false;
    }
  }

  /** A client of the state: opening the claim modal and confirming with a fee issues exactly one claim. */
  method ClaimFlow(tokenId: nat, fee: nat) returns (writes: seq<ContractWrite>, stillOpen: bool)
    ensures writes == [ContractWrite(Claim, tokenId, fee)] && !stillOpen
  {
    var st := new ActionsState();
    st.OpenClaimModal();
    st.ConfirmClaim(tokenId, Some(fee));
    writes, stillOpen := st.writes, st.claimModalOpen;
  }
}
