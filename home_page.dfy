/** `HomePage`: the empty view, or the list of the wallet's games. */
module HomePage {
  import opened Wrappers
  import opened Addresses
  import UserTokenIds

  datatype HomeView = EmptyView | GamesList(tokenIds: seq<nat>, isLoading: bool)

  /** `showEmpty`: no wallet, or a settled lookup that found no token. */
  predicate ShowEmpty(address: Option<string>, isLoading: bool, tokenIds: seq<nat>) {
    !Truthy(address) || (!isLoading && |tokenIds| == 0)
  }

  function View(address: Option<string>, isLoading: bool, tokenIds: seq<nat>): (v: HomeView)
    ensures !Truthy(address) ==> v == EmptyView
    ensures Truthy(address) && isLoading ==> v == GamesList(tokenIds, true)
    ensures Truthy(address) && !isLoading && tokenIds == [] ==> v == EmptyView
    ensures Truthy(address) && !isLoading && tokenIds != [] ==> v == GamesList(tokenIds, false)
  {
    if ShowEmpty(address, isLoading, tokenIds) then EmptyView else GamesList(tokenIds, isLoading)
  }

  /**
   * The page with its hook: a connected wallet whose lookup has settled sees the list
   * exactly when it holds some game token among the ids looked up, and then the list is
   * of those tokens.
   */
  method Page(address: Option<string>, balances: Option<seq<nat>>, isLoading: bool) returns (v: HomeView)
    ensures !Truthy(address) ==> v == EmptyView
    ensures Truthy(address) && !isLoading && balances.Some? ==>
              (v.GamesList? <==> exists k :: 0 <= k < |balances.value| && balances.value[k] > 0)
    ensures Truthy(address) && !isLoading && balances.None? ==> v == EmptyView
    ensures v.GamesList? ==> forall k: nat :: k in v.tokenIds <==> balances.Some? && k < |balances.value| && balances.value[k] > 0
  {
    var tokenIds := UserTokenIds.CollectTokenIds(balances, address);
    if Truthy(address) && balances.Some? {
      var b := balances.value;
      if exists k :: 0 <= k < |b| && b[k] > 0 {
        var k :| 0 <= k < |b| && b[k] > 0;
        assert k in tokenIds;
      }
      if tokenIds != [] {
        assert tokenIds[0] in tokenIds;
      }
    }
    v := View(address, isLoading, tokenIds);
  }
}
