/**
 * `useUserTokenIds`: the token ids whose game NFT the wallet holds, found by one
 * `balanceOfBatch` over ids `0 .. min(next_token_id, 100) - 1`.
 */
module UserTokenIds {
  import opened Wrappers
  import opened Addresses

  const BatchSize: nat := 100

  /** `count`: the batch size caps the next token id; an unknown id gives 0. */
  function Count(nextId: Option<nat>): (count: nat)
    ensures count <= BatchSize
    ensures nextId.None? ==> count == 0
    ensures nextId.Some? ==> count <= nextId.value && (count == nextId.value || count == BatchSize)
  {
    if nextId.None? then 0 else if nextId.value < BatchSize then nextId.value else BatchSize
  }

  /** `ids`: `0, 1, …, count - 1`. */
  function Ids(count: nat): (ids: seq<nat>)
    ensures |ids| == count
    ensures forall i :: 0 <= i < count ==> ids[i] == i
  {
    seq(count, i requires 0 <= i < count => i)
  }

  /** `owners`: `count` copies of the address, or nothing without an address. */
  function Owners(address: Option<string>, count: nat): (owners: seq<string>)
    ensures Truthy(address) && count > 0 ==> |owners| == count && forall i :: 0 <= i < |owners| ==> owners[i] == address.value
    ensures !(Truthy(address) && count > 0) ==> owners == []
  {
    if Truthy(address) && count > 0 then seq(count, _ => address.value) else []
  }

  /** The `balanceOfBatch(owners, ids)` arguments: issued only with an address and at least one id. */
  function BatchArgs(address: Option<string>, nextId: Option<nat>): (args: Option<(seq<string>, seq<nat>)>)
    ensures args.Some? <==> Truthy(address) && Count(nextId) > 0
    ensures args.Some? ==> |args.value.0| == |args.value.1| == Count(nextId)
    ensures args.Some? ==> forall i :: 0 <= i < |args.value.1| ==> args.value.0[i] == address.value && args.value.1[i] == i
  {
    var count := Count(nextId);
    if Truthy(address) && |Ids(count)| > 0 then Some((Owners(address, count), Ids(count))) else None
  }

  /** The indices below `n` whose balance is positive, in increasing order. */
  function Held(b: seq<nat>, n: nat): (ids: seq<nat>)
    requires n <= |b|
    ensures forall j :: 0 <= j < |ids| ==> ids[j] < n
  {
    if n == 0 then [] else Held(b, n - 1) + (if b[n - 1] > 0 then [n - 1] else [])
  }

  /** `Held` lists exactly the positive-balance indices, strictly ascending. */
  lemma {:induction false} HeldSpec(b: seq<nat>, n: nat)
    requires n <= |b|
    ensures forall k: nat :: k in Held(b, n) <==> k < n && b[k] > 0
    ensures forall i, j :: 0 <= i < j < |Held(b, n)| ==> Held(b, n)[i] < Held(b, n)[j]
  {
    if n > 0 {
      HeldSpec(b, n - 1);
    }
  }

  /** Any ascending list of exactly the positive-balance indices is `Held`. */
  lemma HeldUnique(b: seq<nat>, t: seq<nat>)
    requires forall k: nat :: k in t <==> k < |b| && b[k] > 0
    requires forall i, j :: 0 <= i < j < |t| ==> t[i] < t[j]
    ensures t == Held(b, |b|)
  {
    HeldSpec(b, |b|);
    AscendingDeterminedByMembers(t, Held(b, |b|));
  }

  /**
   * The `tokenIds` loop: with both balances and an address, exactly the indices of
   * positive balances, ascending; otherwise none.
   */
  method CollectTokenIds(balances: Option<seq<nat>>, address: Option<string>) returns (tokenIds: seq<nat>)
    ensures !(balances.Some? && Truthy(address)) ==> tokenIds == []
    ensures balances.Some? && Truthy(address) ==>
              forall k: nat :: k in tokenIds <==> k < |balances.value| && balances.value[k] > 0
    ensures forall i, j :: 0 <= i < j < |tokenIds| ==> tokenIds[i] < tokenIds[j]
    ensures balances.Some? && Truthy(address) ==> tokenIds == Held(balances.value, |balances.value|)
  {
    tokenIds := [];
    if balances.Some? && Truthy(address) {
      var b := balances.value;
      for i := 0 to |b|
        invariant tokenIds == Held(b, i)
      {
        if b[i] > 0 {
          tokenIds := tokenIds + [i];
        }
      }
      HeldSpec(b, |b|);
    }
  }

  /** Two strictly ascending sequences with the same members are the same sequence. */
  lemma {:induction false} AscendingDeterminedByMembers(s: seq<nat>, t: seq<nat>)
    requires forall i, j :: 0 <= i < j < |s| ==> s[i] < s[j]
    requires forall i, j :: 0 <= i < j < |t| ==> t[i] < t[j]
    requires forall k :: k in s <==> k in t
    ensures s == t
    decreases |s| + |t|
  {
    assert s != [] ==> t != [] by { if s != [] { assert s[0] in t; } }
    assert t != [] ==> s != [] by { if t != [] { assert t[0] in s; } }
    if s != [] {
      assert s[0] == t[0] by {
        assert s[0] in t;
        assert t[0] in s;
      }
      forall k | k in s[1..]
        ensures k in t[1..]
      {
        var m :| 1 <= m < |s| && s[m] == k;
        assert s[0] < k;
        assert k in t;
        var n :| 0 <= n < |t| && t[n] == k;
        assert n != 0;
        assert t[1..][n - 1] == k;
      }
      forall k | k in t[1..]
        ensures k in s[1..]
      {
        var n :| 1 <= n < |t| && t[n] == k;
        assert t[0] < k;
        assert k in s;
        var m :| 0 <= m < |s| && s[m] == k;
        assert m != 0;
        assert s[1..][m - 1] == k;
      }
      AscendingDeterminedByMembers(s[1..], t[1..]);
      assert s == [s[0]] + s[1..];
      assert t == [t[0]] + t[1..];
    }
  }
}
