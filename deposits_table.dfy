/**
 * `DepositsTable`: the payers of the current round (every player but the recipient), the
 * recipient, one `has_deposited` read per payer, and the status shown per row.
 */
module DepositsTable {
  import opened Wrappers
  import opened Text

  /** `abbreviateAddress`: short (or empty) strings as they are, else `first6...last4`. */
  function Abbreviate(address: string): (s: string)
    ensures |address| < 10 ==> s == address
    ensures |address| >= 10 ==>
              |s| == 13 && s[..6] == address[..6] && s[6..9] == "..." && s[9..] == address[|address| - 4..]
  {
    if |address| < 10 then address else address[..6] + "..." + address[|address| - 4..]
  }

  /** The players other than the one at the current index, in order. */
  function Payers(players: seq<string>, currentIdx: nat): (payers: seq<string>)
    ensures |payers| == if currentIdx < |players| then |players| - 1 else |players|
  {
    if players == [] then []
    else
      var last := |players| - 1;
      Payers(players[..last], currentIdx) + (if last != currentIdx then [players[last]] else [])
  }

  /** The payers are the players without the recipient's slot, in their original order. */
  lemma {:induction false} PayersSkipRecipient(players: seq<string>, currentIdx: nat)
    ensures currentIdx < |players| ==> Payers(players, currentIdx) == players[..currentIdx] + players[currentIdx + 1..]
    ensures currentIdx >= |players| ==> Payers(players, currentIdx) == players
  {
    if players != [] {
      var last := |players| - 1;
      var init := players[..last];
      PayersSkipRecipient(init, currentIdx);
      if currentIdx < last {
        assert init[..currentIdx] == players[..currentIdx];
        assert init[currentIdx + 1..] + [players[last]] == players[currentIdx + 1..];
      } else if currentIdx == last {
        assert init == players[..currentIdx];
        assert players[currentIdx + 1..] == [];
      } else {
        assert init + [players[last]] == players;
      }
    }
  }

  /** One payer fewer than there are players when the index is in range; all players otherwise. */
  lemma PayerCount(players: seq<string>, currentIdx: nat)
    ensures currentIdx < |players| ==> |Payers(players, currentIdx)| == |players| - 1
    ensures currentIdx >= |players| ==> Payers(players, currentIdx) == players
  {
    PayersSkipRecipient(players, currentIdx);
  }

  /** The payers together with the recipient are exactly the players. */
  lemma PayersAndRecipient(players: seq<string>, currentIdx: nat)
    requires currentIdx < |players|
    ensures multiset(Payers(players, currentIdx)) + multiset{players[currentIdx]} == multiset(players)
  {
    PayersSkipRecipient(players, currentIdx);
    SliceAroundMultiset(players, currentIdx);
  }

  lemma SliceAroundMultiset(s: seq<string>, k: nat)
    requires k < |s|
    ensures multiset(s[..k] + s[k + 1..]) + multiset{s[k]} == multiset(s)
  {
    assert s == s[..k] + [s[k]] + s[k + 1..];
  }

  /** The current player, else the first one: nothing only when there are no players. */
  function Recipient(players: seq<string>, currentIdx: nat): (r: Option<string>)
    ensures currentIdx < |players| ==> r == Some(players[currentIdx])
    ensures currentIdx >= |players| && players != [] ==> r == Some(players[0])
    ensures r.None? <==> players == []
  {
    if currentIdx < |players| then Some(players[currentIdx])
    else if players != [] then Some(players[0])
    else None
  }

  /** `has_deposited(payer, tokenId, currentRoundIndex)`. */
  datatype HasDepositedRead = HasDepositedRead(player: string, tokenId: nat, round: nat)

  /** One read per payer, in payer order. */
  function DepositReads(payers: seq<string>, tokenId: nat, round: nat): (calls: seq<HasDepositedRead>)
    ensures |calls| == |payers|
    ensures forall i :: 0 <= i < |payers| ==> calls[i] == HasDepositedRead(payers[i], tokenId, round)
  {
    seq(|payers|, i requires 0 <= i < |payers| => HasDepositedRead(payers[i], tokenId, round))
  }

  /** Per read: deposited only for a successful read that returned true. */
  function DepositStatuses(results: seq<ReadResult<bool>>): (statuses: seq<bool>)
    ensures |statuses| == |results|
    ensures forall i :: 0 <= i < |results| ==> (statuses[i] <==> results[i] == Success(true))
  {
    seq(|results|, i requires 0 <= i < |results| => results[i] == Success(true))
  }

  datatype RowStatus = Deposited | PendingDeposit

  datatype Row = Row(player: string, status: RowStatus)

  datatype TableView = Loading | Table(header: string, rows: seq<Row>)

  /** The header line: `Round {currentIdx+1} · Current recipient: {abbreviated}`. */
  function Header(players: seq<string>, currentIdx: nat): string {
    var recipient := match Recipient(players, currentIdx) case Some(a) => Abbreviate(a) case None => "";
    "Round " + NatToString(currentIdx + 1) + " \U{00B7} Current recipient: " + recipient
  }

  /**
   * The table: loading until the reads are in; then one row per payer, in payer order,
   * showing "Deposited" exactly when that payer's read succeeded with `true`.
   */
  function View(players: seq<string>, currentIdx: nat, isLoading: bool, results: Option<seq<ReadResult<bool>>>)
    : (v: TableView)
    ensures isLoading || results.None? <==> v == Loading
    ensures v.Table? ==> |v.rows| == |Payers(players, currentIdx)|
    ensures v.Table? ==> forall i :: 0 <= i < |v.rows| ==>
              v.rows[i].player == Abbreviate(Payers(players, currentIdx)[i]) &&
              (v.rows[i].status == Deposited <==> i < |results.value| && results.value[i] == Success(true))
  {
    if isLoading || results.None? then Loading
    else
      var payers := Payers(players, currentIdx);
      var statuses := DepositStatuses(results.value);
      Table(Header(players, currentIdx),
            seq(|payers|, i requires 0 <= i < |payers| =>
              Row(Abbreviate(payers[i]), if i < |statuses| && statuses[i] then Deposited else PendingDeposit)))
  }

  /** The header's round number is the current index plus one. */
  lemma HeaderRound(players: seq<string>, currentIdx: nat)
    ensures var h := Header(players, currentIdx);
            var n := |NatToString(currentIdx + 1)|;
            |h| >= 6 + n && h[..6] == "Round " && ParseDigits(h[6..6 + n]) == currentIdx + 1
  {
    var h := Header(players, currentIdx);
    var digits := NatToString(currentIdx + 1);
    assert h[6..6 + |digits|] == digits;
    ParseNatToString(currentIdx + 1);
  }

  /** The header ends with the abbreviated recipient, or with nothing when there are no players. */
  lemma HeaderRecipient(players: seq<string>, currentIdx: nat)
    ensures Recipient(players, currentIdx).Some? ==>
              EndsWith(Header(players, currentIdx),
                       " \U{00B7} Current recipient: " + Abbreviate(Recipient(players, currentIdx).value))
    ensures Recipient(players, currentIdx).None? ==> EndsWith(Header(players, currentIdx), " \U{00B7} Current recipient: ")
  {
    var tag := " \U{00B7} Current recipient: ";
    var recipient := match Recipient(players, currentIdx) case Some(a) => Abbreviate(a) case None => "";
    var h := Header(players, currentIdx);
    var p := "Round " + NatToString(currentIdx + 1);
    assert h == p + (tag + recipient);
    assert h[|h| - |tag + recipient|..] == tag + recipient;
  }
}
