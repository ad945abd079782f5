/**
 * `OngoingGamesList`: one `rotating_savings` read per token id, the games kept from the
 * successful reads (each paired with the id at its position), and the line shown per game.
 */
module OngoingGamesList {
  import opened Wrappers
  import opened Text
  import opened GameState
  import GameDetailsView
  import SupportedAssetsHook

  datatype RotatingSavingsRead = RotatingSavingsRead(tokenId: nat)

  /** One read per token id, in the same order. */
  function Reads(tokenIds: seq<nat>): (calls: seq<RotatingSavingsRead>)
    ensures |calls| == |tokenIds|
    ensures forall i :: 0 <= i < |tokenIds| ==> calls[i] == RotatingSavingsRead(tokenIds[i])
  {
    seq(|tokenIds|, i requires 0 <= i < |tokenIds| => RotatingSavingsRead(tokenIds[i]))
  }

  /** A game kept by the list, with `tokenIds[i]` for its position (absent past the end of the ids). */
  datatype Entry = Entry(tokenId: Option<nat>, game: Game)

  /** A successful read with a value. */
  predicate Kept(r: ReadResult<Option<Game>>) { r.Success? && r.result.Some? }

  /** The kept games of `results`, whose first entry sits at position `start`. */
  function GamesFrom(tokenIds: seq<nat>, results: seq<ReadResult<Option<Game>>>, start: nat): (games: seq<Entry>)
    ensures |games| <= |results|
    decreases |results|
  {
    if results == [] then []
    else
      (if Kept(results[0]) then [Entry(At(tokenIds, start), results[0].result.value)] else [])
        + GamesFrom(tokenIds, results[1..], start + 1)
  }

  /** `games`: the `map` to entries or `null`, then the `filter` that drops the nulls. */
  function Games(tokenIds: seq<nat>, results: Option<seq<ReadResult<Option<Game>>>>): (games: seq<Entry>)
    ensures results.None? ==> games == []
    ensures results.Some? ==> |games| <= |results.value|
  {
    match results
    case None => []
    case Some(rs) => GamesFrom(tokenIds, rs, 0)
  }

  /** The kept games of two runs of reads are those of the first run followed by those of the second. */
  lemma {:induction false} GamesAppend(tokenIds: seq<nat>, a: seq<ReadResult<Option<Game>>>, b: seq<ReadResult<Option<Game>>>, start: nat)
    ensures GamesFrom(tokenIds, a + b, start) == GamesFrom(tokenIds, a, start) + GamesFrom(tokenIds, b, start + |a|)
    decreases |a|
  {
    if a == [] {
      assert a + b == b;
    } else {
      var head := if Kept(a[0]) then [Entry(At(tokenIds, start), a[0].result.value)] else [];
      assert (a + b)[0] == a[0];
      assert (a + b)[1..] == a[1..] + b;
      GamesAppend(tokenIds, a[1..], b, start + 1);
      calc {
        GamesFrom(tokenIds, a + b, start);
        head + GamesFrom(tokenIds, a[1..] + b, start + 1);
        head + (GamesFrom(tokenIds, a[1..], start + 1) + GamesFrom(tokenIds, b, start + 1 + |a[1..]|));
        (head + GamesFrom(tokenIds, a[1..], start + 1)) + GamesFrom(tokenIds, b, start + |a|);
      }
    }
  }

  /**
   * A read at position `|a|` adds its own entry (a successful one, paired with the id at
   * that position) or nothing (a failed or empty one); it never affects the other entries.
   */
  lemma GamesLocal(tokenIds: seq<nat>, a: seq<ReadResult<Option<Game>>>, r: ReadResult<Option<Game>>, b: seq<ReadResult<Option<Game>>>)
    ensures Games(tokenIds, Some(a + [r] + b)) ==
            GamesFrom(tokenIds, a, 0)
              + (if Kept(r) then [Entry(At(tokenIds, |a|), r.result.value)] else [])
              + GamesFrom(tokenIds, b, |a| + 1)
  {
    GamesAppend(tokenIds, a + [r], b, 0);
    GamesAppend(tokenIds, a, [r], 0);
    assert GamesFrom(tokenIds, [r], |a|) ==
      (if Kept(r) then [Entry(At(tokenIds, |a|), r.result.value)] else []) + GamesFrom(tokenIds, [], |a| + 1);
  }

  /** When every read succeeds with a value, every id appears, in order. */
  lemma {:induction false} AllKept(tokenIds: seq<nat>, results: seq<ReadResult<Option<Game>>>, start: nat)
    requires forall i :: 0 <= i < |results| ==> Kept(results[i])
    ensures |GamesFrom(tokenIds, results, start)| == |results|
    ensures forall i :: 0 <= i < |results| ==>
              (Kept(results[i]) &&
               GamesFrom(tokenIds, results, start)[i] == Entry(At(tokenIds, start + i), results[i].result.value))
    decreases |results|
  {
    if results != [] {
      AllKept(tokenIds, results[1..], start + 1);
    }
  }

  /** What a list item shows. */
  datatype Item = Item(href: string, title: string, subtitle: string, detail: string)

  datatype ListView = LoadingGames | GameList(items: seq<Item>)

  /** `String(tokenId)` of an id that may be missing. */
  function IdText(id: Option<nat>): string {
    match id
    case Some(n) => NatToString(n)
    case None => "undefined"
  }

  /** The line under a game: deposited so far, the expected pot as raw integers, and the round. */
  function Detail(g: Game): string {
    "Deposited: " + NatToString(g.totalDeposited) + " / "
      + IntToString(GameDetailsView.ExpectedTotal(g.amount, g.playerCount)) + " \U{00B7} "
      + GameDetailsView.RoundLabel(g.currentIndex, g.playerCount, g.ended)
  }

  /** The line ends with ` · Ended` exactly for an ended game, as the details view's label does. */
  lemma DetailEnded(g: Game)
    ensures EndsWith(Detail(g), GameDetailsView.EndedSuffix) <==> g.ended
  {
    var r := GameDetailsView.RoundLabel(g.currentIndex, g.playerCount, g.ended);
    var p := "Deposited: " + NatToString(g.totalDeposited) + " / "
      + IntToString(GameDetailsView.ExpectedTotal(g.amount, g.playerCount)) + " \U{00B7} ";
    assert Detail(g) == p + r;
    EndsWithAppend(p, r, GameDetailsView.EndedSuffix);
    GameDetailsView.RoundLabelEnded(g.currentIndex, g.playerCount, g.ended);
  }

  function ItemOf(e: Entry, assets: seq<SupportedAssetsHook.SupportedAsset>): Item {
    var g := e.game;
    Item("/game/" + IdText(e.tokenId),
         "Game #" + IdText(e.tokenId),
         SupportedAssetsHook.GetSymbol(assets, g.asset) + " \U{00B7} " + NatToString(g.amount)
           + " per round \U{00B7} " + NatToString(g.playerCount) + " players",
         Detail(g))
  }

  /** The list: only the loading message while either input loads, else one item per kept game. */
  function View(isLoading: bool, isLoadingRs: bool, tokenIds: seq<nat>, results: Option<seq<ReadResult<Option<Game>>>>,
                assets: seq<SupportedAssetsHook.SupportedAsset>): (v: ListView)
    ensures isLoading || isLoadingRs <==> v == LoadingGames
    ensures v.GameList? ==> |v.items| == |Games(tokenIds, results)|
    ensures v.GameList? ==> forall i :: 0 <= i < |v.items| ==>
              v.items[i] == ItemOf(Games(tokenIds, results)[i], assets)
  {
    if isLoading || isLoadingRs then LoadingGames
    else
      var games := Games(tokenIds, results);
      GameList(seq(|games|, i requires 0 <= i < |games| => ItemOf(games[i], assets)))
  }

  /**
   * An item links to `/game/{id}` and is titled `Game #{id}`, both naming the entry's id;
   * its subtitle starts with the asset's symbol and its detail is the game's line.
   */
  lemma ItemNamesGame(e: Entry, assets: seq<SupportedAssetsHook.SupportedAsset>)
    requires e.tokenId.Some?
    ensures var it := ItemOf(e, assets);
            var symbol := SupportedAssetsHook.GetSymbol(assets, e.game.asset);
            |it.href| > 6 && it.href[..6] == "/game/" && ParseDigits(it.href[6..]) == e.tokenId.value &&
            |it.title| > 6 && it.title[..6] == "Game #" && ParseDigits(it.title[6..]) == e.tokenId.value &&
            |it.subtitle| >= |symbol| && it.subtitle[..|symbol|] == symbol &&
            it.detail == Detail(e.game)
  {
    var it := ItemOf(e, assets);
    var digits := NatToString(e.tokenId.value);
    var symbol := SupportedAssetsHook.GetSymbol(assets, e.game.asset);
    assert it.href[6..] == digits;
    assert it.title[6..] == digits;
    assert it.subtitle[..|symbol|] == symbol;
    ParseNatToString(e.tokenId.value);
  }
}
