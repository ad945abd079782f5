/** `OngoingGameCard`: the round label, the link and image paths, and the ended marker. */
module OngoingGameCard {
  import opened Text
  import opened GameState
  import SupportedAssets

  const GamePrefix: string := "/game/"
  const ImagePrefix: string := "/api/v1/token/"
  const ImageSuffix: string := "/image"

  /** What the card shows; the formatted amount is outside this model. */
  datatype Card = Card(href: string, imageSrc: string, title: string, symbol: string, decimals: nat,
                       roundLabel: string, endedMarker: bool)

  /** `{current_index+1}/{player_count}`. */
  function RoundLabel(currentIndex: nat, playerCount: nat): string {
    NatToString(currentIndex + 1) + "/" + NatToString(playerCount)
  }

  function Render(tokenId: nat, g: Game): (c: Card)
    ensures c.endedMarker <==> g.ended
    ensures c.symbol == SupportedAssets.GetSymbol(g.asset) && c.decimals == SupportedAssets.GetDecimals(g.asset)
    ensures SupportedAssets.GetAssetConfig(g.asset).None? ==> c.symbol == "??" && c.decimals == 18
  {
    Card(GamePrefix + NatToString(tokenId),
         ImagePrefix + NatToString(tokenId) + ImageSuffix,
         "Game #" + NatToString(tokenId),
         SupportedAssets.GetSymbol(g.asset),
         SupportedAssets.GetDecimals(g.asset),
         RoundLabel(g.currentIndex, g.playerCount),
         g.ended)
  }

  /** The link is `/game/` followed by the digits of the token id, which read back as that id. */
  lemma LinkNamesToken(tokenId: nat, g: Game)
    ensures var h := Render(tokenId, g).href;
            |h| > |GamePrefix| && h[..|GamePrefix|] == GamePrefix
            && (forall i :: |GamePrefix| <= i < |h| ==> IsDigit(h[i]))
            && ParseDigits(h[|GamePrefix|..]) == tokenId
  {
    var h := Render(tokenId, g).href;
    assert h[|GamePrefix|..] == NatToString(tokenId);
    ParseNatToString(tokenId);
  }

  /** The image is `/api/v1/token/{id}/image`, and the middle reads back as the token id. */
  lemma ImageNamesToken(tokenId: nat, g: Game)
    ensures var src := Render(tokenId, g).imageSrc;
            var n := |NatToString(tokenId)|;
            |src| == |ImagePrefix| + n + |ImageSuffix|
            && src[..|ImagePrefix|] == ImagePrefix
            && src[|ImagePrefix| + n..] == ImageSuffix
            && ParseDigits(src[|ImagePrefix|..|ImagePrefix| + n]) == tokenId
  {
    var src := Render(tokenId, g).imageSrc;
    var digits := NatToString(tokenId);
    assert src[|ImagePrefix|..|ImagePrefix| + |digits|] == digits;
    ParseNatToString(tokenId);
  }

  /** The single `/` of the label separates the one-based round from the player count. */
  lemma RoundLabelParts(currentIndex: nat, playerCount: nat)
    ensures var s := RoundLabel(currentIndex, playerCount);
            var k := |NatToString(currentIndex + 1)|;
            k < |s| && s[k] == '/'
            && (forall i :: 0 <= i < |s| && i != k ==> s[i] != '/')
            && ParseDigits(s[..k]) == currentIndex + 1
            && ParseDigits(s[k + 1..]) == playerCount
  {
    var a, b := NatToString(currentIndex + 1), NatToString(playerCount);
    var s := RoundLabel(currentIndex, playerCount);
    assert s[..|a|] == a;
    assert s[|a| + 1..] == b;
    forall i | 0 <= i < |s| && i != |a| ensures s[i] != '/' {
      if i < |a| { assert s[i] == a[i]; } else { assert s[i] == b[i - |a| - 1]; }
    }
    ParseNatToString(currentIndex + 1);
    ParseNatToString(playerCount);
  }
}
