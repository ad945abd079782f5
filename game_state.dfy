/**
 * The game record. `RawGame` is the `rotating_savings(token_id)` tuple as the server-side
 * reader types it (`participants`, `current_index`); `Game` is the one shape the views use,
 * with `players`, `playerCount` and a single `currentIndex` field.
 */
module GameState {
  import opened Wrappers

  datatype RawGame = RawGame(
    participants: seq<string>,
    asset: string,
    amount: nat,
    currentIndex: nat,
    totalDeposited: nat,
    tokenId: nat,
    ended: bool,
    recovered: bool,
    creator: string,
    createdAt: nat,
    lastUpdatedAt: nat)

  datatype Game = Game(
    players: seq<string>,
    asset: string,
    amount: nat,
    playerCount: nat,
    currentIndex: nat,
    creator: string,
    totalDeposited: nat,
    tokenId: nat,
    ended: bool,
    recovered: bool,
    createdAt: nat,
    lastUpdatedAt: nat)

  /** A record whose count agrees with its list, as normalisation produces. */
  predicate Normalized(g: Game) { g.playerCount == |g.players| }

  /** The spread of `getRotatingSavings`: `players := participants`, `player_count := |participants|`. */
  function Normalize(raw: RawGame): (g: Game)
    ensures Normalized(g)
    ensures g.players == raw.participants && g.playerCount == |raw.participants|
  {
    Game(raw.participants, raw.asset, raw.amount, |raw.participants|, raw.currentIndex, raw.creator,
         raw.totalDeposited, raw.tokenId, raw.ended, raw.recovered, raw.createdAt, raw.lastUpdatedAt)
  }

  /** The raw fields, read back from a normalised record. */
  function Raw(g: Game): RawGame {
    RawGame(g.players, g.asset, g.amount, g.currentIndex, g.totalDeposited, g.tokenId, g.ended,
            g.recovered, g.creator, g.createdAt, g.lastUpdatedAt)
  }

  /** Every raw field is carried over unchanged: reading them back gives the raw tuple. */
  lemma NormalizeKeepsFields(raw: RawGame)
    ensures Raw(Normalize(raw)) == raw
  {
  }

  /** Of a normalised record, normalisation is the inverse of reading back the raw fields. */
  lemma NormalizeRoundTrip(g: Game)
    requires Normalized(g)
    ensures Normalize(Raw(g)) == g
  {
  }

  /** `getRotatingSavings`: an error only when the read itself fails; no local existence check. */
  function GetRotatingSavings(read: ReadResult<RawGame>): (r: ReadResult<Game>)
    ensures r.Failure? <==> read.Failure?
    ensures r.Success? ==> r.result == Normalize(read.result)
  {
    match read
    case Success(raw) => Success(Normalize(raw))
    case Failure => Failure
  }

  /** The all-zero tuple the contract returns for an unknown id normalises to a game with no players. */
  lemma ZeroTupleHasNoPlayers(raw: RawGame)
    requires raw.participants == []
    ensures GetRotatingSavings(Success(raw)) == Success(Normalize(raw))
    ensures Normalize(raw).playerCount == 0
  {
  }
}
