# Pasanaku web client — a Dafny model of its derivations

Pasanaku is an on-chain rotating-savings game. Each game is an ERC-1155 token. Its
players each deposit a fixed `amount` of an ERC-20 asset every round, and the pot goes to
one player per round. The web client reads the game contract and the asset contracts,
and turns those reads into validated forms, labels, percentages, tables and button
states. This project models those derivations as Dafny functions, a few methods and one
class, and proves their properties. Every read from the chain or a wallet library is an
input value: `Option<…>` for "undefined", and `ReadResult<T> = Success(result) | Failure`
for a per-call status.

Modules, one per client file (plus three shared ones):

- `Wrappers`: `Option`, `ReadResult`, indexed access.
- `Text`: `toLowerCase`, ECMAScript `trim`, `split` on a character class, the decimal
  rendering that template strings use, and a suffix test.
- `Addresses`: the `^0x[a-fA-F0-9]{40}$` test that four files repeat, and the truthiness
  of an optional address.
- `SupportedAssets`: the static asset table and its case-insensitive lookups.
- `SupportedAssetsHook`: the address filter, the paired ERC-20 reads, the asset-building
  loop (a `method`) and the lookups with their fallbacks.
- `TokenDisplay`: the static-table path versus the chain-read path.
- `CreateGameForm`: the create-game schema, the players parser, and the submit payload.
- `FaucetForm` and `FaucetPage`: the two faucet schemas, default tokens, option labels, the
  mint button, and the reset after a successful write.
- `Transaction`: the write/receipt status shared by the forms and the actions (`isPending`,
  `errorMessage`, `showError`).
- `GameState`: the raw contract tuple and its normalisation (`players`, `player_count`).
- `GameDetailsView`, `DepositsTable`, `OngoingGamesList`, `OngoingGameCard`: the pot,
  percentage, round labels, the payer/recipient split, and the game list.
- `DepositClaimActions`: the affordance precedence, plus a class `ActionsState` that holds
  the two modal flags and the writes the confirm handlers issue.
- `TokenAllowanceGate`: the connect / check / approve / unlock chain.
- `UserTokenIds`: the count, ids, owners and batch arguments, and the `tokenIds` loop (a
  `method`).
- `HomePage`: the choice between the empty view and the list.

Notes on the model:

- The client names the round index in two ways:
  - client/components/pasanaku/game-details-view.tsx:72 and
    client/components/pasanaku/ongoing-games-list.tsx:15 read `current_player_index`, and
    so does the ABI in client/lib/abi.ts:795;
  - client/components/pasanaku/ongoing-game-card.tsx:14,
    client/components/pasanaku/deposit-claim-actions.tsx:77 and
    client/lib/viem-server.ts:20 read `current_index`.

  The model keeps one record, `GameState.Game`, with one field `currentIndex`, and every
  module reads that field. With the tuple as the ABI names it, the `current_index` readers
  would see `undefined`; the model does not reproduce that mismatch.
- `can_claim` and `can_deposit` are not in the ABI file. They are opaque boolean reads
  (`DepositClaimActions.Facts`).
- The address of the game contract comes from client/lib/contract.ts, which is not part of
  this model. It is a parameter (`pasanaku`) wherever it appears.
- The faucet form's local `getSymbol`/`getDecimals` are the shared table lookups. The model
  uses `SupportedAssets.GetSymbol`/`GetDecimals` for both. The faucet page has the same
  schema as the faucet form, so `FaucetPage.OnSubmit` uses `FaucetForm.Validate`.
- `Number(s.trim()) > 0` on an amount is a floating-point test. It is an input boolean,
  `amountPositive`. It accepts `"1e3"` and `"Infinity"`, on which `parseUnits` throws inside
  `onSubmit`; whether `parseUnits` accepts the amount is a second input, `amountParses`.
- The raw game tuple follows the reader's own type `RotatingSavingsRaw`
  (client/lib/viem-server.ts:16-28), which has `participants`, `current_index` and
  `recovered`. The ABI's tuple (client/lib/abi.ts:776-822) instead has `players` and
  `player_count` and has no `participants` or `recovered`. Decoded as the ABI declares it,
  `result.participants.length` (client/lib/viem-server.ts:53-55 and
  client/app/game/[tokenId]/page.tsx:44-45) would throw. The model follows the reader's
  type, so `GameState.Normalize` succeeds on every tuple; it does not reproduce that throw.

## Model

| member | source | states |
|---|---|---|
| Text.ToLower | client/lib/supported-assets.ts:33 | same length; each character lower-cased (ASCII letters only), others unchanged |
| Text.ToLowerIdempotent | client/lib/supported-assets.ts:33 | lower-casing twice is lower-casing once |
| Text.Trim | client/components/pasanaku/create-game-form.tsx:50 | the result is the slice of the input between its leading and trailing whitespace; everything cut is whitespace; the result neither starts nor ends with whitespace |
| Text.TrimClean | client/components/pasanaku/create-game-form.tsx:50 | a string with no whitespace at either end is its own trim |
| Text.TrimAllSpace | client/components/pasanaku/create-game-form.tsx:50 | an all-whitespace string trims to "" |
| Text.Split | client/components/pasanaku/create-game-form.tsx:49 | at least one piece; no piece contains a separator; one more piece than separators |
| Text.SplitConcat | client/components/pasanaku/create-game-form.tsx:49 | gluing the pieces back gives the input with its separators removed (nothing is lost or reordered) |
| Text.SplitAtSeparator | client/components/pasanaku/create-game-form.tsx:49 | splitting `a + sep + b` is splitting `a` followed by splitting `b` |
| Text.NatToString | client/components/pasanaku/ongoing-game-card.tsx:42 | non-empty, digits only, no leading zero |
| Text.ParseNatToString | client/components/pasanaku/ongoing-game-card.tsx:42 | reading the digits back gives the number (the rendering is lossless) |
| Text.NatToStringInjective | client/components/pasanaku/ongoing-game-card.tsx:42 | different numbers render differently |
| Text.EndsWithAppend | client/components/pasanaku/ongoing-games-list.tsx:86-89 | a suffix no longer than the tail is decided by the tail alone |
| Addresses.IsAddress | client/components/pasanaku/create-game-form.tsx:25 | the `addressRegex` test: 42 characters, `0` and a lower-case `x`, then forty hex digits of either case |
| Addresses.AddressShape | client/components/pasanaku/create-game-form.tsx:25 | the check accepts a string iff it is the literal `0x` followed by exactly forty characters of the class `[a-fA-F0-9]`, with nothing before or after |
| Addresses.LowerKeepsAddress | client/lib/supported-assets.ts:33 | lower-casing an accepted address keeps it accepted |
| Addresses.UpperPrefixRefused | client/components/pasanaku/create-game-form.tsx:25 | a `0X` prefix is refused (the `x` is case-sensitive) |
| Addresses.ZeroAddressValid | client/hooks/use-supported-assets.ts:35 | the zero address has the accepted shape |
| SupportedAssets.Lookup | client/lib/supported-assets.ts:32-34 | found iff the key is in the table, and then the entry stored under it |
| SupportedAssets.GetAssetConfig | client/lib/supported-assets.ts:32-34 | resolves iff the lower-cased address is one of the three listed keys |
| SupportedAssets.GetSymbol | client/lib/supported-assets.ts:36-38 | the table symbol, else `"??"` |
| SupportedAssets.GetDecimals | client/lib/supported-assets.ts:40-42 | the table decimals, else 18 |
| SupportedAssets.LookupIgnoresCase | client/lib/supported-assets.ts:32-34 | config, symbol and decimals agree for an address and its lower-cased form |
| SupportedAssets.TableContents | client/lib/supported-assets.ts:14-30 | USDC and USDT0 have 6 decimals, WETH 18; every other address gets `"??"`/18 |
| SupportedAssets.EmptyAddressDefaults | client/lib/supported-assets.ts:33 | the empty address resolves to nothing and so gets `"??"`/18 |
| SupportedAssets.KeysAreAddresses | client/lib/supported-assets.ts:14-30 | every key is an accepted lower-case address that resolves to its own entry |
| SupportedAssetsHook.KeepAddress | client/hooks/use-supported-assets.ts:35-36 | the filter test: non-empty and not the zero address once both are lower-cased; its consequences are stated by FilterAddresses and KeepOnlyMembership |
| SupportedAssetsHook.KeepOnly | client/hooks/use-supported-assets.ts:33-37 | never longer than its input; every kept entry passes the filter and comes from the input |
| SupportedAssetsHook.FilterAddresses | client/hooks/use-supported-assets.ts:33-37 | no list gives no addresses; every kept address is non-empty and not the zero address in any case |
| SupportedAssetsHook.KeepOnlyMembership | client/hooks/use-supported-assets.ts:33-37 | an address is kept iff it was listed and passes the filter |
| SupportedAssetsHook.KeepOnlyAppend | client/hooks/use-supported-assets.ts:33-37 | the filter works entry by entry, so order is preserved |
| SupportedAssetsHook.ContractReads | client/hooks/use-supported-assets.ts:39-50 | twice as many reads as addresses: `symbol` at 2i and `decimals` at 2i+1, both on address i |
| SupportedAssetsHook.SymbolOf | client/hooks/use-supported-assets.ts:61-64 | a failed or null symbol read gives `"???"`; a text result is the symbol; a number result is its decimal rendering, as `String(result)` gives it |
| SupportedAssetsHook.DecimalsOf | client/hooks/use-supported-assets.ts:65-68 | a failed or null decimals read gives 18; a numeric result is the decimals |
| SupportedAssetsHook.AssetsOf | client/hooks/use-supported-assets.ts:56-74 | empty unless the result count equals the read count; else one asset per address, in order, with the address copied |
| SupportedAssetsHook.BuildAssets | client/hooks/use-supported-assets.ts:56-75 | the loop builds exactly `AssetsOf` |
| SupportedAssetsHook.AssetDefaults | client/hooks/use-supported-assets.ts:58-74 | asset i takes its symbol from result 2i and its decimals from result 2i+1; a failed or null read gives that field's `"???"`/18 default |
| SupportedAssetsHook.FindIndex | client/hooks/use-supported-assets.ts:78-79 | the first asset whose lower-cased address is the key, or none when no asset matches |
| SupportedAssetsHook.GetSymbol | client/hooks/use-supported-assets.ts:77-81 | the first match's symbol, else the first six characters of the lower-cased address followed by `…` |
| SupportedAssetsHook.GetDecimals | client/hooks/use-supported-assets.ts:83-87 | the decimals of the first asset matching the lower-cased address; 18 when none matches |
| SupportedAssetsHook.HookLookupIgnoresCase | client/hooks/use-supported-assets.ts:78-79 | both lookups give the same answer for an address and its lower-cased form |
| SupportedAssetsHook.HookLookupFirstMatch | client/hooks/use-supported-assets.ts:84-85 | with duplicates, the earliest matching asset wins |
| SupportedAssetsHook.SymbolFallbackShape | client/hooks/use-supported-assets.ts:80 | the fallback has at most 7 characters and ends in `…` |
| TokenDisplay.Plan | client/components/pasanaku/token-display.tsx:23-32 | a known address requests no reads and stays disabled; an unknown one requests `symbol` then `name` |
| TokenDisplay.NameAndSymbol | client/components/pasanaku/token-display.tsx:37-39 | `name (symbol)` iff the name is wanted and differs from the symbol, else the symbol |
| TokenDisplay.ChainSymbol | client/components/pasanaku/token-display.tsx:56-59 | the symbol read's text when it succeeded, else `"??"` |
| TokenDisplay.ChainName | client/components/pasanaku/token-display.tsx:56-61 | the name read's text when it succeeded, else the symbol shown |
| TokenDisplay.Render | client/components/pasanaku/token-display.tsx:34-67 | the table path when configured; otherwise a spinner while pending, `"??"` without data, else `NameAndSymbol` of the read name and symbol |
| TokenDisplay.MixedReadsShown | client/components/pasanaku/token-display.tsx:56-65 | a failed symbol read next to a successful name read shows `name (??)`; a name equal to the symbol shows the symbol alone |
| TokenDisplay.SymbolOnlyWithoutName | client/components/pasanaku/token-display.tsx:37-65 | without `showName` the label is always the symbol alone, or a spinner |
| TokenDisplay.FailedReadsDegrade | client/components/pasanaku/token-display.tsx:58-61 | a failed symbol read shows `"??"`; a failed name read shows the symbol alone |
| TokenDisplay.ChainNameShown | client/components/pasanaku/token-display.tsx:65 | two successful reads with a different name show `name (symbol)` |
| CreateGameForm.TrimEach | client/components/pasanaku/create-game-form.tsx:50 | one trimmed piece per piece, in order |
| CreateGameForm.NonEmpty | client/components/pasanaku/create-game-form.tsx:51 | the result holds every non-empty piece as often as the input does, and no empty one |
| CreateGameForm.NonEmptyMembers | client/components/pasanaku/create-game-form.tsx:51 | a string is in the filtered list iff it is a non-empty piece of the input |
| CreateGameForm.ParsePlayers | client/components/pasanaku/create-game-form.tsx:48-51 | no entry is empty, starts or ends with whitespace, or contains `,` or a newline |
| CreateGameForm.ParseAtSeparator | client/components/pasanaku/create-game-form.tsx:48-51 | parsing `a , b` is parsing `a` followed by parsing `b` (order and duplicates kept) |
| CreateGameForm.ParseSingle | client/components/pasanaku/create-game-form.tsx:48-51 | a clean entry without separators parses to itself alone |
| CreateGameForm.BlankInputFails | client/components/pasanaku/create-game-form.tsx:52-58 | input of separators and whitespace only parses to no players and fails the players rule |
| CreateGameForm.PlayersRule | client/components/pasanaku/create-game-form.tsx:46-58 | the players refinement: the parse has 1 to 12 entries and each is an address; PlayersRuleNonEmpty, BlankInputFails and ValidIff state its consequences |
| CreateGameForm.AssetErrors | client/components/pasanaku/create-game-form.tsx:29-32 | no message iff the asset is an address; an empty asset gets both messages, any other non-address "Invalid asset" alone |
| CreateGameForm.AmountErrors | client/components/pasanaku/create-game-form.tsx:33-42 | no message iff the amount is given and positive; an empty amount gets both messages, a non-positive one the positive-number message alone |
| CreateGameForm.PlayersErrors | client/components/pasanaku/create-game-form.tsx:43-59 | no message iff the players rule holds; empty text gets both messages, any other failing text the range message alone |
| CreateGameForm.Valid | client/components/pasanaku/create-game-form.tsx:28-60 | the schema passes: no field has a message; ValidIff restates it as the three rules |
| CreateGameForm.Validate | client/components/pasanaku/create-game-form.tsx:27-59 | no errors iff the values are valid; otherwise at least one field has an error |
| CreateGameForm.ValidIff | client/components/pasanaku/create-game-form.tsx:29-58 | valid iff the asset is an address, the amount is given and positive, and the parse has 1..12 addresses; any empty field is invalid |
| CreateGameForm.PlayersRuleNonEmpty | client/components/pasanaku/create-game-form.tsx:45-58 | an empty players string never passes |
| CreateGameForm.OnSubmit | client/components/pasanaku/create-game-form.tsx:99-112 | a payload iff the form is valid and `parseUnits` accepts the amount; its players come from the same parse, so they are 1..12 addresses; its decimals come from the on-chain asset lookup |
| FaucetForm.AddressFieldErrors | client/components/pasanaku/faucet-form.tsx:45-55 | no error iff the field is an accepted address |
| FaucetForm.AmountFieldErrors | client/components/pasanaku/faucet-form.tsx:56-64 | no error iff the amount is given and positive; an empty amount gets both messages |
| FaucetForm.Valid | client/components/pasanaku/faucet-form.tsx:47-66 | the faucet schema passes: token and address are addresses, and the amount is given and positive; Validate ties it to the messages |
| FaucetForm.Validate | client/components/pasanaku/faucet-form.tsx:45-95 | no errors iff token and address are accepted addresses and the amount is valid; empty fields carry their "required" messages |
| FaucetForm.OnSubmit | client/components/pasanaku/faucet-form.tsx:97-108 | a faucet call iff the form is valid and `parseUnits` accepts the amount, on the chosen token, to the given address, with the table's decimals |
| FaucetForm.DefaultToken | client/components/pasanaku/faucet-form.tsx:83 | the first table key (USDC), an accepted address that resolves |
| FaucetForm.OptionLabel | client/components/pasanaku/faucet-form.tsx:177-180 | the symbol, plus ` (name)` only when the name differs |
| FaucetForm.TableLabelsAreSymbols | client/components/pasanaku/faucet-form.tsx:177-180 | every label of the current table is a bare symbol |
| FaucetForm.Control | client/components/pasanaku/faucet-form.tsx:131-348 | connect button iff disconnected; mint disabled iff it cannot submit, is submitting or a write is pending; the caption is `Minting…` while submitting, else `Mint`, and a submitting button is always disabled |
| FaucetPage.DefaultToken | client/app/faucet/page.tsx:60 | the first on-chain asset's address, or `""` |
| FaucetPage.OnSubmit | client/app/faucet/page.tsx:76-85 | a write iff the schema holds and `parseUnits` accepts the amount, with decimals from the on-chain lookup, 18 for an address it does not know |
| FaucetPage.AfterRender | client/app/faucet/page.tsx:89-94 | after a successful write both the form and the write are reset; otherwise nothing changes |
| FaucetPage.ResetSettles | client/app/faucet/page.tsx:89-94 | the reset leaves no success behind, so running it again changes nothing |
| Transaction.TxHash | client/components/pasanaku/deposit-claim-actions.tsx:82-85 | a hash only for a pending or successful write, and then the write's hash |
| Transaction.IsPending | client/components/pasanaku/deposit-claim-actions.tsx:153-154 | a pending write is pending; an idle or failed one never is; a successful one is pending iff it returned a hash whose receipt is still awaited |
| Transaction.ErrorMessage | client/components/pasanaku/deposit-claim-actions.tsx:156-157 | the write's error first, else the receipt's |
| Transaction.ShowError | client/components/pasanaku/deposit-claim-actions.tsx:158-159 | shown iff the write failed or the receipt did, and the message chosen (the write's error first, else the receipt's) is non-empty |
| Transaction.PendingShowsOnlyReceiptError | client/components/pasanaku/faucet-form.tsx:131-137 | while the write is pending, an error is shown only if the receipt has one |
| GameState.Normalize | client/lib/viem-server.ts:51-56 | `players` is `participants` and `player_count` is its length |
| GameState.NormalizeKeepsFields | client/lib/viem-server.ts:52-53 | every raw field is carried over unchanged |
| GameState.NormalizeRoundTrip | client/lib/viem-server.ts:51-56 | a normalised game is recovered from its raw tuple |
| GameState.GetRotatingSavings | client/lib/viem-server.ts:45-56 | fails exactly when the read fails; otherwise the normalised tuple, with no extra check |
| GameState.ZeroTupleHasNoPlayers | client/lib/viem-server.ts:38-41 | a zero-valued tuple is accepted and has `player_count = 0` |
| GameDetailsView.ExpectedTotal | client/components/pasanaku/game-details-view.tsx:42 | positive iff amount > 0 and more than one player; negative only for a zero-player game |
| GameDetailsView.Percentage | client/components/pasanaku/game-details-view.tsx:46-52 | in [0,100]; 0 when the pot is ≤ 0; otherwise the floor of `total × 100 / pot`, capped at 100 |
| GameDetailsView.FullPotIsHundred | client/components/pasanaku/game-details-view.tsx:48-51 | a full pot gives exactly 100 |
| GameDetailsView.PercentageMonotone | client/components/pasanaku/game-details-view.tsx:46-52 | non-decreasing in the amount deposited |
| GameDetailsView.SmallGamesShowZero | client/components/pasanaku/game-details-view.tsx:46-52 | 0- and 1-player games show 0, with no division |
| GameDetailsView.RoundLabel | client/components/pasanaku/game-details-view.tsx:72-74 | longer than the ended suffix; its parts are stated by the three lemmas below |
| GameDetailsView.RoundLabelEnded | client/components/pasanaku/game-details-view.tsx:72-74 | ends with ` · Ended` iff the game ended |
| GameDetailsView.RoundLabelNumber | client/components/pasanaku/game-details-view.tsx:72 | `Round ` then the digits of the index plus one, which read back |
| GameDetailsView.RoundLabelCount | client/components/pasanaku/game-details-view.tsx:72-74 | after the round number come ` of ` and the digits of `player_count`, which read back, then the ended suffix or nothing |
| DepositsTable.Abbreviate | client/components/pasanaku/deposits-table.tsx:19-22 | short strings unchanged; otherwise 6 leading characters, `...` and 4 trailing ones, 13 in all |
| DepositsTable.Payers | client/components/pasanaku/deposits-table.tsx:35-36 | one payer fewer than players when the index is in range, else as many |
| DepositsTable.PayersSkipRecipient | client/components/pasanaku/deposits-table.tsx:35-36 | payers are the players without the one at the current index, in order; all players when the index is past the end |
| DepositsTable.PayerCount | client/components/pasanaku/deposits-table.tsx:36 | one payer fewer than players when the index is in range |
| DepositsTable.PayersAndRecipient | client/components/pasanaku/deposits-table.tsx:35-37 | payers plus the recipient are exactly the players, as a multiset |
| DepositsTable.Recipient | client/components/pasanaku/deposits-table.tsx:37 | the current player if in range, else the first; none only without players |
| DepositsTable.DepositReads | client/components/pasanaku/deposits-table.tsx:39-44 | one `has_deposited(payer, tokenId, round)` read per payer, in order |
| DepositsTable.DepositStatuses | client/components/pasanaku/deposits-table.tsx:66-68 | deposited iff the read succeeded with true |
| DepositsTable.View | client/components/pasanaku/deposits-table.tsx:60-100 | loading iff loading or no results; otherwise one row per payer, "Deposited" iff its read returned true |
| DepositsTable.Header | client/components/pasanaku/deposits-table.tsx:74-76 | the header line; HeaderRound and HeaderRecipient state its two parts |
| DepositsTable.HeaderRound | client/components/pasanaku/deposits-table.tsx:75 | the header names round index + 1 |
| DepositsTable.HeaderRecipient | client/components/pasanaku/deposits-table.tsx:75-76 | the header ends with `· Current recipient: ` and the abbreviated recipient, or nothing after it when there are no players |
| OngoingGamesList.Reads | client/components/pasanaku/ongoing-games-list.tsx:34-39 | one `rotating_savings` read per token id, in order |
| OngoingGamesList.GamesFrom | client/components/pasanaku/ongoing-games-list.tsx:53-59 | never more games than results; the entries are fixed by GamesAppend, GamesLocal and AllKept |
| OngoingGamesList.Games | client/components/pasanaku/ongoing-games-list.tsx:53-59 | no results, no games; never more games than results |
| OngoingGamesList.GamesAppend | client/components/pasanaku/ongoing-games-list.tsx:53-59 | the filter works position by position, keeping the order and each token id |
| OngoingGamesList.GamesLocal | client/components/pasanaku/ongoing-games-list.tsx:53-59 | a result only decides its own entry: a failure drops that entry alone |
| OngoingGamesList.AllKept | client/components/pasanaku/ongoing-games-list.tsx:53-59 | when every read succeeds, each game is paired with the token id at its own position |
| OngoingGamesList.Detail | client/components/pasanaku/ongoing-games-list.tsx:84-90 | the line under a game; DetailEnded states its ended suffix, and its round part is GameDetailsView.RoundLabel |
| OngoingGamesList.ItemOf | client/components/pasanaku/ongoing-games-list.tsx:67-82 | one list item; View places one per kept game, in order, and ItemNamesGame states its parts |
| OngoingGamesList.ItemNamesGame | client/components/pasanaku/ongoing-games-list.tsx:71-80 | `/game/{id}` and `Game #{id}`, both of whose ids read back; the subtitle starts with the asset symbol; the detail is the game line |
| OngoingGamesList.DetailEnded | client/components/pasanaku/ongoing-games-list.tsx:85-89 | the detail line ends with ` · Ended` iff the game ended |
| OngoingGamesList.View | client/components/pasanaku/ongoing-games-list.tsx:45-95 | only the loading message while either input loads; otherwise one item per kept game |
| OngoingGameCard.Render | client/components/pasanaku/ongoing-game-card.tsx:38-71 | the Ended marker iff ended; symbol and decimals from the table, `"??"`/18 for unknown assets |
| OngoingGameCard.LinkNamesToken | client/components/pasanaku/ongoing-game-card.tsx:46 | the link is `/game/` followed by the token id, which reads back |
| OngoingGameCard.ImageNamesToken | client/components/pasanaku/ongoing-game-card.tsx:51 | the image is `/api/v1/token/{id}/image`, whose id reads back |
| OngoingGameCard.RoundLabel | client/components/pasanaku/ongoing-game-card.tsx:42 | `{index+1}/{player_count}`; RoundLabelParts reads both numbers back |
| OngoingGameCard.RoundLabelParts | client/components/pasanaku/ongoing-game-card.tsx:42 | `{index+1}/{player_count}`, split at its one slash |
| DepositClaimActions.ClaimArgs | client/components/pasanaku/deposit-claim-actions.tsx:58-70 | arguments iff a wallet address is defined, and then `(address, tokenId)` |
| DepositClaimActions.HasDepositedArgs | client/components/pasanaku/deposit-claim-actions.tsx:76-77 | arguments iff a wallet address is defined, and then `(address, tokenId, current_index)` |
| DepositClaimActions.FactsFor | client/components/pasanaku/deposit-claim-actions.tsx:58-78 | without a wallet all three facts are undefined; with one they are the reads' answers |
| DepositClaimActions.CanShowClaim | client/components/pasanaku/deposit-claim-actions.tsx:114 | a running game whose `can_claim` read is exactly true; Render uses it |
| DepositClaimActions.CanShowDeposit | client/components/pasanaku/deposit-claim-actions.tsx:115 | a running game whose `can_deposit` read is exactly true; Render uses it |
| DepositClaimActions.AlreadyDeposited | client/components/pasanaku/deposit-claim-actions.tsx:116 | a running game whose `has_deposited` read is exactly true; Render and DepositedBeatsClaim use it |
| DepositClaimActions.Render | client/components/pasanaku/deposit-claim-actions.tsx:114-403 | ended first; then deposited, whatever claim says; then claim iff `can_claim` is true; then deposit iff `can_deposit`; else nothing; claim names `amount × (player_count − 1)` and deposit names `amount` |
| DepositClaimActions.DepositedBeatsClaim | client/components/pasanaku/deposit-claim-actions.tsx:165-173 | having deposited hides the claim even when claiming is possible |
| DepositClaimActions.NoWalletNoAction | client/components/pasanaku/deposit-claim-actions.tsx:58-116 | without a wallet no action is offered |
| DepositClaimActions.UnknownFactsNoAction | client/components/pasanaku/deposit-claim-actions.tsx:114-116 | undefined or false facts offer nothing on a running game |
| DepositClaimActions.ButtonDisabled | client/components/pasanaku/deposit-claim-actions.tsx:250-365 | enabled iff nothing is pending and the fee is known |
| DepositClaimActions.ActionsState.constructor | client/components/pasanaku/deposit-claim-actions.tsx:55-56 | both modals closed, no writes |
| DepositClaimActions.ActionsState.OpenClaimModal | client/components/pasanaku/deposit-claim-actions.tsx:246-249 | opens the claim modal; nothing else changes |
| DepositClaimActions.ActionsState.OpenDepositModal | client/components/pasanaku/deposit-claim-actions.tsx:361-364 | opens the deposit modal; nothing else changes |
| DepositClaimActions.ActionsState.SetClaimModalOpen | client/components/pasanaku/deposit-claim-actions.tsx:261-274 | sets the claim flag only |
| DepositClaimActions.ActionsState.SetDepositModalOpen | client/components/pasanaku/deposit-claim-actions.tsx:377-390 | sets the deposit flag only |
| DepositClaimActions.ActionsState.ConfirmClaim | client/components/pasanaku/deposit-claim-actions.tsx:118-131 | no fee: nothing changes; else exactly one `claim([tokenId])` write with the fee as value, and the claim modal closes |
| DepositClaimActions.ActionsState.ConfirmDeposit | client/components/pasanaku/deposit-claim-actions.tsx:133-146 | no fee: nothing changes; else exactly one `deposit([tokenId])` write with the fee as value, and the deposit modal closes |
| DepositClaimActions.ClaimFlow | client/components/pasanaku/deposit-claim-actions.tsx:118-131 | opening and confirming with a fee issues exactly one claim and leaves the modal closed |
| TokenAllowanceGate.IsValidToken | client/components/pasanaku/token-allowance-gate.tsx:12-25 | defined and of the accepted address shape |
| TokenAllowanceGate.AllowanceArgs | client/components/pasanaku/token-allowance-gate.tsx:31-36 | arguments iff the address is truthy and the token valid: owner, then the game contract |
| TokenAllowanceGate.HasAllowance | client/components/pasanaku/token-allowance-gate.tsx:41 | a defined allowance above zero; Gate and PositiveAllowanceUnlocks state its effect |
| TokenAllowanceGate.ApproveCaption | client/components/pasanaku/token-allowance-gate.tsx:108 | `Approve `, then the table symbol, then ` for game`; `Approve ?? for game` for a token the table does not list |
| TokenAllowanceGate.Gate | client/components/pasanaku/token-allowance-gate.tsx:57-114 | connect iff disconnected; nothing without an address; children for an invalid token; checking while the allowance is pending or unknown; approve iff it is 0; children for any positive allowance |
| TokenAllowanceGate.InvalidTokenUngated | client/components/pasanaku/token-allowance-gate.tsx:78-80 | an invalid token shows the children at once |
| TokenAllowanceGate.PositiveAllowanceUnlocks | client/components/pasanaku/token-allowance-gate.tsx:41-114 | any allowance above 0 unlocks the children |
| TokenAllowanceGate.ApproveRequest | client/components/pasanaku/token-allowance-gate.tsx:43-53 | nothing without a token; otherwise `approve(game contract, 2^256 − 1)` on the token |
| UserTokenIds.Count | client/hooks/use-user-token-ids.ts:7-21 | `min(next_token_id, 100)`, or 0 when unknown |
| UserTokenIds.Ids | client/hooks/use-user-token-ids.ts:24 | `0, 1, …, count − 1` |
| UserTokenIds.Owners | client/hooks/use-user-token-ids.ts:22-23 | `count` copies of the address when one is given and count > 0, else empty |
| UserTokenIds.BatchArgs | client/hooks/use-user-token-ids.ts:34 | issued iff there is an address and at least one id; owners and ids line up |
| UserTokenIds.HeldSpec | client/hooks/use-user-token-ids.ts:37-42 | the reference list holds exactly the positive-balance indices, strictly ascending |
| UserTokenIds.HeldUnique | client/hooks/use-user-token-ids.ts:37-42 | any ascending list of exactly those indices is the reference list |
| UserTokenIds.AscendingDeterminedByMembers | client/hooks/use-user-token-ids.ts:37-42 | two strictly ascending lists with the same members are equal |
| UserTokenIds.CollectTokenIds | client/hooks/use-user-token-ids.ts:37-42 | with balances and an address, exactly the positive-balance indices, ascending; otherwise empty |
| HomePage.ShowEmpty | client/app/page.tsx:12 | no truthy address, or a settled lookup with no tokens; View states each case |
| HomePage.View | client/app/page.tsx:12-19 | empty view without an address; the list while loading; empty view for a settled empty result; the list otherwise |
| HomePage.Page | client/app/page.tsx:10-19 | a connected, settled page shows the list iff the wallet holds some looked-up token, and the list is of exactly those tokens |

## Left out

- Float display (`formatTokenAmount`, `Intl.NumberFormat`, `formatUnits`) and the whole of
  client/components/pasanaku/token-balance.tsx: floating-point formatting.
- `Number(s.trim()) > 0` in the three schemas: a floating-point test, so it is the input
  `amountPositive`. For a non-empty amount that input is unconstrained: the model does not
  tie it to the text (for example, it does not force `false` for all-whitespace text). For
  the empty amount the model ignores it, because `Number("")` is 0.
- `parseUnits(amount, decimals)`: the scaling is not modelled; the amount is carried as text
  together with its decimals. Whether `parseUnits` accepts the amount is the input
  `amountParses`: it throws on text such as `"1e3"` or `"Infinity"` that the positive-number
  test lets through, and then no payload or write is issued and the form is not reset.
- Library state and calls (wagmi reads and writes, TanStack form state, zod, ConnectKit):
  their results are inputs. The only state modelled is the two modal flags and the writes
  they issue, in `DepositClaimActions.ActionsState`.
- The RPC read in `getRotatingSavings`, the refetch-on-receipt effect in the deposit/claim
  actions, and the async approve-then-refetch sequence of the allowance gate: these are
  scheduling against external services.
- Rendering markup, the pure UI files, empty-view.tsx, the modal wrapper, header, footer,
  layout, the web3 provider, the media-query hook, the form hook and the create page.
- client/lib/contract.ts is not part of this model, so the game contract address is a
  parameter. client/lib/abi.ts is data only; it is used just for field names.
- Text.ToLower: lower-cases ASCII letters only, whereas `toLowerCase` also maps other
  Unicode letters; addresses and table keys are ASCII.
- SupportedAssets.Lookup: the JavaScript object table would also answer to inherited
  property names (`"constructor"`, …); those keys are not modelled.
- SupportedAssetsHook.DecimalsOf: a text-valued result in a decimals slot gives 18
  here, whereas `Number(...)` of that text would be used in the source.
- The contract itself (its round, custody and recovery rules) is not in the client and
  is not modelled.
