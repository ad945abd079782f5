/**
 * `CreateGameForm`: the validation rules of the asset, amount and players fields, the
 * parse of the players text, and the payload handed on when a submit is valid.
 */
module CreateGameForm {
  import opened Wrappers
  import opened Text
  import opened Addresses
  import SupportedAssetsHook

  const MaxPlayers: nat := 12

  /** The character class `[\n,]` the players text is split on. */
  predicate IsPlayerSeparator(c: char) { c == ',' || c == '\n' }

  /** Each piece trimmed, in order. */
  function TrimEach(parts: seq<string>): (r: seq<string>)
    ensures |r| == |parts|
    ensures forall i :: 0 <= i < |parts| ==> r[i] == Trim(parts[i])
  {
    seq(|parts|, i requires 0 <= i < |parts| => Trim(parts[i]))
  }

  /**
   * The non-empty strings, in order (the truthiness filter): every non-empty piece is kept
   * as often as it occurs, and no empty one; the order is kept piece by piece (NonEmptyAppend).
   */
  function NonEmpty(parts: seq<string>): (r: seq<string>)
    ensures |r| <= |parts|
    ensures forall i :: 0 <= i < |r| ==> r[i] != ""
    ensures multiset(r) == multiset(parts)["" := 0]
  {
    if parts == [] then []
    else
      assert parts == [parts[0]] + parts[1..];
      (if parts[0] != "" then [parts[0]] else []) + NonEmpty(parts[1..])
  }

  /** The players text as a list: split at `,` and newline, trim each piece, drop empty ones. */
  function ParsePlayers(s: string): (players: seq<string>)
    ensures forall i :: 0 <= i < |players| ==>
              && players[i] != ""
              && !IsSpace(players[i][0]) && !IsSpace(players[i][|players[i]| - 1])
              && forall k :: 0 <= k < |players[i]| ==> !IsPlayerSeparator(players[i][k])
  {
    var parts := Split(s, IsPlayerSeparator);
    TrimKeepsNoSeparator(parts);
    NonEmptyFromInput(TrimEach(parts));
    NonEmpty(TrimEach(parts))
  }

  lemma TrimKeepsNoSeparator(parts: seq<string>)
    requires forall j, k :: 0 <= j < |parts| && 0 <= k < |parts[j]| ==> !IsPlayerSeparator(parts[j][k])
    ensures forall j, k :: 0 <= j < |parts| && 0 <= k < |Trim(parts[j])| ==> !IsPlayerSeparator(Trim(parts[j])[k])
  {
    forall j, k | 0 <= j < |parts| && 0 <= k < |Trim(parts[j])|
      ensures !IsPlayerSeparator(Trim(parts[j])[k])
    {
      assert Trim(parts[j])[k] == parts[j][LeadingSpaces(parts[j]) + k];
    }
  }

  /** The players refinement: 1 to 12 entries, each a valid address. */
  predicate PlayersRule(s: string) {
    var players := ParsePlayers(s);
    1 <= |players| <= MaxPlayers && forall i :: 0 <= i < |players| ==> IsAddress(players[i])
  }

  datatype FormValues = FormValues(asset: string, amount: string, players: string)

  /** The messages of the failing rules, field by field (`fieldErrors`). */
  datatype FieldErrors = FieldErrors(asset: seq<string>, amount: seq<string>, players: seq<string>)

  /** The asset rules: "Select an asset" for an empty field, "Invalid asset" for any non-address. */
  function AssetErrors(asset: string): (errors: seq<string>)
    ensures errors == [] <==> IsAddress(asset)
    ensures asset == "" ==> errors == ["Select an asset", "Invalid asset"]
    ensures asset != "" && !IsAddress(asset) ==> errors == ["Invalid asset"]
  {
    (if |asset| < 1 then ["Select an asset"] else []) + (if !IsAddress(asset) then ["Invalid asset"] else [])
  }

  /**
   * The amount rules. `amountPositive` stands for `Number(s.trim()) > 0`, a floating-point
   * test outside this model; `Number("")` is 0, so the empty amount is never positive.
   */
  function AmountErrors(amount: string, amountPositive: bool): (errors: seq<string>)
    ensures errors == [] <==> amount != "" && amountPositive
    ensures amount == "" ==> errors == ["Amount is required", "Amount must be a positive number"]
    ensures amount != "" && !amountPositive ==> errors == ["Amount must be a positive number"]
  {
    (if |amount| < 1 then ["Amount is required"] else [])
      + (if |amount| < 1 || !amountPositive then ["Amount must be a positive number"] else [])
  }

  /** The players rules: a required-field message for empty text, the range message whenever the rule fails. */
  function PlayersErrors(players: string): (errors: seq<string>)
    ensures errors == [] <==> PlayersRule(players)
    ensures players == "" ==> errors == ["Enter at least one player address", "Between 1 and 12 valid 0x addresses"]
    ensures players != "" && !PlayersRule(players) ==> errors == ["Between 1 and 12 valid 0x addresses"]
  {
    var errors := (if |players| < 1 then ["Enter at least one player address"] else [])
      + (if !PlayersRule(players) then ["Between 1 and 12 valid 0x addresses"] else []);
    if PlayersRule(players) then PlayersRuleNonEmpty(players); errors else errors
  }

  predicate Valid(v: FormValues, amountPositive: bool) {
    AssetErrors(v.asset) == [] && AmountErrors(v.amount, amountPositive) == [] && PlayersErrors(v.players) == []
  }

  /** The `onSubmit` validator: no errors for a valid form, else the messages by field. */
  function Validate(v: FormValues, amountPositive: bool): (r: Option<FieldErrors>)
    ensures r.None? <==> Valid(v, amountPositive)
    ensures r.Some? ==> r.value.asset != [] || r.value.amount != [] || r.value.players != []
  {
    var e := FieldErrors(AssetErrors(v.asset), AmountErrors(v.amount, amountPositive), PlayersErrors(v.players));
    if e.asset == [] && e.amount == [] && e.players == [] then None else Some(e)
  }

  /** The form is valid iff the asset is an address, the amount is given and positive, and the players rule holds. */
  lemma ValidIff(v: FormValues, amountPositive: bool)
    ensures Valid(v, amountPositive) <==>
              IsAddress(v.asset) && v.amount != "" && amountPositive && PlayersRule(v.players)
    ensures v.asset == "" || v.amount == "" || v.players == "" ==> !Valid(v, amountPositive)
  {
    if PlayersRule(v.players) {
      PlayersRuleNonEmpty(v.players);
    }
  }

  lemma PlayersRuleNonEmpty(s: string)
    requires PlayersRule(s)
    ensures s != ""
  {
  }

  /** What a valid submit hands on; the raw amount (`parseUnits`) is outside this model. */
  datatype Payload = Payload(asset: string, amount: string, decimals: nat, players: seq<string>)

  /**
   * `onSubmit`: nothing for an invalid form, nor when `parseUnits` throws on the amount
   * (`amountParses` is false, e.g. for "1e3"); otherwise a payload whose players come from
   * the same parse the validator used, so there are 1 to 12 of them and each is an address.
   */
  function OnSubmit(v: FormValues, amountPositive: bool, amountParses: bool, assets: seq<SupportedAssetsHook.SupportedAsset>)
    : (r: Option<Payload>)
    ensures r.Some? <==> Valid(v, amountPositive) && amountParses
    ensures r.Some? ==>
              && r.value.asset == v.asset && IsAddress(r.value.asset)
              && r.value.players == ParsePlayers(v.players)
              && 1 <= |r.value.players| <= MaxPlayers
              && (forall i :: 0 <= i < |r.value.players| ==> IsAddress(r.value.players[i]))
              && r.value.decimals == SupportedAssetsHook.GetDecimals(assets, v.asset)
  {
    if Validate(v, amountPositive).Some? || !amountParses then None
    else
      Some(Payload(v.asset, v.amount, SupportedAssetsHook.GetDecimals(assets, v.asset), ParsePlayers(v.players)))
  }

  // ---------------------------------------------------------------- properties of the parse

  lemma {:induction false} NonEmptyAppend(a: seq<string>, b: seq<string>)
    ensures NonEmpty(a + b) == NonEmpty(a) + NonEmpty(b)
  {
    if a == [] {
      assert a + b == b;
    } else {
      var head := if a[0] != "" then [a[0]] else [];
      assert (a + b)[0] == a[0];
      assert (a + b)[1..] == a[1..] + b;
      NonEmptyAppend(a[1..], b);
      calc {
        NonEmpty(a + b);
        head + NonEmpty(a[1..] + b);
        head + (NonEmpty(a[1..]) + NonEmpty(b));
        (head + NonEmpty(a[1..])) + NonEmpty(b);
      }
    }
  }

  /** A string is in the filtered list exactly when it is a non-empty piece of the input. */
  lemma NonEmptyMembers(parts: seq<string>, x: string)
    ensures x in NonEmpty(parts) <==> x in parts && x != ""
  {
    var r := NonEmpty(parts);
    assert x in r <==> multiset(r)[x] > 0;
    assert x in parts <==> multiset(parts)[x] > 0;
  }

  lemma NonEmptyFromInput(parts: seq<string>)
    ensures forall i :: 0 <= i < |NonEmpty(parts)| ==> NonEmpty(parts)[i] in parts
  {
    forall i | 0 <= i < |NonEmpty(parts)| ensures NonEmpty(parts)[i] in parts {
      NonEmptyMembers(parts, NonEmpty(parts)[i]);
    }
  }

  lemma TrimEachAppend(a: seq<string>, b: seq<string>)
    ensures TrimEach(a + b) == TrimEach(a) + TrimEach(b)
  {
  }

  /** A separator splits the list there: order and duplicates are kept. */
  lemma ParseAtSeparator(a: string, c: char, b: string)
    requires IsPlayerSeparator(c)
    ensures ParsePlayers(a + [c] + b) == ParsePlayers(a) + ParsePlayers(b)
  {
    SplitAtSeparator(a, c, b, IsPlayerSeparator);
    var pa, pb := Split(a, IsPlayerSeparator), Split(b, IsPlayerSeparator);
    TrimEachAppend(pa, pb);
    NonEmptyAppend(TrimEach(pa), TrimEach(pb));
  }

  /** A single clean entry parses to itself. */
  lemma ParseSingle(x: string)
    requires x != "" && !IsSpace(x[0]) && !IsSpace(x[|x| - 1])
    requires forall k :: 0 <= k < |x| ==> !IsPlayerSeparator(x[k])
    ensures ParsePlayers(x) == [x]
  {
    SplitNoSeparator(x);
    TrimClean(x);
    assert TrimEach([x]) == [x];
    assert NonEmpty([x]) == [x] + NonEmpty([]);
  }

  lemma {:induction false} SplitNoSeparator(x: string)
    requires forall k :: 0 <= k < |x| ==> !IsPlayerSeparator(x[k])
    ensures Split(x, IsPlayerSeparator) == [x]
  {
    if x != [] {
      SplitNoSeparator(x[1..]);
      assert [x[0]] + x[1..] == x;
    }
  }

  predicate Blank(c: char) { IsPlayerSeparator(c) || IsSpace(c) }

  /** Every piece of a split of text made only of blanks is itself made only of blanks. */
  lemma {:induction false} SplitBlank(s: string)
    requires forall k :: 0 <= k < |s| ==> Blank(s[k])
    ensures forall j, k :: 0 <= j < |Split(s, IsPlayerSeparator)| && 0 <= k < |Split(s, IsPlayerSeparator)[j]| ==>
              IsSpace(Split(s, IsPlayerSeparator)[j][k])
  {
    if s != [] {
      SplitBlank(s[1..]);
    }
  }

  /** Text made only of separators and white space gives no players, so the field is invalid. */
  lemma BlankInputFails(s: string)
    requires forall k :: 0 <= k < |s| ==> Blank(s[k])
    ensures ParsePlayers(s) == []
    ensures !PlayersRule(s)
  {
    var parts := Split(s, IsPlayerSeparator);
    SplitBlank(s);
    forall j | 0 <= j < |parts| ensures Trim(parts[j]) == "" {
      TrimAllSpace(parts[j]);
    }
    AllEmpty(TrimEach(parts));
  }

  lemma {:induction false} AllEmpty(parts: seq<string>)
    requires forall j :: 0 <= j < |parts| ==> parts[j] == ""
    ensures NonEmpty(parts) == []
  {
    if parts != [] {
      AllEmpty(parts[1..]);
    }
  }
}
