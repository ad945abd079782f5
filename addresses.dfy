/** The `0x` + 40-hex-digit address check (`/^0x[a-fA-F0-9]{40}$/`) that four forms share. */
module Addresses {
  import opened Text
  import opened Wrappers

  /** JavaScript truthiness of an optional address: defined and not the empty string. */
  predicate Truthy(address: Option<string>) { address.Some? && address.value != "" }

  predicate IsHexDigit(c: char) { '0' <= c <= '9' || 'a' <= c <= 'f' || 'A' <= c <= 'F' }

  /** The string matches `^0x[a-fA-F0-9]{40}$` as a whole: no prefix, no suffix. */
  predicate IsAddress(s: string) {
    |s| == 42 && s[0] == '0' && s[1] == 'x' && forall i :: 2 <= i < |s| ==> IsHexDigit(s[i])
  }

  const ZeroAddress: string := "0x0000000000000000000000000000000000000000"

  /**
   * The regular expression read as the literal `0x` followed by exactly forty characters
   * of the class `[a-fA-F0-9]`, anchored at both ends.
   */
  lemma AddressShape(s: string)
    ensures IsAddress(s) <==>
              |s| >= 2 && s[..2] == "0x" && |s[2..]| == 40 && (forall c :: c in s[2..] ==> IsHexDigit(c))
  {
    if |s| >= 2 && s[..2] == "0x" && |s[2..]| == 40 && (forall c :: c in s[2..] ==> IsHexDigit(c)) {
      assert s[0] == s[..2][0] && s[1] == s[..2][1];
      forall i | 2 <= i < |s| ensures IsHexDigit(s[i]) {
        assert s[i] == s[2..][i - 2];
      }
    }
    if IsAddress(s) {
      assert s[..2] == "0x";
      forall c | c in s[2..] ensures IsHexDigit(c) {
        var j :| 0 <= j < |s[2..]| && s[2..][j] == c;
        assert c == s[j + 2];
      }
    }
  }

  /** Lower-casing keeps a valid address valid (the check accepts either case). */
  lemma LowerKeepsAddress(s: string)
    requires IsAddress(s)
    ensures IsAddress(ToLower(s))
  {
    var l := ToLower(s);
    assert l[0] == LowerChar(s[0]) && l[1] == LowerChar(s[1]);
    forall i | 2 <= i < |l| ensures IsHexDigit(l[i]) {
      assert l[i] == LowerChar(s[i]);
    }
  }

  /** Upper-case `0X` is refused although every hex digit may be upper case. */
  lemma UpperPrefixRefused(s: string)
    requires |s| == 42 && s[0] == '0' && s[1] == 'X'
    ensures !IsAddress(s)
  {
  }

  lemma ZeroAddressValid()
    ensures IsAddress(ZeroAddress)
  {
  }
}
