/**
 * String helpers of the client: `String.prototype.trim` and the truthiness
 * tests `!s.trim()`, `s || fallback` and `s || undefined`.
 */
module Text {
  import opened Wrappers

  /**
   * The code points `trim` strips: WhiteSpace (section 12.2 of ECMA-262:
   * TAB, VT, FF, ZWNBSP and the space separators, category Zs, as listed by
   * Unicode 15) and LineTerminator (section 12.3: LF, CR, LS, PS).
   */
  predicate IsWhitespace(c: char) {
    var n := c as int;
    n == 0x09 || n == 0x0B || n == 0x0C || n == 0xFEFF                 // TAB VT FF ZWNBSP
    || n == 0x20 || n == 0xA0 || n == 0x1680 || 0x2000 <= n <= 0x200A  // Zs
    || n == 0x202F || n == 0x205F || n == 0x3000                       // Zs
    || n == 0x0A || n == 0x0D || n == 0x2028 || n == 0x2029            // LF CR LS PS
  }

  /** Every character of `s` is whitespace (true of the empty string). */
  predicate AllWhitespace(s: string) {
    forall i :: 0 <= i < |s| ==> IsWhitespace(s[i])
  }

  /** Length of the longest whitespace prefix of `s`. */
  function LeadingWhitespace(s: string): (k: nat)
    ensures k <= |s|
    ensures forall i :: 0 <= i < k ==> IsWhitespace(s[i])
    ensures k < |s| ==> !IsWhitespace(s[k])
  {
    if s == [] || !IsWhitespace(s[0]) then 0 else 1 + LeadingWhitespace(s[1..])
  }

  /** Length of the longest whitespace suffix of `s`. */
  function TrailingWhitespace(s: string): (k: nat)
    ensures k <= |s|
    ensures forall i :: |s| - k <= i < |s| ==> IsWhitespace(s[i])
    ensures k < |s| ==> !IsWhitespace(s[|s| - 1 - k])
  {
    if s == [] || !IsWhitespace(s[|s| - 1]) then 0 else 1 + TrailingWhitespace(s[..|s| - 1])
  }

  /** `s.trim()`: `s` without its leading and trailing whitespace. */
  function Trim(s: string): (r: string)
    ensures |r| <= |s|
    ensures r != [] ==> !IsWhitespace(r[0]) && !IsWhitespace(r[|r| - 1])
  {
    var t := s[LeadingWhitespace(s)..];
    t[..|t| - TrailingWhitespace(t)]
  }

  /** `Trim` cuts whitespace off both ends and nothing else: `r` is a slice of `s`. */
  lemma TrimIsSlice(s: string)
    ensures exists i, j ::
              0 <= i <= j <= |s| && Trim(s) == s[i..j] && AllWhitespace(s[..i]) && AllWhitespace(s[j..])
  {
    var i := LeadingWhitespace(s);
    var t := s[i..];
    var k := TrailingWhitespace(t);
    var j := i + |t| - k;
    assert Trim(s) == s[i..j];
    assert AllWhitespace(s[..i]) by {
      forall m | 0 <= m < i ensures IsWhitespace(s[..i][m]) {
        assert s[..i][m] == s[m];
      }
    }
    assert AllWhitespace(s[j..]) by {
      forall m | 0 <= m < |s| - j ensures IsWhitespace(s[j..][m]) {
        assert s[j..][m] == t[|t| - k + m];
      }
    }
  }

  /** `!s.trim()`: the guard both forms use to refuse a title. */
  predicate IsBlank(s: string) {
    Trim(s) == ""
  }

  /** A string is blank exactly when it holds whitespace only. */
  lemma BlankIffAllWhitespace(s: string)
    ensures IsBlank(s) <==> AllWhitespace(s)
  {
  }

  /** Trimming twice is trimming once. */
  lemma TrimIdempotent(s: string)
    ensures Trim(Trim(s)) == Trim(s)
  {
  }

  /** `s.trim() || undefined`: the trimmed text, or nothing when it is empty. */
  function TrimmedOrUndefined(s: string): (r: Option<string>)
    ensures r.None? <==> AllWhitespace(s)
    ensures r.Some? ==> r.value == Trim(s) && r.value != ""
  {
    BlankIffAllWhitespace(s);
    if IsBlank(s) then None else Some(Trim(s))
  }

  /** Truthiness of a `string | null | undefined`: present and non-empty. */
  predicate Truthy(s: Option<string>) {
    s.Some? && s.value != ""
  }

  /** `s || fallback`, for an optional string. */
  function OrElse(s: Option<string>, fallback: string): (r: string)
    ensures Truthy(s) ==> r == s.value
    ensures !Truthy(s) ==> r == fallback
    ensures fallback != "" ==> r != ""
  {
    if Truthy(s) then s.value else fallback
  }
}
