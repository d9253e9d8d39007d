/**
 * The JavaScript string operations the components rely on, restricted to
 * what the model needs: ASCII case mapping, `startsWith`, `includes`,
 * `split` and `join` on a one-character separator, and the decimal and
 * hexadecimal digits of `parseInt(_, 16)` and `Number.prototype.toString`.
 */
module TextUtil {

  // ---------------------------------------------------------------------
  // ASCII case mapping (toUpperCase / toLowerCase restricted to ASCII)
  // ---------------------------------------------------------------------

  predicate IsAsciiLower(ch: char) { 'a' <= ch <= 'z' }
  predicate IsAsciiUpper(ch: char) { 'A' <= ch <= 'Z' }

  function UpperChar(ch: char): char {
    if IsAsciiLower(ch) then (ch as int - 32) as char else ch
  }

  function LowerChar(ch: char): char {
    if IsAsciiUpper(ch) then (ch as int + 32) as char else ch
  }

  function Lower(s: string): (r: string)
    ensures |r| == |s|
    ensures forall k :: 0 <= k < |s| ==> r[k] == LowerChar(s[k])
  {
    seq(|s|, k requires 0 <= k < |s| => LowerChar(s[k]))
  }

  /** Lower-casing is idempotent: a lower-cased string has no ASCII capitals left. */
  lemma LowerIdempotent(s: string)
    ensures Lower(Lower(s)) == Lower(s)
    ensures forall k :: 0 <= k < |s| ==> !IsAsciiUpper(Lower(s)[k])
  {
  }

  // ---------------------------------------------------------------------
  // Prefixes and substrings
  // ---------------------------------------------------------------------

  predicate StartsWith(s: string, prefix: string) {
    |prefix| <= |s| && s[..|prefix|] == prefix
  }

  /** `s` occurs in `t` at offset `i`. */
  ghost predicate OccursAt(t: string, s: string, i: int) {
    0 <= i && i + |s| <= |t| && t[i..i + |s|] == s
  }

  /** `t.includes(s)`: a left-to-right scan of the offsets of `t`. */
  function Contains(t: string, s: string): (r: bool)
    ensures r <==> exists i :: OccursAt(t, s, i)
    decreases |t|
  {
    if StartsWith(t, s) then
      assert OccursAt(t, s, 0);
      true
    else if |t| == 0 then
      assert forall i :: !OccursAt(t, s, i);
      false
    else
      var rest := Contains(t[1..], s);
      assert forall i :: OccursAt(t[1..], s, i) <==> OccursAt(t, s, i + 1) by {
        forall i ensures OccursAt(t[1..], s, i) <==> OccursAt(t, s, i + 1) {
          if 0 <= i && i + |s| <= |t| - 1 {
            assert t[1..][i..i + |s|] == t[i + 1..i + 1 + |s|];
          }
        }
      }
      assert !OccursAt(t, s, 0);
      assert forall i :: OccursAt(t, s, i) ==> i == 0 || OccursAt(t[1..], s, i - 1);
      rest
  }

  // ---------------------------------------------------------------------
  // split / join on a single-character separator
  // ---------------------------------------------------------------------

  /** Index of the first occurrence of `c` in `s`. */
  function IndexOf(s: string, c: char): (i: nat)
    requires c in s
    ensures i < |s| && s[i] == c && c !in s[..i]
  {
    if s[0] == c then 0 else 1 + IndexOf(s[1..], c)
  }

  /**
   * `s.split(c)`: the pieces between consecutive occurrences of `c`; there is
   * always at least one piece, and one more piece than separators.
   */
  function Split(s: string, c: char): (r: seq<string>)
    ensures |r| == multiset(s)[c] + 1
    ensures forall k :: 0 <= k < |r| ==> c !in r[k]
    decreases |s|
  {
    if c !in s then [s]
    else
      var i := IndexOf(s, c);
      assert s == s[..i] + [c] + s[i + 1..];
      assert multiset(s[..i])[c] == 0;
      [s[..i]] + Split(s[i + 1..], c)
  }

  /** `parts.join(sep)`; the join of no parts is the empty string. */
  function Join(parts: seq<string>, sep: string): string
  {
    if |parts| == 0 then ""
    else if |parts| == 1 then parts[0]
    else parts[0] + sep + Join(parts[1..], sep)
  }

  /** Joining a first part before at least one more puts the separator after it. */
  lemma JoinCons(p: string, ps: seq<string>, sep: string)
    requires |ps| >= 1
    ensures Join([p] + ps, sep) == p + sep + Join(ps, sep)
  {
    assert ([p] + ps)[1..] == ps;
  }

  /** Joining the pieces of a split with the same separator gives the string back. */
  lemma {:induction false} JoinSplit(s: string, c: char)
    ensures Join(Split(s, c), [c]) == s
    decreases |s|
  {
    SplitHead(s, c);
    if c in s {
      var i := IndexOf(s, c);
      var rest := s[i + 1..];
      JoinSplit(rest, c);
      JoinCons(s[..i], Split(rest, c), [c]);
      Around(s, i);
    }
  }

  lemma Around(s: string, i: nat)
    requires i < |s|
    ensures s == s[..i] + [s[i]] + s[i + 1..]
  {
  }

  /** Splitting a join of separator-free pieces gives the pieces back. */
  lemma {:induction false} SplitJoin(parts: seq<string>, c: char)
    requires |parts| >= 1
    requires forall k :: 0 <= k < |parts| ==> c !in parts[k]
    ensures Split(Join(parts, [c]), c) == parts
  {
    if |parts| > 1 {
      var s := Join(parts, [c]);
      var tail := Join(parts[1..], [c]);
      assert s == parts[0] + [c] + tail;
      assert s[..|parts[0]|] == parts[0];
      assert c in s by { assert s[|parts[0]|] == c; }
      var i := IndexOf(s, c);
      assert i == |parts[0]|;
      assert s[i + 1..] == tail;
      SplitJoin(parts[1..], c);
    }
  }

  /** The text after the last `c` in `s`, or all of `s` when it has none. */
  function LastPiece(s: string, c: char): string
    decreases |s|
  {
    if c !in s then s else LastPiece(s[IndexOf(s, c) + 1..], c)
  }

  /** `LastPiece` is the last piece of `s.split(c)`, which `pop()` returns. */
  lemma {:induction false} LastPieceOfSplit(s: string, c: char)
    ensures var pieces := Split(s, c);
      pieces[|pieces| - 1] == LastPiece(s, c)
    decreases |s|
  {
    SplitHead(s, c);
    if c in s {
      LastPieceOfSplit(s[IndexOf(s, c) + 1..], c);
    }
  }

  /**
   * The last piece is the text after the last separator: `s` ends with it, it
   * holds no separator, and when `s` has one, it stands right before it.
   */
  lemma {:induction false} LastPieceIsSuffix(s: string, c: char)
    ensures var e := LastPiece(s, c);
      && c !in e && |e| <= |s| && s[|s| - |e|..] == e
      && (c in s ==> |e| < |s| && s[|s| - |e| - 1] == c)
      && (c !in s ==> e == s)
    decreases |s|
  {
    if c in s {
      var i := IndexOf(s, c);
      var e := LastPiece(s[i + 1..], c);
      LastPieceIsSuffix(s[i + 1..], c);
      SuffixOfRest(s, i, e, c);
    }
  }

  /** A string ending with the separator has an empty last piece. */
  lemma LastPieceAfterTrailing(s: string, c: char)
    requires |s| > 0 && s[|s| - 1] == c
    ensures LastPiece(s, c) == ""
  {
    LastPieceIsSuffix(s, c);
  }

  lemma SuffixOfRest(s: string, i: nat, e: string, c: char)
    requires i < |s| && s[i] == c
    requires |e| <= |s| - i - 1 && s[i + 1..][|s| - i - 1 - |e|..] == e
    requires |e| < |s| - i - 1 ==> s[i + 1..][|s| - i - 1 - |e| - 1] == c
    ensures s[|s| - |e|..] == e && |e| < |s| && s[|s| - |e| - 1] == c
  {
    assert s[|s| - |e|..] == s[i + 1..][|s| - i - 1 - |e|..];
    if |e| < |s| - i - 1 {
      assert s[|s| - |e| - 1] == s[i + 1..][|s| - i - 1 - |e| - 1];
    }
  }

  /** The first piece of a split is everything before the first separator. */
  lemma SplitHead(s: string, c: char)
    ensures c !in s ==> Split(s, c) == [s]
    ensures c in s ==> Split(s, c) == [s[..IndexOf(s, c)]] + Split(s[IndexOf(s, c) + 1..], c)
  {
  }

  // ---------------------------------------------------------------------
  // Decimal and hexadecimal digits
  // ---------------------------------------------------------------------

  predicate IsDigit(ch: char) { '0' <= ch <= '9' }

  function DigitChar(d: nat): (ch: char)
    requires d < 10
    ensures IsDigit(ch)
  {
    ('0' as int + d) as char
  }

  function DigitValue(ch: char): nat
    requires IsDigit(ch)
  {
    ch as int - '0' as int
  }

  /** `String(n)` for a non-negative integer: its decimal digits, most significant first. */
  function NatToDecimal(n: nat): (r: string)
    ensures |r| >= 1
    ensures forall k :: 0 <= k < |r| ==> IsDigit(r[k])
    ensures n >= 10 ==> r[0] != '0'
  {
    if n < 10 then [DigitChar(n)] else NatToDecimal(n / 10) + [DigitChar(n % 10)]
  }

  /** The value of a string of decimal digits. */
  function ParseDecimal(s: string): nat
    requires forall k :: 0 <= k < |s| ==> IsDigit(s[k])
  {
    if |s| == 0 then 0 else 10 * ParseDecimal(s[..|s| - 1]) + DigitValue(s[|s| - 1])
  }

  /** Decimal printing is injective: reading the digits back gives the number. */
  lemma {:induction false} DecimalRoundTrip(n: nat)
    ensures ParseDecimal(NatToDecimal(n)) == n
  {
    if n >= 10 {
      var s := NatToDecimal(n);
      assert s[..|s| - 1] == NatToDecimal(n / 10);
      DecimalRoundTrip(n / 10);
    }
  }

  predicate IsHexDigit(ch: char) {
    IsDigit(ch) || 'a' <= ch <= 'f' || 'A' <= ch <= 'F'
  }

  function HexValue(ch: char): (v: nat)
    requires IsHexDigit(ch)
    ensures v < 16
  {
    if IsDigit(ch) then DigitValue(ch)
    else if 'a' <= ch <= 'f' then ch as int - 'a' as int + 10
    else ch as int - 'A' as int + 10
  }

  /** The hexadecimal digit of `v`, in lower or upper case. */
  function HexDigitChar(v: nat, upper: bool): (ch: char)
    requires v < 16
    ensures IsHexDigit(ch) && HexValue(ch) == v
  {
    if v < 10 then DigitChar(v)
    else if upper then ('A' as int + v - 10) as char
    else ('a' as int + v - 10) as char
  }
}
