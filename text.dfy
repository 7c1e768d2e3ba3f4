/** The string primitives of Go's `strings`, `fmt` and `time.Format` that the core relies on,
    written out over `seq<char>`: prefix and substring search, decimal formatting,
    zero-padded fields, ASCII lower-casing and byte-wise string ordering. */
module Text {

  /** `strings.HasPrefix(s, p)`. */
  predicate HasPrefix(s: string, p: string) {
    |p| <= |s| && s[..|p|] == p
  }

  /** `strings.Contains(s, sub)`: `sub` occurs in `s` starting at some offset. */
  predicate Contains(s: string, sub: string)
    decreases |s|
  {
    HasPrefix(s, sub) || (|s| > 0 && Contains(s[1..], sub))
  }

  /** `sub` occurs in `s` at offset `i`. */
  predicate OccursAt(s: string, sub: string, i: nat) {
    i + |sub| <= |s| && s[i..i + |sub|] == sub
  }

  lemma {:induction false} ContainsAt(s: string, sub: string, i: nat)
    requires OccursAt(s, sub, i)
    ensures Contains(s, sub)
    decreases i
  {
    if i > 0 {
      assert s[1..][i - 1..i - 1 + |sub|] == s[i..i + |sub|];
      ContainsAt(s[1..], sub, i - 1);
    }
  }

  lemma {:induction false} ContainsOffset(s: string, sub: string)
    requires Contains(s, sub)
    ensures exists i: nat :: OccursAt(s, sub, i)
    decreases |s|
  {
    if HasPrefix(s, sub) {
      assert OccursAt(s, sub, 0);
    } else {
      ContainsOffset(s[1..], sub);
      var i: nat :| OccursAt(s[1..], sub, i);
      assert s[1..][i..i + |sub|] == s[i + 1..i + 1 + |sub|];
      assert OccursAt(s, sub, i + 1);
    }
  }

  /** `Contains` is substring search: some offset holds `sub`. */
  lemma ContainsIff(s: string, sub: string)
    ensures Contains(s, sub) <==> exists i: nat :: OccursAt(s, sub, i)
  {
    if Contains(s, sub) {
      ContainsOffset(s, sub);
    }
    if exists i: nat :: OccursAt(s, sub, i) {
      var i: nat :| OccursAt(s, sub, i);
      ContainsAt(s, sub, i);
    }
  }

  /** Concatenation keeps whatever the right part already contains. */
  lemma {:induction false} ContainsSuffix(pre: string, s: string, sub: string)
    requires Contains(s, sub)
    ensures Contains(pre + s, sub)
    decreases |pre|
  {
    if pre != [] {
      assert (pre + s)[1..] == pre[1..] + s;
      ContainsSuffix(pre[1..], s, sub);
    } else {
      assert pre + s == s;
    }
  }

  function DigitChar(d: nat): char
    requires d < 10
  {
    ('0' as int + d) as char
  }

  /** Decimal digits of `n` without leading zeros (`strconv.Itoa`, `%d`). */
  function NatToString(n: nat): (s: string)
    ensures 1 <= |s|
    decreases n
  {
    if n < 10 then [DigitChar(n)] else NatToString(n / 10) + [DigitChar(n % 10)]
  }

  /** `%v` / `%d` of a Go int: a leading '-' for negative values. */
  function IntToString(i: int): string {
    if i < 0 then "-" + NatToString(-i) else NatToString(i)
  }

  function Zeros(k: nat): (s: string)
    ensures |s| == k
  {
    if k == 0 then "" else "0" + Zeros(k - 1)
  }

  /** A numeric field of a `time.Format` layout such as "2006" or "01": the decimal digits of `n`
      left-padded with zeros to `width`. */
  function PadLeft(n: nat, width: nat): (s: string)
    ensures width <= |s|
  {
    var digits := NatToString(n);
    if |digits| >= width then digits else Zeros(width - |digits|) + digits
  }

  /** The characters whose lower case is an ASCII letter: the ASCII capitals, the capital I with
      dot above (U+0130, lower-cased to `i`) and the Kelvin sign (U+212A, lower-cased to `k`). */
  predicate FoldsToAscii(c: char) {
    'A' <= c <= 'Z' || c == '\U{0130}' || c == '\U{212A}'
  }

  /** `unicode.ToLower` on the characters whose lower case is ASCII; every other character is kept. */
  function ToLowerChar(c: char): char {
    if 'A' <= c <= 'Z' then (c as int + 32) as char
    else if c == '\U{0130}' then 'i'
    else if c == '\U{212A}' then 'k'
    else c
  }

  /** `c` is the ASCII lower-case letter `l` or one of its capitals. */
  predicate CaseVariant(c: char, l: char) {
    c == l || c as int == l as int - 32 || (l == 'i' && c == '\U{0130}') || (l == 'k' && c == '\U{212A}')
  }

  /** `strings.ToLower`, exact on every character whose lower case is ASCII: the length is kept, no
      capital ASCII letter and no other character with an ASCII lower case remains, those become
      ASCII lower-case letters, and the other characters are kept. */
  function ToLower(s: string): (r: string)
    ensures |r| == |s|
    ensures forall i :: 0 <= i < |s| ==> !FoldsToAscii(r[i])
    ensures forall i :: 0 <= i < |s| ==> FoldsToAscii(s[i]) ==> 'a' <= r[i] <= 'z'
    ensures forall i :: 0 <= i < |s| ==> !FoldsToAscii(s[i]) ==> r[i] == s[i]
  {
    seq(|s|, i requires 0 <= i < |s| => ToLowerChar(s[i]))
  }

  /** Lower-casing twice is lower-casing once. */
  lemma ToLowerIdempotent(s: string)
    ensures ToLower(ToLower(s)) == ToLower(s)
  {
  }

  /** One character lower-cases to the ASCII lower-case letter `l` exactly when it is `l` or one of
      its capitals. */
  lemma ToLowerCharWord(c: char, l: char)
    requires 'a' <= l <= 'z'
    ensures ToLowerChar(c) == l <==> CaseVariant(c, l)
  {
  }

  /** A string lower-cases to the lower-case ASCII word `w` exactly when it spells `w` with any mix
      of capitals: the case-insensitive comparison the enricher makes with its action names. */
  lemma ToLowerMatchesWord(s: string, w: string)
    requires forall i :: 0 <= i < |w| ==> 'a' <= w[i] <= 'z'
    ensures ToLower(s) == w <==> |s| == |w| && forall i :: 0 <= i < |s| ==> CaseVariant(s[i], w[i])
  {
    if |s| == |w| {
      forall i | 0 <= i < |s|
        ensures ToLower(s)[i] == w[i] <==> CaseVariant(s[i], w[i])
      {
        ToLowerCharWord(s[i], w[i]);
      }
      if forall i :: 0 <= i < |s| ==> CaseVariant(s[i], w[i]) {
        assert ToLower(s) == w;
      }
    }
  }

  /** Go's `a < b` on strings: lexicographic on the UTF-8 bytes, which orders like the code points. */
  predicate Less(a: string, b: string)
    decreases |a|
  {
    if a == [] then b != []
    else if b == [] then false
    else if a[0] != b[0] then a[0] < b[0]
    else Less(a[1..], b[1..])
  }

  /** Go's `a >= b` on strings. */
  predicate AtLeast(a: string, b: string) {
    !Less(a, b)
  }

  /** `Less` is a strict order: never both ways. */
  lemma {:induction false} LessAsymmetric(a: string, b: string)
    ensures !(Less(a, b) && Less(b, a))
    decreases |a|
  {
    if a != [] && b != [] && a[0] == b[0] {
      LessAsymmetric(a[1..], b[1..]);
    }
  }

  /** Any string whose first character sorts above the first of `b` is at least `b`. */
  lemma FirstCharDecides(a: string, b: string)
    requires a != [] && b != [] && a[0] > b[0]
    ensures AtLeast(a, b) && Less(b, a)
  {
  }
}
