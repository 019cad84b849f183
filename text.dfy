/** Character-level string operations the bot relies on: `str.lower()`, the `in` test on strings,
    slicing with an ellipsis marker, `str * n` and rendering a counter in decimal. */
module Text {

  /** One character lower-cased: ASCII letters and the basic Cyrillic block (U+0400 to U+042F). */
  function LowerChar(c: char): (r: char)
    ensures ('A' <= c <= 'Z') ==> r as int == c as int + 32
    ensures !('A' <= c <= 'Z') && !('\U{0400}' <= c <= '\U{042F}') ==> r == c
    ensures !('A' <= r <= 'Z') && !('\U{0400}' <= r <= '\U{042F}')
  {
    if 'A' <= c <= 'Z' then (c as int + 32) as char
    else if '\U{0410}' <= c <= '\U{042F}' then (c as int + 32) as char
    else if '\U{0400}' <= c <= '\U{040F}' then (c as int + 80) as char
    else c
  }

  function Lower(s: string): (r: string)
    ensures |r| == |s|
    ensures forall i :: 0 <= i < |s| ==> r[i] == LowerChar(s[i])
  {
    seq(|s|, i requires 0 <= i < |s| => LowerChar(s[i]))
  }

  /** Lower-casing works character by character, so it distributes over concatenation, and
      lower-casing twice is the same as lower-casing once. */
  lemma LowerConcat(a: string, b: string)
    ensures Lower(a + b) == Lower(a) + Lower(b)
    ensures Lower(Lower(a)) == Lower(a)
  {
    assert forall i :: 0 <= i < |a| ==> LowerChar(LowerChar(a[i])) == LowerChar(a[i]);
  }

  predicate IsPrefix(k: string, s: string)
  {
    |k| <= |s| && s[..|k|] == k
  }

  /** Python's `k in s` for strings: `k` occurs in `s` as a contiguous substring. */
  predicate Contains(s: string, k: string)
    decreases |s|
  {
    IsPrefix(k, s) || (s != [] && Contains(s[1..], k))
  }

  /** `k` occurs in `s` starting at index `i`. */
  predicate OccursAt(s: string, k: string, i: int)
  {
    0 <= i <= |s| - |k| && s[i..i + |k|] == k
  }

  /** `Contains` agrees with the definition by position: `k` occurs in `s` at some index. */
  lemma {:induction false} ContainsAt(s: string, k: string)
    ensures Contains(s, k) <==> exists i :: OccursAt(s, k, i)
    decreases |s|
  {
    if Contains(s, k) {
      if IsPrefix(k, s) {
        assert OccursAt(s, k, 0);
      } else {
        ContainsAt(s[1..], k);
        var i :| OccursAt(s[1..], k, i);
        assert s[1..][i..i + |k|] == s[i + 1..i + 1 + |k|];
        assert OccursAt(s, k, i + 1);
      }
    }
    if exists i :: OccursAt(s, k, i) {
      var i :| OccursAt(s, k, i);
      if i == 0 {
        assert IsPrefix(k, s);
      } else {
        assert s[1..][i - 1..i - 1 + |k|] == s[i..i + |k|];
        assert OccursAt(s[1..], k, i - 1);
        ContainsAt(s[1..], k);
      }
    }
  }

  /** A string contains whatever is spliced into its middle. */
  lemma {:induction false} ContainsMiddle(a: string, k: string, b: string)
    ensures Contains(a + k + b, k)
    decreases |a|
  {
    if a == [] {
      assert a + k + b == k + b;
      assert (k + b)[..|k|] == k;
    } else {
      ContainsMiddle(a[1..], k, b);
      assert (a + k + b)[1..] == a[1..] + k + b;
    }
  }

  /** A text with `k` spliced between two fixed pieces, as an f-string builds it. */
  function Spliced(before: string, k: string, after: string): (r: string)
    ensures Contains(r, k)
  {
    ContainsMiddle(before, k, after);
    before + k + after
  }

  /** Whatever a string contains, any longer string around it contains too. */
  lemma ContainsWithin(a: string, s: string, b: string, k: string)
    requires Contains(s, k)
    ensures Contains(a + s + b, k)
  {
    ContainsAt(s, k);
    var i :| OccursAt(s, k, i);
    assert (a + s + b)[|a| + i..|a| + i + |k|] == s[i..i + |k|];
    assert OccursAt(a + s + b, k, |a| + i);
    ContainsAt(a + s + b, k);
  }

  /** Whatever a prefix of a string contains, the string contains. */
  lemma ContainsInPrefix(h: string, s: string, k: string)
    requires IsPrefix(h, s) && Contains(h, k)
    ensures Contains(s, k)
  {
    ContainsAt(h, k);
    var i :| OccursAt(h, k, i);
    assert s[i..i + |k|] == h[i..i + |k|];
    assert OccursAt(s, k, i);
    ContainsAt(s, k);
  }

  /** `text[:limit]` followed by `...` exactly when the text was longer than `limit`. */
  function Truncate(text: string, limit: nat): (r: string)
    ensures |text| <= limit ==> r == text
    ensures |text| > limit ==> |r| == limit + 3 && r[..limit] == text[..limit] && r[limit..] == "..."
  {
    text[..if |text| < limit then |text| else limit] + (if |text| > limit then "..." else "")
  }

  /** Python's `c * n` for a one-character string. */
  function Repeat(c: char, n: nat): (r: string)
    ensures |r| == n && forall i :: 0 <= i < n ==> r[i] == c
  {
    if n == 0 then "" else Repeat(c, n - 1) + [c]
  }

  function DigitChar(d: nat): char
    requires d < 10
  {
    "0123456789"[d]
  }

  /** `str(n)` for a natural number: its decimal digits, most significant first. */
  function Decimal(n: nat): (r: string)
    ensures r != [] && forall i :: 0 <= i < |r| ==> '0' <= r[i] <= '9'
    ensures |r| > 1 ==> r[0] != '0'
  {
    if n < 10 then [DigitChar(n)] else Decimal(n / 10) + [DigitChar(n % 10)]
  }

  /** The number a string of decimal digits denotes. */
  function DecimalValue(s: string): nat
    requires forall i :: 0 <= i < |s| ==> '0' <= s[i] <= '9'
  {
    if s == [] then 0 else 10 * DecimalValue(s[..|s| - 1]) + (s[|s| - 1] as int - '0' as int)
  }

  /** Rendering a counter in decimal loses nothing: the digits read back as the same number. */
  lemma {:induction false} DecimalRoundTrip(n: nat)
    ensures DecimalValue(Decimal(n)) == n
  {
    if n >= 10 {
      DecimalRoundTrip(n / 10);
      var r := Decimal(n);
      assert r[..|r| - 1] == Decimal(n / 10);
    }
  }
}
