/** Small wrapper types shared by the model. */
module Wrappers {
  datatype Option<+T> = None | Some(value: T)

  /** The outcome of a step that either yields a value or raises an error with a text. */
  datatype Result<+T> = Ok(value: T) | Err(error: string)
}

/**
 * The Python `str` operations the command handler relies on: `strip()`, `lower()`,
 * `split()`, `startswith`, the `in` substring test, `replace(p, "")`, `isdigit()`,
 * `int()` on a digit string and `str()` of a non-negative integer.
 */
module Strings {

  /** Python's `str.isspace()` for one code point (the whitespace `split()` and `strip()` use). */
  predicate IsSpace(c: char) {
    var n := c as int;
    (9 <= n <= 13) || (28 <= n <= 32) || n == 0x85 || n == 0xA0 || n == 0x1680
    || (0x2000 <= n <= 0x200A) || n == 0x2028 || n == 0x2029 || n == 0x202F
    || n == 0x205F || n == 0x3000
  }

  predicate IsDigit(c: char) { '0' <= c <= '9' }

  predicate AllSpace(s: string) { forall i :: 0 <= i < |s| ==> IsSpace(s[i]) }

  predicate NoSpace(s: string) { forall i :: 0 <= i < |s| ==> !IsSpace(s[i]) }

  predicate AllDigits(s: string) { forall i :: 0 <= i < |s| ==> IsDigit(s[i]) }

  /** `str.isdigit()` on ASCII: true exactly for a non-empty string of decimal digits. */
  predicate IsDigits(s: string) { |s| > 0 && AllDigits(s) }

  // ---------------------------------------------------------------- lower()

  /** ASCII case mapping of one character. */
  function LowerChar(c: char): (d: char)
    ensures IsSpace(d) == IsSpace(c)
    ensures !('A' <= d <= 'Z')
    ensures !('A' <= c <= 'Z') ==> d == c
  {
    if 'A' <= c <= 'Z' then (c as int + 32) as char else c
  }

  /** `str.lower()` on ASCII: same length, no upper-case letter left, every letter moved down by 32
      and every other character kept. */
  function Lower(s: string): (r: string)
    ensures |r| == |s|
    ensures forall i :: 0 <= i < |r| ==> !('A' <= r[i] <= 'Z')
    ensures forall i :: 0 <= i < |s| ==>
      if 'A' <= s[i] <= 'Z' then r[i] as int == s[i] as int + 32 else r[i] == s[i]
  {
    seq(|s|, i requires 0 <= i < |s| => LowerChar(s[i]))
  }

  lemma LowerKeepsLowerCase(s: string)
    requires forall i :: 0 <= i < |s| ==> !('A' <= s[i] <= 'Z')
    ensures Lower(s) == s
  {
  }

  /** Lower-casing neither adds nor removes whitespace at the ends. */
  lemma LowerKeepsEnds(t: string)
    requires t == [] || (!IsSpace(t[0]) && !IsSpace(t[|t| - 1]))
    ensures var c := Lower(t); c == [] || (!IsSpace(c[0]) && !IsSpace(c[|c| - 1]))
  {
    var c := Lower(t);
    if c != [] {
      assert c[0] == LowerChar(t[0]);
      assert c[|c| - 1] == LowerChar(t[|t| - 1]);
    }
  }

  // ---------------------------------------------------------------- strip()

  /** The number of whitespace characters `s` starts with. */
  function LeadingSpace(s: string): (n: nat)
    ensures n <= |s| && AllSpace(s[..n])
    ensures n < |s| ==> !IsSpace(s[n])
  {
    if s != [] && IsSpace(s[0]) then
      var n := LeadingSpace(s[1..]);
      assert s[..n + 1] == [s[0]] + s[1..][..n];
      n + 1
    else 0
  }

  function TrimEnd(s: string): (r: string)
    ensures |r| <= |s| && r == s[..|r|]
    ensures AllSpace(s[|r|..])
    ensures r == [] || !IsSpace(r[|r| - 1])
  {
    if s != [] && IsSpace(s[|s| - 1]) then
      var r := TrimEnd(s[..|s| - 1]);
      assert s[|r|..] == s[..|s| - 1][|r|..] + [s[|s| - 1]];
      r
    else s
  }

  /** `str.strip()`: drops the leading and the trailing whitespace. */
  function Strip(s: string): (r: string)
    ensures r == [] || (!IsSpace(r[0]) && !IsSpace(r[|r| - 1]))
    ensures (s == [] || (!IsSpace(s[0]) && !IsSpace(s[|s| - 1]))) ==> r == s
    ensures var i := LeadingSpace(s);
      i + |r| <= |s| && r == s[i..i + |r|] && AllSpace(s[..i]) && AllSpace(s[i + |r|..])
  {
    var i := LeadingSpace(s);
    var r := TrimEnd(s[i..]);
    assert r == s[i..i + |r|];
    assert s[i + |r|..] == s[i..][|r|..];
    r
  }

  // ---------------------------------------------------------------- split()

  /** Length of the run of non-whitespace characters at the front of `s`. */
  function WordLength(s: string): (n: nat)
    ensures n <= |s|
    ensures NoSpace(s[..n])
    ensures n < |s| ==> IsSpace(s[n])
  {
    if s == [] || IsSpace(s[0]) then 0
    else
      var m := WordLength(s[1..]);
      assert s[..m + 1] == [s[0]] + s[1..][..m];
      1 + m
  }

  /** `str.split()` with no separator: the maximal runs of non-whitespace, in order. */
  function Split(s: string): (r: seq<string>)
    ensures forall k :: 0 <= k < |r| ==> r[k] != [] && NoSpace(r[k])
    ensures r == [] <==> AllSpace(s)
    decreases |s|
  {
    if s == [] then []
    else if IsSpace(s[0]) then
      var r := Split(s[1..]);
      assert AllSpace(s) <==> AllSpace(s[1..]) by {
        assert forall i :: 1 <= i < |s| ==> s[i] == s[1..][i - 1];
      }
      r
    else
      var n := WordLength(s);
      [s[..n]] + Split(s[n..])
  }

  /** The words joined with one blank between neighbours (`" ".join(ws)`). */
  function JoinWords(ws: seq<string>): string
  {
    if ws == [] then ""
    else if |ws| == 1 then ws[0]
    else ws[0] + " " + JoinWords(ws[1..])
  }

  lemma {:induction false} WordLengthOfWord(w: string, t: string)
    requires NoSpace(w)
    requires t == [] || IsSpace(t[0])
    ensures WordLength(w + t) == |w|
  {
    if w != [] {
      assert (w + t)[1..] == w[1..] + t;
      WordLengthOfWord(w[1..], t);
    }
  }

  /** Splitting undoes joining with blanks, for words that are non-empty and blank-free. */
  lemma {:induction false} SplitJoinWords(ws: seq<string>)
    requires forall k :: 0 <= k < |ws| ==> ws[k] != [] && NoSpace(ws[k])
    ensures Split(JoinWords(ws)) == ws
  {
    if |ws| == 1 {
      var w := ws[0];
      WordLengthOfWord(w, []);
      assert w + [] == w;
      assert w[..|w|] == w && w[|w|..] == [];
    } else if |ws| > 1 {
      var w, rest := ws[0], JoinWords(ws[1..]);
      var s := w + " " + rest;
      assert s == w + (" " + rest);
      WordLengthOfWord(w, " " + rest);
      assert s[..|w|] == w;
      assert s[|w|..] == " " + rest;
      assert (" " + rest)[1..] == rest;
      assert Split(" " + rest) == Split(rest);
      assert Split(s) == [w] + Split(" " + rest);
      SplitJoinWords(ws[1..]);
      assert [w] + ws[1..] == ws;
    }
  }

  /** Whitespace in front of the text adds no word: `split()` skips any run of it, however long and
      whatever its characters. */
  lemma {:induction false} SplitSkipsSpace(g: string, s: string)
    requires AllSpace(g)
    ensures Split(g + s) == Split(s)
    decreases |g|
  {
    if g != [] {
      assert (g + s)[0] == g[0] && IsSpace(g[0]);
      assert (g + s)[1..] == g[1..] + s;
      assert Split(g + s) == Split(g[1..] + s);
      assert AllSpace(g[1..]) by {
        assert forall i :: 0 <= i < |g[1..]| ==> g[1..][i] == g[i + 1];
      }
      SplitSkipsSpace(g[1..], s);
    } else {
      assert g + s == s;
    }
  }

  /** A word ended by whitespace or by the end of the text is the first word, and splitting goes on
      after it. With `SplitSkipsSpace` and `Split("") == []` this fixes `Split` on every text. */
  lemma {:induction false} SplitTakesWord(w: string, s: string)
    requires w != [] && NoSpace(w)
    requires s == [] || IsSpace(s[0])
    ensures Split(w + s) == [w] + Split(s)
  {
    WordLengthOfWord(w, s);
    assert (w + s)[..|w|] == w;
    assert (w + s)[|w|..] == s;
  }

  /** A stripped text that splits into one word is that word. */
  lemma {:induction false} SingleWordIsWholeText(s: string)
    requires s == [] || (!IsSpace(s[0]) && !IsSpace(s[|s| - 1]))
    requires |Split(s)| == 1
    ensures s == Split(s)[0]
  {
    var n := WordLength(s);
    assert Split(s) == [s[..n]] + Split(s[n..]);
    assert Split(s[n..]) == [];
    assert s[..n] == s;
  }

  // ---------------------------------------------------------------- startswith / in

  predicate StartsWith(s: string, p: string) {
    |p| <= |s| && s[..|p|] == p
  }

  /** Python's `p in s`. */
  predicate Contains(s: string, p: string)
    ensures Contains(s, p) ==> |p| <= |s|
    decreases |s|
  {
    StartsWith(s, p) || (s != [] && Contains(s[1..], p))
  }

  /** `p` occurs in `s` starting at position `j`. */
  predicate OccursAt(s: string, p: string, j: int) {
    0 <= j && j + |p| <= |s| && s[j..j + |p|] == p
  }

  /** `p in s` holds exactly when `p` occurs at some position of `s`. */
  lemma {:induction false} ContainsIsOccurrence(s: string, p: string)
    ensures Contains(s, p) <==> exists j :: OccursAt(s, p, j)
    decreases |s|
  {
    if StartsWith(s, p) {
      assert OccursAt(s, p, 0);
    } else if s != [] {
      ContainsIsOccurrence(s[1..], p);
      if Contains(s[1..], p) {
        var j :| OccursAt(s[1..], p, j);
        assert s[1..][j..j + |p|] == s[j + 1..j + 1 + |p|];
        assert OccursAt(s, p, j + 1);
      }
      if exists j :: OccursAt(s, p, j) {
        var j :| OccursAt(s, p, j);
        assert j != 0;
        assert s[1..][j - 1..j - 1 + |p|] == s[j..j + |p|];
        assert OccursAt(s[1..], p, j - 1);
      }
    }
  }

  lemma {:induction false} ContainsInPrefix(a: string, b: string, p: string)
    requires Contains(a, p)
    ensures Contains(a + b, p)
    decreases |a|
  {
    if StartsWith(a, p) {
      assert (a + b)[..|p|] == a[..|p|];
    } else {
      ContainsInPrefix(a[1..], b, p);
      assert (a + b)[1..] == a[1..] + b;
    }
  }

  lemma {:induction false} ContainsInSuffix(s: string, j: nat, p: string)
    requires j <= |s|
    requires Contains(s[j..], p)
    ensures Contains(s, p)
    decreases j
  {
    if j > 0 {
      assert s[1..][j - 1..] == s[j..];
      ContainsInSuffix(s[1..], j - 1, p);
    }
  }

  lemma {:induction false} ContainsInMiddle(a: string, p: string, b: string)
    ensures Contains(a + p + b, p)
  {
    var s := a + p + b;
    assert s[|a|..] == p + b;
    assert (p + b)[..|p|] == p;
    assert Contains(s[|a|..], p);
    ContainsInSuffix(s, |a|, p);
  }

  /** Whatever occurs inside one of the words of `s` occurs in `s`. */
  lemma {:induction false} ContainsThroughWord(s: string, k: nat, p: string)
    requires k < |Split(s)|
    requires Contains(Split(s)[k], p)
    ensures Contains(s, p)
    decreases |s|
  {
    if IsSpace(s[0]) {
      ContainsThroughWord(s[1..], k, p);
      ContainsInSuffix(s, 1, p);
    } else {
      var n := WordLength(s);
      if k == 0 {
        ContainsInPrefix(s[..n], s[n..], p);
        assert s[..n] + s[n..] == s;
      } else {
        ContainsThroughWord(s[n..], k - 1, p);
        ContainsInSuffix(s, n, p);
      }
    }
  }

  // ---------------------------------------------------------------- replace(p, "")

  /** `s.replace(p, "")`: scanning left to right, every non-overlapping occurrence of `p` is dropped. */
  function RemoveAll(s: string, p: string): (r: string)
    requires p != []
    ensures |r| <= |s|
    ensures !Contains(s, p) ==> r == s
    ensures Contains(s, p) ==> |r| <= |s| - |p|
    decreases |s|
  {
    if |s| < |p| then
      assert !Contains(s, p);
      s
    else if s[..|p|] == p then RemoveAll(s[|p|..], p)
    else
      assert Contains(s, p) <==> Contains(s[1..], p);
      assert [s[0]] + s[1..] == s;
      [s[0]] + RemoveAll(s[1..], p)
  }

  /** Characters that cannot begin `p` pass through `RemoveAll` unchanged. */
  lemma {:induction false} RemoveAllKeepsFront(d: string, s: string, p: string)
    requires p != []
    requires forall i :: 0 <= i < |d| ==> d[i] != p[0]
    ensures RemoveAll(d + s, p) == d + RemoveAll(s, p)
    decreases |d|
  {
    if d == [] {
      assert d + s == s;
      assert d + RemoveAll(s, p) == RemoveAll(s, p);
    } else {
      calc {
        RemoveAll(d + s, p);
        == { assert (d + s)[0] == d[0] && (d + s)[1..] == d[1..] + s && !StartsWith(d + s, p); RemoveAllSkip(d + s, p); }
        [d[0]] + RemoveAll(d[1..] + s, p);
        == { RemoveAllKeepsFront(d[1..], s, p); }
        [d[0]] + (d[1..] + RemoveAll(s, p));
        == { assert [d[0]] + d[1..] == d; }
        d + RemoveAll(s, p);
      }
    }
  }

  /** A first character that starts no occurrence of `p` is kept, even when it equals `p[0]`. */
  lemma RemoveAllSkip(t: string, p: string)
    requires p != [] && t != [] && !StartsWith(t, p)
    ensures RemoveAll(t, p) == [t[0]] + RemoveAll(t[1..], p)
  {
    if |t| < |p| {
      assert RemoveAll(t[1..], p) == t[1..];
      assert [t[0]] + t[1..] == t;
    }
  }

  /** An occurrence of `p` at the front is dropped. With `RemoveAllSkip` and the identity on texts
      without `p`, this fixes `replace(p, "")` on every text. */
  lemma {:induction false} RemoveAllDropsFront(p: string, s: string)
    requires p != []
    ensures RemoveAll(p + s, p) == RemoveAll(s, p)
  {
    assert (p + s)[..|p|] == p;
    assert (p + s)[|p|..] == s;
  }

  // ---------------------------------------------------------------- int() and str()

  function DigitValue(c: char): (v: nat)
    requires IsDigit(c)
    ensures v < 10
  {
    c as int - '0' as int
  }

  function DigitChar(v: nat): (c: char)
    requires v < 10
    ensures IsDigit(c) && DigitValue(c) == v
  {
    ('0' as int + v) as char
  }

  /** `int(s)` for a string of decimal digits: a number below 10^|s|. */
  function ParseNat(s: string): (n: nat)
    requires AllDigits(s)
    ensures n < Pow10(|s|)
    decreases |s|
  {
    if s == [] then 0
    else
      var front := ParseNat(s[..|s| - 1]);
      assert front * 10 <= (Pow10(|s| - 1) - 1) * 10;
      front * 10 + DigitValue(s[|s| - 1])
  }

  /** `str(n)` for a non-negative integer: decimal digits without leading zeros. */
  function NatToString(n: nat): (s: string)
    ensures IsDigits(s)
    ensures |s| > 1 ==> s[0] != '0'
    ensures ParseNat(s) == n
    decreases n
  {
    if n < 10 then [DigitChar(n)]
    else
      var front := NatToString(n / 10);
      var s := front + [DigitChar(n % 10)];
      assert s[..|s| - 1] == front;
      s
  }

  /** A leading zero does not change the value `int()` reads. */
  lemma {:induction false} ParseNatLeadingZero(s: string)
    requires AllDigits(s)
    ensures AllDigits("0" + s) && ParseNat("0" + s) == ParseNat(s)
    decreases |s|
  {
    var t := "0" + s;
    assert AllDigits(t) by {
      assert forall i :: 1 <= i < |t| ==> t[i] == s[i - 1];
    }
    if s != [] {
      assert t[..|t| - 1] == "0" + s[..|s| - 1];
      ParseNatLeadingZero(s[..|s| - 1]);
    }
  }

  lemma {:induction false} ParseNatZero(s: string)
    requires AllDigits(s)
    requires ParseNat(s) == 0
    ensures forall i :: 0 <= i < |s| ==> s[i] == '0'
    decreases |s|
  {
    if s != [] {
      var front := s[..|s| - 1];
      ParseNatZero(front);
      assert forall i :: 0 <= i < |s| - 1 ==> s[i] == front[i];
    }
  }

  function Pow10(k: nat): (p: nat)
    ensures p >= 1
  {
    if k == 0 then 1 else 10 * Pow10(k - 1)
  }

  /** `str(n)` has at most k digits when n is below 10^k. */
  lemma {:induction false} NatToStringLength(n: nat, k: nat)
    requires 1 <= k && n < Pow10(k)
    ensures |NatToString(n)| <= k
    decreases k
  {
    if n >= 10 {
      assert n / 10 < Pow10(k - 1);
      NatToStringLength(n / 10, k - 1);
    }
  }

  /** A digit string without a leading zero is exactly what `str(int(s))` gives back. */
  lemma {:induction false} NatToStringOfCanonical(s: string)
    requires IsDigits(s)
    requires |s| > 1 ==> s[0] != '0'
    ensures NatToString(ParseNat(s)) == s
    decreases |s|
  {
    if |s| > 1 {
      var front := s[..|s| - 1];
      var n := ParseNat(s);
      if ParseNat(front) == 0 {
        ParseNatZero(front);
        assert false;
      }
      assert n / 10 == ParseNat(front) && n % 10 == DigitValue(s[|s| - 1]);
      NatToStringOfCanonical(front);
      assert front + [s[|s| - 1]] == s;
    }
  }

  /** The numbers in order, each written with `str()`, separated by `sep` (`sep.join(map(str, xs))`). */
  function JoinNats(xs: seq<nat>, sep: string): string
  {
    if xs == [] then ""
    else if |xs| == 1 then NatToString(xs[0])
    else NatToString(xs[0]) + sep + JoinNats(xs[1..], sep)
  }

  /** `s.split(sep)` for a one-character separator: the pieces between separators, empty ones included. */
  function SplitOn(s: string, sep: char): (r: seq<string>)
    ensures |r| >= 1
    decreases |s|
  {
    if s == [] then [""]
    else
      var rest := SplitOn(s[1..], sep);
      if s[0] == sep then [""] + rest else [[s[0]] + rest[0]] + rest[1..]
  }

  lemma {:induction false} SplitOnPiece(a: string, b: string, sep: char)
    requires forall i :: 0 <= i < |a| ==> a[i] != sep
    ensures SplitOn(a + [sep] + b, sep) == [a] + SplitOn(b, sep)
    ensures SplitOn(a, sep) == [a]
    decreases |a|
  {
    if a == [] {
      assert a + [sep] + b == [sep] + b;
      assert ([sep] + b)[1..] == b;
    } else {
      assert (a + [sep] + b)[1..] == a[1..] + [sep] + b;
      SplitOnPiece(a[1..], b, sep);
      assert [a[0]] + a[1..] == a;
    }
  }

  /** Splitting the joined numbers at the separator gives back each number's decimal text, in order. */
  lemma {:induction false} SplitJoinNats(xs: seq<nat>, sep: char)
    requires |xs| > 0 && !IsDigit(sep)
    ensures |SplitOn(JoinNats(xs, [sep]), sep)| == |xs|
    ensures forall k :: 0 <= k < |xs| ==> SplitOn(JoinNats(xs, [sep]), sep)[k] == NatToString(xs[k])
  {
    var d := NatToString(xs[0]);
    assert forall i :: 0 <= i < |d| ==> d[i] != sep;
    if |xs| == 1 {
      SplitOnPiece(d, [], sep);
    } else {
      SplitJoinNats(xs[1..], sep);
      SplitOnPiece(d, JoinNats(xs[1..], [sep]), sep);
    }
  }
}
