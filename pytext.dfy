/**
 * The Python string operations the bot relies on: `str.replace(old, "")`,
 * `str.split(sep)` and `sep.join(parts)` (its reference definition),
 * `str.strip()`, `str.startswith` and `str(int)` with the decimal reading
 * `int()` gives back.
 */
module PyText {
  import opened Optional

  /** The characters for which Python's `str.isspace()` holds, which `str.strip()` removes. */
  predicate IsSpace(c: char) {
    c == ' ' || ('\t' <= c <= '\r') || ('\U{1C}' <= c <= '\U{1F}')
    || c == '\U{85}' || c == '\U{A0}' || c == '\U{1680}'
    || ('\U{2000}' <= c <= '\U{200A}')
    || c == '\U{2028}' || c == '\U{2029}' || c == '\U{202F}' || c == '\U{205F}' || c == '\U{3000}'
  }

  predicate AllSpace(s: string) {
    forall i :: 0 <= i < |s| ==> IsSpace(s[i])
  }

  /** Neither end of `s` is whitespace: what `strip()` leaves behind. */
  predicate Trimmed(s: string) {
    s == [] || (!IsSpace(s[0]) && !IsSpace(s[|s| - 1]))
  }

  // ---------------------------------------------------------------- strip

  /** `s.lstrip()`: drops the longest all-whitespace prefix. */
  function LStrip(s: string): (r: string)
    ensures |r| <= |s| && r == s[|s| - |r|..]
    ensures AllSpace(s[..|s| - |r|])
    ensures r == [] || !IsSpace(r[0])
  {
    if s != [] && IsSpace(s[0]) then
      var r := LStrip(s[1..]);
      assert s[..|s| - |r|] == [s[0]] + s[1..][..|s| - 1 - |r|];
      r
    else s
  }

  /** `s.rstrip()`: drops the longest all-whitespace suffix. */
  function RStrip(s: string): (r: string)
    ensures |r| <= |s| && r == s[..|r|]
    ensures AllSpace(s[|r|..])
    ensures r == [] || !IsSpace(r[|r| - 1])
  {
    if s != [] && IsSpace(s[|s| - 1]) then
      var r := RStrip(s[..|s| - 1]);
      assert s[|r|..] == s[..|s| - 1][|r|..] + [s[|s| - 1]];
      r
    else s
  }

  /** `s.strip()`. */
  function Strip(s: string): (r: string)
    ensures |r| <= |s|
    ensures Trimmed(r)
  {
    var l := LStrip(s);
    var r := RStrip(l);
    assert r != [] ==> r[0] == l[0];
    r
  }

  /** Leading whitespace does not change what `lstrip()` returns. */
  lemma {:induction false} LStripSkip(a: string, u: string)
    requires AllSpace(a)
    ensures LStrip(a + u) == LStrip(u)
    decreases |a|
  {
    if a != [] {
      assert (a + u)[0] == a[0];
      assert (a + u)[1..] == a[1..] + u;
      assert LStrip(a + u) == LStrip((a + u)[1..]);
      LStripSkip(a[1..], u);
    } else {
      assert a + u == u;
    }
  }

  /** Trailing whitespace does not change what `rstrip()` returns. */
  lemma {:induction false} RStripSkip(u: string, b: string)
    requires AllSpace(b)
    ensures RStrip(u + b) == RStrip(u)
    decreases |b|
  {
    if b != [] {
      assert (u + b)[|u + b| - 1] == b[|b| - 1];
      assert (u + b)[..|u + b| - 1] == u + b[..|b| - 1];
      assert RStrip(u + b) == RStrip((u + b)[..|u + b| - 1]);
      RStripSkip(u, b[..|b| - 1]);
    } else {
      assert u + b == u;
    }
  }

  /** `lstrip()` empties exactly the all-whitespace texts. */
  lemma {:induction false} LStripEmpty(s: string)
    ensures LStrip(s) == [] <==> AllSpace(s)
    decreases |s|
  {
    if s != [] {
      LStripEmpty(s[1..]);
      assert AllSpace(s) <==> IsSpace(s[0]) && AllSpace(s[1..]) by {
        assert forall i :: 1 <= i < |s| ==> s[i] == s[1..][i - 1];
      }
    }
  }

  /** `rstrip()` empties exactly the all-whitespace texts. */
  lemma {:induction false} RStripEmpty(s: string)
    ensures RStrip(s) == [] <==> AllSpace(s)
    decreases |s|
  {
    if s != [] {
      var k := |s| - 1;
      RStripEmpty(s[..k]);
      assert AllSpace(s) <==> IsSpace(s[k]) && AllSpace(s[..k]) by {
        assert forall i :: 0 <= i < k ==> s[i] == s[..k][i];
      }
    }
  }

  /** `strip()` leaves nothing exactly when the text is all whitespace. */
  lemma {:induction false} StripEmpty(s: string)
    ensures Strip(s) == [] <==> AllSpace(s)
  {
    LStripEmpty(s);
    RStripEmpty(LStrip(s));
  }

  /** A text with no whitespace at either end is its own `strip()`. */
  lemma {:induction false} StripTrimmed(t: string)
    requires Trimmed(t)
    ensures Strip(t) == t
  {
    assert LStrip(t) == t;
    assert RStrip(t) == t;
  }

  /** Any whitespace padding around an already trimmed text is exactly what `strip()` removes. */
  lemma {:induction false} StripPadded(a: string, t: string, b: string)
    requires AllSpace(a) && AllSpace(b) && Trimmed(t)
    ensures Strip(a + t + b) == t
  {
    var s := a + t + b;
    assert s == a + (t + b);
    LStripSkip(a, t + b);
    RStripSkip(t, b);
    if t == [] {
      assert t + b == b;
      LStripEmpty(b);
    } else {
      assert (t + b)[0] == t[0];
      assert LStrip(t + b) == t + b;
      StripTrimmed(t);
    }
  }

  /** Stripping twice is stripping once. */
  lemma {:induction false} StripIdempotent(s: string)
    ensures Strip(Strip(s)) == Strip(s)
  {
    StripTrimmed(Strip(s));
  }

  // ------------------------------------------------ replace / split / join

  /** `p` occurs in `s` starting at index `i`. */
  predicate OccursAt(s: string, p: string, i: int) {
    0 <= i && i + |p| <= |s| && s[i..i + |p|] == p
  }

  predicate StartsWith(s: string, p: string) {
    |p| <= |s| && s[..|p|] == p
  }

  /**
   * `s.replace(p, "")`: scanning left to right, every occurrence of `p` that
   * does not overlap an occurrence already removed is deleted.
   */
  function RemoveAll(s: string, p: string): (r: string)
    requires p != []
    ensures |r| <= |s|
    decreases |s|
  {
    if |s| < |p| then s
    else if s[..|p|] == p then RemoveAll(s[|p|..], p)
    else [s[0]] + RemoveAll(s[1..], p)
  }

  /** `s.split(p)`: the pieces between the same occurrences that `replace` removes. */
  function Split(s: string, p: string): (parts: seq<string>)
    requires p != []
    ensures |parts| >= 1
    decreases |s|
  {
    if |s| < |p| then [s]
    else if s[..|p|] == p then [[]] + Split(s[|p|..], p)
    else
      var rest := Split(s[1..], p);
      [[s[0]] + rest[0]] + rest[1..]
  }

  /** `sep.join(parts)`. */
  function Join(parts: seq<string>, sep: string): string {
    if |parts| == 0 then []
    else if |parts| == 1 then parts[0]
    else parts[0] + sep + Join(parts[1..], sep)
  }

  lemma {:induction false} JoinConsHead(c: char, parts: seq<string>, sep: string)
    requires |parts| >= 1
    ensures Join([[c] + parts[0]] + parts[1..], sep) == [c] + Join(parts, sep)
  {
    var q := [[c] + parts[0]] + parts[1..];
    assert q[1..] == parts[1..];
  }

  /** Python's documented identity `p.join(s.split(p)) == s`. */
  lemma {:induction false} JoinSplit(s: string, p: string)
    requires p != []
    ensures Join(Split(s, p), p) == s
    decreases |s|
  {
    if |s| < |p| {
    } else if s[..|p|] == p {
      var rest := Split(s[|p|..], p);
      JoinSplit(s[|p|..], p);
      assert ([[]] + rest)[1..] == rest;
      assert s == p + s[|p|..];
    } else {
      var rest := Split(s[1..], p);
      JoinSplit(s[1..], p);
      JoinConsHead(s[0], rest, p);
      assert s == [s[0]] + s[1..];
    }
  }

  /** `s.replace(p, "") == "".join(s.split(p))`: removal keeps exactly the pieces between the occurrences. */
  lemma {:induction false} RemoveAllJoinsPieces(s: string, p: string)
    requires p != []
    ensures RemoveAll(s, p) == Join(Split(s, p), [])
    decreases |s|
  {
    if |s| < |p| {
    } else if s[..|p|] == p {
      var rest := Split(s[|p|..], p);
      RemoveAllJoinsPieces(s[|p|..], p);
      assert ([[]] + rest)[1..] == rest;
    } else {
      var rest := Split(s[1..], p);
      RemoveAllJoinsPieces(s[1..], p);
      JoinConsHead(s[0], rest, []);
    }
  }

  /** A text in which `p` does not occur comes back from `replace` unchanged. */
  lemma {:induction false} RemoveAllAbsent(s: string, p: string)
    requires p != []
    requires forall i :: !OccursAt(s, p, i)
    ensures RemoveAll(s, p) == s
    decreases |s|
  {
    if |s| < |p| {
    } else {
      assert !OccursAt(s, p, 0);
      assert s[0..|p|] == s[..|p|];
      forall i ensures !OccursAt(s[1..], p, i) {
        if OccursAt(s[1..], p, i) {
          assert s[1..][i..i + |p|] == s[i + 1..i + 1 + |p|];
          assert OccursAt(s, p, i + 1);
        }
      }
      RemoveAllAbsent(s[1..], p);
      assert s == [s[0]] + s[1..];
    }
  }

  /** The first piece of `s.split(p)` is a prefix of `s`. */
  lemma {:induction false} SplitHeadPrefix(s: string, p: string)
    requires p != []
    ensures |Split(s, p)[0]| <= |s| && Split(s, p)[0] == s[..|Split(s, p)[0]|]
    decreases |s|
  {
    if |s| >= |p| && s[..|p|] != p {
      SplitHeadPrefix(s[1..], p);
    }
  }

  /** No piece of `s.split(p)` contains `p`: every occurrence was cut out. */
  lemma {:induction false} SplitPiecesFree(s: string, p: string)
    requires p != []
    ensures forall k, i :: 0 <= k < |Split(s, p)| ==> !OccursAt(Split(s, p)[k], p, i)
    decreases |s|
  {
    var parts := Split(s, p);
    if |s| < |p| {
    } else if s[..|p|] == p {
      var rest := Split(s[|p|..], p);
      SplitPiecesFree(s[|p|..], p);
      assert forall k :: 1 <= k < |parts| ==> parts[k] == rest[k - 1];
    } else {
      var rest := Split(s[1..], p);
      SplitPiecesFree(s[1..], p);
      SplitHeadPrefix(s[1..], p);
      var h := [s[0]] + rest[0];
      assert parts[0] == h;
      assert forall k :: 1 <= k < |parts| ==> parts[k] == rest[k];
      assert h == s[..|h|];
      forall i ensures !OccursAt(h, p, i) {
        if i == 0 && |p| <= |h| {
          assert h[0..|p|] == s[..|p|];
        } else if 1 <= i {
          assert !OccursAt(rest[0], p, i - 1);
          OccursShift(s[0], rest[0], p, i - 1);
        }
      }
    }
  }

  /** An occurrence in `t` is one in `[c] + t`, one place further on, and back. */
  lemma {:induction false} OccursShift(c: char, t: string, p: string, i: nat)
    ensures OccursAt([c] + t, p, i + 1) <==> OccursAt(t, p, i)
  {
    if i + |p| <= |t| {
      assert ([c] + t)[i + 1..i + 1 + |p|] == t[i..i + |p|];
    }
  }

  /** Text that does not start with `p` keeps its first character. */
  lemma {:induction false} RemoveAllKeepsHead(c: char, t: string, p: string)
    requires p != [] && !OccursAt([c] + t, p, 0)
    ensures RemoveAll([c] + t, p) == [c] + RemoveAll(t, p)
  {
    var s := [c] + t;
    if |p| <= |s| {
      assert s[0..|p|] == s[..|p|];
    }
    assert s[1..] == t;
  }

  /**
   * Scanning left to right, the first occurrence of `p` is removed and the
   * text before it kept as it is; the scan then goes on after it.
   */
  lemma {:induction false} RemoveAllAt(a: string, p: string, b: string)
    requires p != []
    requires forall i :: 0 <= i < |a| ==> !OccursAt(a + p + b, p, i)
    ensures RemoveAll(a + p + b, p) == a + RemoveAll(b, p)
    decreases |a|
  {
    if a == [] {
      var s := a + p + b;
      assert s[..|p|] == p && s[|p|..] == b;
    } else {
      var t := a[1..] + p + b;
      assert a + p + b == [a[0]] + t;
      forall i | 0 <= i < |a| - 1 ensures !OccursAt(t, p, i) {
        OccursShift(a[0], t, p, i);
      }
      RemoveAllAt(a[1..], p, b);
      RemoveAllKeepsHead(a[0], t, p);
      assert a == [a[0]] + a[1..];
    }
  }

  // --------------------------------------------------- str(int) and int()

  predicate IsDigit(c: char) {
    '0' <= c <= '9'
  }

  predicate AllDigits(s: string) {
    forall i :: 0 <= i < |s| ==> IsDigit(s[i])
  }

  function DigitChar(d: int): (c: char)
    requires 0 <= d < 10
    ensures IsDigit(c) && c as int - '0' as int == d
  {
    ('0' as int + d) as char
  }

  /** `str(n)` for `n >= 0`: decimal digits, most significant first, no leading zero. */
  function ShowNat(n: nat): (r: string)
    ensures r != [] && AllDigits(r)
    ensures r[0] == '0' ==> n == 0
    decreases n
  {
    if n < 10 then [DigitChar(n)] else ShowNat(n / 10) + [DigitChar(n % 10)]
  }

  /** `str(n)` for any Python integer. */
  function ShowInt(n: int): (r: string)
    ensures r != []
    ensures n < 0 <==> r[0] == '-'
  {
    if n < 0 then "-" + ShowNat(-n) else ShowNat(n)
  }

  /** The number a string of decimal digits denotes. */
  function DigitsValue(s: string): nat
    requires AllDigits(s)
  {
    if s == [] then 0
    else DigitsValue(s[..|s| - 1]) * 10 + (s[|s| - 1] as int - '0' as int)
  }

  /** `int(s)` on an optionally signed run of decimal digits, `None` for any other text. */
  function ParseDecimal(s: string): Option<int> {
    if |s| > 1 && s[0] == '-' && AllDigits(s[1..]) then Some(0 - DigitsValue(s[1..]))
    else if s != [] && AllDigits(s) then Some(DigitsValue(s))
    else None
  }

  lemma {:induction false} DigitsValueShowNat(n: nat)
    ensures DigitsValue(ShowNat(n)) == n
    decreases n
  {
    if n >= 10 {
      DigitsValueShowNat(n / 10);
      var s := ShowNat(n);
      assert s[..|s| - 1] == ShowNat(n / 10);
    }
  }

  /** `int(str(n)) == n`. */
  lemma {:induction false} ParseShowInt(n: int)
    ensures ParseDecimal(ShowInt(n)) == Some(n)
  {
    if n < 0 {
      DigitsValueShowNat(-n);
      assert ShowInt(n)[1..] == ShowNat(-n);
    } else {
      DigitsValueShowNat(n);
    }
  }
}
