/**
 * String helpers shared by the model: substring search, Python's `str.split`,
 * ASCII lower-casing and decimal digit strings.
 */
module Text {

  import opened Wrappers

  /** `pat` occurs in `s` starting at position `i`. */
  predicate OccursAt(s: string, pat: string, i: nat)
  {
    i + |pat| <= |s| && s[i..i + |pat|] == pat
  }

  /** First position at which `pat` occurs in `s`, or `|s|` when it does not occur. */
  function Find(s: string, pat: string): (r: nat)
    requires |pat| >= 1
    ensures r <= |s|
    ensures r < |s| ==> OccursAt(s, pat, r)
    ensures forall i: nat :: i < r ==> !OccursAt(s, pat, i)
    decreases |s|
  {
    if |s| < |pat| then |s|
    else if s[..|pat|] == pat then 0
    else
      var r := 1 + Find(s[1..], pat);
      assert !OccursAt(s, pat, 0);
      assert forall i: nat :: 1 <= i < r ==> !OccursAt(s, pat, i) by {
        forall i: nat | 1 <= i < r ensures !OccursAt(s, pat, i) {
          ShiftOccurs(s, pat, i);
        }
      }
      assert r < |s| ==> OccursAt(s, pat, r) by {
        if r < |s| {
          ShiftOccurs(s, pat, r);
        }
      }
      r
  }

  /** `Find` returns the first occurrence. */
  lemma FindIs(s: string, pat: string, r: nat)
    requires |pat| >= 1 && r < |s| && OccursAt(s, pat, r)
    requires forall i: nat :: i < r ==> !OccursAt(s, pat, i)
    ensures Find(s, pat) == r
  {
  }

  /** `Find` returns the length when there is no occurrence. */
  lemma NotFound(s: string, pat: string)
    requires |pat| >= 1
    requires forall i: nat :: !OccursAt(s, pat, i)
    ensures Find(s, pat) == |s|
  {
  }

  /** An occurrence past the first character is an occurrence in the rest. */
  lemma ShiftOccurs(s: string, pat: string, i: nat)
    requires 1 <= i && |s| >= 1
    ensures OccursAt(s, pat, i) <==> OccursAt(s[1..], pat, i - 1)
  {
    if i + |pat| <= |s| {
      var t := s[1..];
      var a := s[i..i + |pat|];
      var b := t[i - 1..i - 1 + |pat|];
      forall k | 0 <= k < |pat| ensures a[k] == b[k] {
        assert a[k] == s[i + k];
        assert b[k] == t[i - 1 + k];
      }
      assert a == b;
    }
  }

  /** Python's `pat in s`. */
  predicate Contains(s: string, pat: string)
  {
    |pat| == 0 || Find(s, pat) < |s|
  }

  /** `Contains` is substring occurrence, in both directions. */
  lemma ContainsIffOccurs(s: string, pat: string)
    ensures Contains(s, pat) <==> exists i: nat :: OccursAt(s, pat, i)
  {
    if |pat| == 0 {
      assert OccursAt(s, pat, 0);
    } else if Find(s, pat) < |s| {
      assert OccursAt(s, pat, Find(s, pat));
    } else {
      forall i: nat ensures !OccursAt(s, pat, i) {
        if i >= |s| {
          assert i + |pat| > |s|;
        }
      }
    }
  }

  /** A prefix that ends before the first occurrence of `pat` does not contain `pat`. */
  lemma NoOccurrenceBefore(s: string, pat: string, i: nat)
    requires |pat| >= 1 && i <= |s|
    requires forall j: nat :: j < i ==> !OccursAt(s, pat, j)
    ensures !Contains(s[..i], pat)
  {
    var h := s[..i];
    forall j: nat ensures !OccursAt(h, pat, j) {
      if j + |pat| <= |h| {
        assert !OccursAt(s, pat, j);
        assert h[j..j + |pat|] == s[j..j + |pat|];
      }
    }
    ContainsIffOccurs(h, pat);
  }

  /**
   * Python's `s.split(sep)` for a non-empty separator: the pieces between
   * the non-overlapping occurrences of `sep`, scanned from the left.
   */
  function Split(s: string, sep: string): (r: seq<string>)
    requires |sep| >= 1
    ensures |r| >= 1
    ensures forall k :: 0 <= k < |r| ==> !Contains(r[k], sep)
    decreases |s|
  {
    var i := Find(s, sep);
    if i == |s| then
      [s]
    else
      var head := s[..i];
      NoOccurrenceBefore(s, sep, i);
      [head] + Split(s[i + |sep|..], sep)
  }

  /** The separator splits the string exactly when it occurs in it. */
  lemma SplitPieces(s: string, sep: string)
    requires |sep| >= 1
    ensures |Split(s, sep)| >= 2 <==> Contains(s, sep)
  {
  }

  /** Python's `sep.join(parts)`. */
  function Join(parts: seq<string>, sep: string): string
    requires |parts| >= 1
  {
    if |parts| == 1 then parts[0] else parts[0] + sep + Join(parts[1..], sep)
  }

  /** Splitting loses nothing: joining the pieces gives back the string. */
  lemma {:induction false} JoinSplit(s: string, sep: string)
    requires |sep| >= 1
    ensures Join(Split(s, sep), sep) == s
    decreases |s|
  {
    var i := Find(s, sep);
    if i < |s| {
      var rest := s[i + |sep|..];
      var tail := Split(rest, sep);
      var parts := Split(s, sep);
      JoinSplit(rest, sep);
      assert parts == [s[..i]] + tail;
      assert Join(parts, sep) == s[..i] + sep + rest by {
        assert |parts| >= 2 && parts[0] == s[..i] && parts[1..] == tail;
      }
      assert s == s[..i] + sep + rest by {
        assert OccursAt(s, sep, i);
        assert s[i..i + |sep|] == sep;
        assert s == s[..i] + s[i..i + |sep|] + rest;
      }
    }
  }

  /** A string without the character `c` has no occurrence of `[c]`. */
  lemma NoOccurrence(s: string, c: char)
    requires c !in s
    ensures forall j: nat :: !OccursAt(s, [c], j)
    ensures Find(s, [c]) == |s|
  {
    forall j: nat ensures !OccursAt(s, [c], j) {
      if j + 1 <= |s| {
        assert s[j..j + 1][0] == s[j];
      }
    }
  }

  /** For a one-character separator, splitting a join gives back the pieces. */
  lemma {:induction false} SplitJoin(parts: seq<string>, sep: char)
    requires |parts| >= 1
    requires forall k :: 0 <= k < |parts| ==> sep !in parts[k]
    ensures Split(Join(parts, [sep]), [sep]) == parts
    decreases |parts|
  {
    var p := parts[0];
    NoOccurrence(p, sep);
    if |parts| > 1 {
      var rest := Join(parts[1..], [sep]);
      var s := p + [sep] + rest;
      assert Join(parts, [sep]) == s;
      assert OccursAt(s, [sep], |p|) by {
        assert s[|p|..|p| + 1] == [sep];
      }
      forall j: nat | j < |p| ensures !OccursAt(s, [sep], j) {
        assert s[j..j + 1] == p[j..j + 1];
        assert !OccursAt(p, [sep], j);
      }
      FindIs(s, [sep], |p|);
      assert s[..|p|] == p;
      assert s[|p| + 1..] == rest;
      SplitJoin(parts[1..], sep);
    }
  }

  /** ASCII lower-casing (Python's `str.lower` on ASCII text). */
  function LowerChar(c: char): char
  {
    if 'A' <= c <= 'Z' then (c as int - 'A' as int + 'a' as int) as char else c
  }

  function Lower(s: string): (r: string)
    ensures |r| == |s|
    ensures forall i :: 0 <= i < |s| ==> r[i] == LowerChar(s[i])
  {
    seq(|s|, i requires 0 <= i < |s| => LowerChar(s[i]))
  }

  predicate IsDigit(c: char)
  {
    '0' <= c <= '9'
  }

  predicate AllDigits(s: string)
  {
    forall i :: 0 <= i < |s| ==> IsDigit(s[i])
  }

  function DigitChar(d: nat): (c: char)
    requires d < 10
    ensures IsDigit(c)
  {
    (d + '0' as int) as char
  }

  function DigitValue(c: char): (d: nat)
    requires IsDigit(c)
    ensures d < 10 && DigitChar(d) == c
  {
    c as int - '0' as int
  }

  /** The value of a string of decimal digits, as Python's `int` reads it (leading zeros allowed). */
  function DecimalValue(s: string): nat
    requires AllDigits(s)
    decreases |s|
  {
    if s == [] then 0 else 10 * DecimalValue(s[..|s| - 1]) + DigitValue(s[|s| - 1])
  }

  /** The shortest decimal spelling of `n`, as Python's `str(n)` or `{:d}` writes it. */
  function DecimalDigits(n: nat): (r: string)
    ensures |r| >= 1 && AllDigits(r)
    decreases n
  {
    if n < 10 then [DigitChar(n)] else DecimalDigits(n / 10) + [DigitChar(n % 10)]
  }

  /** Reading back the decimal spelling of `n` gives `n`. */
  lemma {:induction false} DecimalRoundTrip(n: nat)
    ensures DecimalValue(DecimalDigits(n)) == n
    decreases n
  {
    var r := DecimalDigits(n);
    if n >= 10 {
      DecimalRoundTrip(n / 10);
      assert r[..|r| - 1] == DecimalDigits(n / 10);
    }
  }

  /** Python's `int(s)` restricted to plain digit strings; `None` stands for the ValueError. */
  function ParseNat(s: string): (r: Option<nat>)
    ensures r.Some? <==> |s| >= 1 && AllDigits(s)
  {
    if |s| >= 1 && AllDigits(s) then Some(DecimalValue(s)) else None
  }
}
