/** String helpers that stand for the Python built-ins the core relies on. */
module Text {

  /** `t` occurs in `s` as a contiguous substring (Python `t in s`). */
  predicate Contains(s: string, t: string)
  {
    exists k :: 0 <= k <= |s| - |t| && OccursAt(s, t, k)
  }

  /** `t` occurs in `s` starting at index `k`. */
  predicate OccursAt(s: string, t: string, k: int)
  {
    0 <= k <= |s| - |t| && s[k..k + |t|] == t
  }

  lemma ContainsAt(s: string, t: string, k: int)
    requires 0 <= k <= |s| - |t| && s[k..k + |t|] == t
    ensures Contains(s, t)
  {
    assert OccursAt(s, t, k);
  }

  /** Anything contained in `b` is contained in `a + b + c`. */
  lemma {:induction false} ContainsInfix(a: string, b: string, c: string, t: string)
    requires Contains(b, t)
    ensures Contains(a + b + c, t)
  {
    var k :| 0 <= k <= |b| - |t| && OccursAt(b, t, k);
    var s := a + b + c;
    assert s[|a| + k..|a| + k + |t|] == b[k..k + |t|];
    ContainsAt(s, t, |a| + k);
  }

  /** Whatever `x` contains, `x + y` contains. */
  lemma ContainsLeft(x: string, y: string, t: string)
    requires Contains(x, t)
    ensures Contains(x + y, t)
  {
    var k :| 0 <= k <= |x| - |t| && OccursAt(x, t, k);
    assert (x + y)[k..k + |t|] == x[k..k + |t|];
    ContainsAt(x + y, t, k);
  }

  /** Whatever `y` contains, `x + y` contains. */
  lemma ContainsRight(x: string, y: string, t: string)
    requires Contains(y, t)
    ensures Contains(x + y, t)
  {
    var k :| 0 <= k <= |y| - |t| && OccursAt(y, t, k);
    assert (x + y)[|x| + k..|x| + k + |t|] == y[k..k + |t|];
    ContainsAt(x + y, t, |x| + k);
  }

  lemma ContainsSelf(s: string)
    ensures Contains(s, s)
  {
    assert s[0..|s|] == s;
    ContainsAt(s, s, 0);
  }

  /** Python `s.startswith(p)`. */
  predicate StartsWith(s: string, p: string)
  {
    |p| <= |s| && s[..|p|] == p
  }

  /** Python `sep.join(parts)`. */
  function Join(parts: seq<string>, sep: string): (r: string)
    ensures parts == [] ==> r == ""
    ensures |parts| == 1 ==> r == parts[0]
  {
    if parts == [] then ""
    else if |parts| == 1 then parts[0]
    else parts[0] + sep + Join(parts[1..], sep)
  }

  /** Every part is found in the joined string. */
  lemma {:induction false} JoinContainsPart(parts: seq<string>, sep: string, i: nat)
    requires i < |parts|
    ensures Contains(Join(parts, sep), parts[i])
  {
    if |parts| == 1 {
      ContainsSelf(parts[0]);
    } else if i == 0 {
      ContainsSelf(parts[0]);
      ContainsInfix("", parts[0], sep + Join(parts[1..], sep), parts[0]);
      assert "" + parts[0] + (sep + Join(parts[1..], sep)) == Join(parts, sep);
    } else {
      JoinContainsPart(parts[1..], sep, i - 1);
      ContainsInfix(parts[0] + sep, Join(parts[1..], sep), "", parts[i]);
      assert parts[0] + sep + Join(parts[1..], sep) + "" == Join(parts, sep);
    }
  }

  /** The joined string is the parts with one separator between neighbours. */
  lemma {:induction false} JoinLength(parts: seq<string>, sep: string)
    requires parts != []
    ensures |Join(parts, sep)| == TotalLength(parts) + (|parts| - 1) * |sep|
  {
    if |parts| > 1 {
      JoinLength(parts[1..], sep);
    }
  }

  function TotalLength(parts: seq<string>): nat
  {
    if parts == [] then 0 else |parts[0]| + TotalLength(parts[1..])
  }

  /** Python `s.replace(pat, rep)` for a non-empty `pat`: every non-overlapping
      occurrence, scanning left to right, is replaced. */
  function ReplaceAll(s: string, pat: string, rep: string): (r: string)
    requires pat != ""
    decreases |s|
  {
    if |s| < |pat| then s
    else if s[..|pat|] == pat then rep + ReplaceAll(s[|pat|..], pat, rep)
    else [s[0]] + ReplaceAll(s[1..], pat, rep)
  }

  /** A string without an occurrence of `pat` is left as it is. */
  lemma {:induction false} ReplaceAllAbsent(s: string, pat: string, rep: string)
    requires pat != ""
    requires !Contains(s, pat)
    ensures ReplaceAll(s, pat, rep) == s
  {
    if |s| >= |pat| {
      if s[..|pat|] == pat {
        ContainsAt(s, pat, 0);
      } else {
        if Contains(s[1..], pat) {
          var k :| 0 <= k <= |s[1..]| - |pat| && OccursAt(s[1..], pat, k);
          assert s[k + 1..k + 1 + |pat|] == pat;
          ContainsAt(s, pat, k + 1);
        }
        ReplaceAllAbsent(s[1..], pat, rep);
        assert [s[0]] + s[1..] == s;
      }
    }
  }

  /** A prefix in which no occurrence of `pat` starts is copied through
      unchanged, and the scan resumes where the prefix ends. */
  lemma {:induction false} ReplaceAllSkip(a: string, s: string, pat: string, rep: string)
    requires pat != ""
    requires forall i :: 0 <= i < |a| ==> !OccursAt(a + s, pat, i)
    ensures ReplaceAll(a + s, pat, rep) == a + ReplaceAll(s, pat, rep)
    decreases |a|
  {
    if a != [] {
      var t := a + s;
      if |t| >= |pat| {
        assert t[..|pat|] == t[0..0 + |pat|];
        assert t[1..] == a[1..] + s;
        forall i | 0 <= i < |a[1..]|
          ensures !OccursAt(a[1..] + s, pat, i)
        {
          assert !OccursAt(t, pat, i + 1);
          if 0 <= i <= |a[1..] + s| - |pat| {
            assert (a[1..] + s)[i..i + |pat|] == t[i + 1..i + 1 + |pat|];
          }
        }
        ReplaceAllSkip(a[1..], s, pat, rep);
        assert !OccursAt(t, pat, 0) && t[0] == a[0];
        assert ReplaceAll(t, pat, rep) == [a[0]] + ReplaceAll(a[1..] + s, pat, rep);
        assert [a[0]] + (a[1..] + ReplaceAll(s, pat, rep)) == a + ReplaceAll(s, pat, rep);
      } else {
        assert ReplaceAll(s, pat, rep) == s;
      }
    } else {
      assert a + s == s;
    }
  }

  /** Replacing a string by itself changes nothing. */
  lemma {:induction false} ReplaceAllIdentity(s: string, pat: string)
    requires pat != ""
    ensures ReplaceAll(s, pat, pat) == s
    decreases |s|
  {
    if |s| >= |pat| {
      if s[..|pat|] == pat {
        ReplaceAllIdentity(s[|pat|..], pat);
        assert s[..|pat|] + s[|pat|..] == s;
      } else {
        ReplaceAllIdentity(s[1..], pat);
        assert [s[0]] + s[1..] == s;
      }
    }
  }

  /** Python `s.replace(c, d)` for single characters. */
  function ReplaceChar(s: string, c: char, d: char): (r: string)
    ensures |r| == |s|
    ensures forall i :: 0 <= i < |s| ==> r[i] == if s[i] == c then d else s[i]
  {
    if s == [] then [] else [if s[0] == c then d else s[0]] + ReplaceChar(s[1..], c, d)
  }

  function AsciiLowerChar(c: char): char
  {
    if 'A' <= c <= 'Z' then (c as int + 32) as char else c
  }

  function AsciiUpperChar(c: char): char
  {
    if 'a' <= c <= 'z' then (c as int - 32) as char else c
  }

  /** Python `s.lower()` restricted to ASCII letters. */
  function Lower(s: string): (r: string)
    ensures |r| == |s|
    ensures forall i :: 0 <= i < |s| ==> r[i] == AsciiLowerChar(s[i])
  {
    if s == [] then [] else [AsciiLowerChar(s[0])] + Lower(s[1..])
  }

  /** Python `s.upper()` restricted to ASCII letters. */
  function Upper(s: string): (r: string)
    ensures |r| == |s|
    ensures forall i :: 0 <= i < |s| ==> r[i] == AsciiUpperChar(s[i])
  {
    if s == [] then [] else [AsciiUpperChar(s[0])] + Upper(s[1..])
  }

  /** Python `str(n)` for a natural number. */
  function DecimalString(n: nat): (s: string)
    ensures |s| >= 1
    ensures forall i :: 0 <= i < |s| ==> '0' <= s[i] <= '9'
    ensures n >= 10 ==> |s| >= 2
  {
    var digit := ('0' as int + n % 10) as char;
    if n < 10 then [digit] else DecimalString(n / 10) + [digit]
  }

  /** Different numbers have different decimal strings. */
  lemma {:induction false} DecimalStringInjective(a: nat, b: nat)
    requires DecimalString(a) == DecimalString(b)
    ensures a == b
  {
    var s := DecimalString(a);
    assert s[|s| - 1] == ('0' as int + a % 10) as char == ('0' as int + b % 10) as char;
    if a >= 10 && b >= 10 {
      assert DecimalString(a / 10) == s[..|s| - 1] == DecimalString(b / 10);
      DecimalStringInjective(a / 10, b / 10);
    }
  }
}
