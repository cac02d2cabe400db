/**
 * String and option helpers shared by the downloader model: the parts of
 * Python's `str` API that the download engine relies on (`strip`,
 * `replace`, `startswith`/`endswith`, `lower`/`upper`, `"/".join`, `str(int)`).
 */
module Util {

  datatype Option<+T> = None | Some(value: T) {
    /** The value, or `default` when absent: Python's `d.get(key, default)`. */
    function GetOr(default: T): T
    {
      match this
      case Some(v) => v
      case None => default
    }
  }

  /** Python's `str.isspace` for one character: the characters `str.strip()` removes. */
  predicate IsSpace(c: char)
  {
    || c == ' '
    || ('\t' <= c <= '\r')
    || ('\U{1C}' <= c <= '\U{1F}')
    || c == '\U{85}'
    || c == '\U{A0}'
    || c == '\U{1680}'
    || ('\U{2000}' <= c <= '\U{200A}')
    || c == '\U{2028}'
    || c == '\U{2029}'
    || c == '\U{202F}'
    || c == '\U{205F}'
    || c == '\U{3000}'
  }

  /** Where `s.lstrip()` starts: the length of the leading whitespace run. */
  function StripStart(s: string): (k: nat)
    ensures k <= |s|
    ensures forall i :: 0 <= i < k ==> IsSpace(s[i])
    ensures k == |s| || !IsSpace(s[k])
  {
    if s == [] || !IsSpace(s[0]) then 0 else 1 + StripStart(s[1..])
  }

  /** Where `s.rstrip()` ends: the length of `s` without its trailing whitespace run. */
  function StripEnd(s: string): (k: nat)
    ensures k <= |s|
    ensures forall i :: k <= i < |s| ==> IsSpace(s[i])
    ensures k == 0 || !IsSpace(s[k - 1])
  {
    if s == [] || !IsSpace(s[|s| - 1]) then |s| else StripEnd(s[..|s| - 1])
  }

  /**
   * `s.strip()`: the slice of `s` between its leading and its trailing
   * whitespace runs, so it neither starts nor ends with whitespace.
   */
  function Strip(s: string): (r: string)
    ensures r == [] || (!IsSpace(r[0]) && !IsSpace(r[|r| - 1]))
    ensures exists i, j :: 0 <= i <= j <= |s| && r == s[i..j]
                           && (forall k :: 0 <= k < i ==> IsSpace(s[k]))
                           && (forall k :: j <= k < |s| ==> IsSpace(s[k]))
  {
    var i := StripStart(s);
    var m := StripEnd(s[i..]);
    SpacesAfter(s, i, m);
    s[i..i + m]
  }

  /** Trailing whitespace of a suffix `s[i..]` is trailing whitespace of `s`. */
  lemma SpacesAfter(s: string, i: nat, m: nat)
    requires i <= |s| && m <= |s| - i
    requires forall k :: m <= k < |s| - i ==> IsSpace(s[i..][k])
    ensures forall k :: i + m <= k < |s| ==> IsSpace(s[k])
    ensures 0 < m ==> s[i + m - 1] == s[i..][m - 1]
  {
    forall k | i + m <= k < |s| ensures IsSpace(s[k]) {
      assert s[k] == s[i..][k - i];
    }
  }

  /** Stripping keeps only characters of the original string. */
  lemma StripKeeps(s: string)
    ensures forall ch :: ch in Strip(s) ==> ch in s
  {
    var i := StripStart(s);
    var j := i + StripEnd(s[i..]);
    var r := s[i..j];
    assert Strip(s) == r;
    forall ch | ch in r ensures ch in s {
      var k :| 0 <= k < |r| && r[k] == ch;
      assert s[i + k] == ch;
    }
  }

  predicate StartsWith(s: string, prefix: string)
  {
    |prefix| <= |s| && s[..|prefix|] == prefix
  }

  predicate EndsWith(s: string, suffix: string)
  {
    |suffix| <= |s| && s[|s| - |suffix|..] == suffix
  }

  /**
   * Python's `s.replace(pat, repl)`: scans left to right and rewrites every
   * non-overlapping occurrence of the non-empty pattern `pat`.
   */
  function Replace(s: string, pat: string, repl: string): string
    requires pat != []
    decreases |s|
  {
    if StartsWith(s, pat) then repl + Replace(s[|pat|..], pat, repl)
    else if s == [] then []
    else [s[0]] + Replace(s[1..], pat, repl)
  }

  /** Every character `Replace` produces comes from the input or from the replacement. */
  lemma {:induction false} ReplaceChars(s: string, pat: string, repl: string, c: char)
    requires pat != []
    requires c in Replace(s, pat, repl)
    ensures c in s || c in repl
    decreases |s|
  {
    if StartsWith(s, pat) {
      if c !in repl {
        ReplaceChars(s[|pat|..], pat, repl, c);
      }
    } else if s != [] {
      if c != s[0] {
        ReplaceChars(s[1..], pat, repl, c);
      }
    }
  }

  /** Replacing a one-character pattern by text without that character removes it entirely. */
  lemma {:induction false} ReplaceRemovesChar(s: string, c: char, repl: string)
    requires c !in repl
    ensures c !in Replace(s, [c], repl)
    decreases |s|
  {
    if StartsWith(s, [c]) {
      ReplaceRemovesChar(s[1..], c, repl);
    } else if s != [] {
      assert s[0] != c;
      ReplaceRemovesChar(s[1..], c, repl);
    }
  }

  /** A pattern that does not occur leaves the string unchanged. */
  lemma {:induction false} ReplaceAbsentChar(s: string, c: char, repl: string)
    requires c !in s
    ensures Replace(s, [c], repl) == s
    decreases |s|
  {
    if s != [] {
      assert s[..1] == [s[0]];
      ReplaceAbsentChar(s[1..], c, repl);
      assert s == [s[0]] + s[1..];
    }
  }

  /**
   * Every occurrence of `c` written as `repl`, built from the end of the
   * string: an independent description of replacing a one-character pattern.
   */
  function ReplaceEach(s: string, c: char, repl: string): string
  {
    if s == [] then []
    else ReplaceEach(s[..|s| - 1], c, repl) + (if s[|s| - 1] == c then repl else [s[|s| - 1]])
  }

  /** Replacing a one-character pattern distributes over concatenation. */
  lemma {:induction false} ReplaceCharAppend(a: string, b: string, c: char, repl: string)
    ensures Replace(a + b, [c], repl) == Replace(a, [c], repl) + Replace(b, [c], repl)
    decreases |a|
  {
    if a == [] {
      assert a + b == b;
    } else {
      assert (a + b)[0] == a[0];
      assert (a + b)[1..] == a[1..] + b;
      assert StartsWith(a + b, [c]) <==> a[0] == c by {
        assert (a + b)[..1] == [a[0]];
      }
      assert StartsWith(a, [c]) <==> a[0] == c by {
        assert a[..1] == [a[0]];
      }
      ReplaceCharAppend(a[1..], b, c, repl);
    }
  }

  /** Python's left-to-right `replace` of one character is the character-wise rewrite. */
  lemma {:induction false} ReplaceCharIsEach(s: string, c: char, repl: string)
    ensures Replace(s, [c], repl) == ReplaceEach(s, c, repl)
    decreases |s|
  {
    if s != [] {
      var init, last := s[..|s| - 1], s[|s| - 1];
      assert s == init + [last];
      ReplaceCharAppend(init, [last], c, repl);
      ReplaceCharIsEach(init, c, repl);
      assert [last][..1] == [last];
      assert [last][1..] == [];
    }
  }

  /** Python's `sep.join(parts)`. */
  function Join(parts: seq<string>, sep: string): string
  {
    if parts == [] then []
    else if |parts| == 1 then parts[0]
    else parts[0] + sep + Join(parts[1..], sep)
  }

  function LowerChar(c: char): (r: char)
  {
    if 'A' <= c <= 'Z' then (c as int - 'A' as int + 'a' as int) as char else c
  }

  function UpperChar(c: char): (r: char)
  {
    if 'a' <= c <= 'z' then (c as int - 'a' as int + 'A' as int) as char else c
  }

  /** `s.lower()` restricted to ASCII letters. */
  function Lower(s: string): (r: string)
    ensures |r| == |s|
    ensures forall i :: 0 <= i < |s| ==> r[i] == LowerChar(s[i])
  {
    seq(|s|, i requires 0 <= i < |s| => LowerChar(s[i]))
  }

  /** `s.upper()` restricted to ASCII letters. */
  function Upper(s: string): (r: string)
    ensures |r| == |s|
    ensures forall i :: 0 <= i < |s| ==> r[i] == UpperChar(s[i])
  {
    seq(|s|, i requires 0 <= i < |s| => UpperChar(s[i]))
  }

  predicate IsDigit(c: char)
  {
    '0' <= c <= '9'
  }

  function DigitChar(d: nat): (c: char)
    requires d < 10
    ensures IsDigit(c)
  {
    ('0' as int + d) as char
  }

  function DigitValue(c: char): nat
    requires IsDigit(c)
  {
    c as int - '0' as int
  }

  /** `str(n)` for a natural number: its decimal digits, most significant first. */
  function NatToString(n: nat): (r: string)
    ensures r != []
    ensures forall i :: 0 <= i < |r| ==> IsDigit(r[i])
  {
    if n < 10 then [DigitChar(n)] else NatToString(n / 10) + [DigitChar(n % 10)]
  }

  /** Reads a string of decimal digits back as a number. */
  function ParseNat(s: string): nat
    requires forall i :: 0 <= i < |s| ==> IsDigit(s[i])
  {
    if s == [] then 0 else 10 * ParseNat(s[..|s| - 1]) + DigitValue(s[|s| - 1])
  }

  /** `str(n)` is read back as `n`: the decimal rendering loses nothing. */
  lemma {:induction false} NatToStringRoundTrip(n: nat)
    ensures ParseNat(NatToString(n)) == n
  {
    if n >= 10 {
      var s := NatToString(n);
      assert s[..|s| - 1] == NatToString(n / 10);
      NatToStringRoundTrip(n / 10);
    }
  }

  /** `str(i)` for any Python integer. */
  function IntToString(i: int): (r: string)
    ensures r != []
    ensures i >= 0 ==> r == NatToString(i)
    ensures i < 0 ==> r == "-" + NatToString(-i)
  {
    if i >= 0 then NatToString(i) else "-" + NatToString(-i)
  }
}
