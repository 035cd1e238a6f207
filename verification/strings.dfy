/**
 * The string primitives the portfolio code relies on: `startsWith`,
 * `includes`, `toLowerCase`, `replace` with a string pattern (first
 * occurrence only), `split`, `substring`, `parseInt` and number-to-text
 * conversion.  Strings are sequences of characters; case mapping covers
 * the ASCII letters only.
 */
module Strings {
  import opened Wrappers

  predicate StartsWith(s: string, prefix: string) {
    |prefix| <= |s| && s[..|prefix|] == prefix
  }

  /** Position of the first occurrence of `sub` in `s`, as `indexOf` finds it. */
  function FirstIndex(s: string, sub: string): (r: Option<nat>)
    ensures r.Some? ==> r.value + |sub| <= |s| && s[r.value..r.value + |sub|] == sub
    ensures r.Some? ==> forall j :: 0 <= j < r.value ==> !StartsWith(s[j..], sub)
    ensures r.None? ==> forall j :: 0 <= j <= |s| ==> !StartsWith(s[j..], sub)
    decreases |s|
  {
    if StartsWith(s, sub) then Some(0)
    else if |s| == 0 then None
    else
      TailSuffixes(s);
      match FirstIndex(s[1..], sub)
      case None => None
      case Some(i) =>
        TailSlice(s, i, |sub|);
        Some(i + 1)
  }

  /** The suffixes of `s` past its first character are the suffixes of `s[1..]`. */
  lemma TailSuffixes(s: string)
    requires |s| > 0
    ensures forall j :: 1 <= j <= |s| ==> s[j..] == s[1..][j - 1..]
  {
  }

  lemma TailSlice(s: string, i: nat, n: nat)
    requires |s| > 0 && i + n <= |s| - 1
    ensures s[1..][i..i + n] == s[i + 1..i + 1 + n]
  {
  }

  /** `s.includes(sub)`. */
  predicate Contains(s: string, sub: string) {
    FirstIndex(s, sub).Some?
  }

  lemma ContainsAt(s: string, sub: string, i: nat)
    requires i + |sub| <= |s| && s[i..i + |sub|] == sub
    ensures Contains(s, sub)
  {
    assert s[i..][..|sub|] == sub;
    assert StartsWith(s[i..], sub);
  }

  lemma ContainsWitness(s: string, sub: string) returns (i: nat)
    requires Contains(s, sub)
    ensures i + |sub| <= |s| && s[i..i + |sub|] == sub
  {
    i := FirstIndex(s, sub).value;
  }

  function LowerChar(c: char): char {
    if 'A' <= c <= 'Z' then (c as int - 'A' as int + 'a' as int) as char else c
  }

  /** `toLowerCase()`, restricted to ASCII letters. */
  function ToLower(s: string): string {
    seq(|s|, i requires 0 <= i < |s| => LowerChar(s[i]))
  }

  /** `s.replace(pattern, replacement)` with a string pattern: only the first occurrence. */
  function ReplaceFirst(s: string, pattern: string, replacement: string): string {
    match FirstIndex(s, pattern)
    case None => s
    case Some(i) => s[..i] + replacement + s[i + |pattern|..]
  }

  lemma {:induction false} ReplaceFirstAbsent(s: string, pattern: string, replacement: string)
    requires !Contains(s, pattern)
    ensures ReplaceFirst(s, pattern, replacement) == s
  {
  }

  /** Replacing a prefix removes exactly that prefix. */
  lemma ReplaceFirstAtStart(s: string, pattern: string)
    requires StartsWith(s, pattern)
    ensures ReplaceFirst(s, pattern, "") == s[|pattern|..]
  {
    assert s[0..] == s;
  }

  /** `s.substring(0, n)` for a non-negative `n`. */
  function Take(s: string, n: nat): (r: string)
    ensures |r| <= n && |r| <= |s| && r == s[..|r|]
    ensures |s| <= n ==> r == s
  {
    if n <= |s| then s[..n] else s
  }

  /** `s.split(sep)` with a one-character separator. */
  function Split(s: string, sep: char): (parts: seq<string>)
    ensures |parts| >= 1
    decreases |s|
  {
    if |s| == 0 then [""]
    else
      var rest := Split(s[1..], sep);
      if s[0] == sep then [""] + rest else [[s[0]] + rest[0]] + rest[1..]
  }

  /** `parts.join(sep)`. */
  function Join(parts: seq<string>, sep: char): string
    decreases |parts|
  {
    if |parts| == 0 then ""
    else if |parts| == 1 then parts[0]
    else parts[0] + [sep] + Join(parts[1..], sep)
  }

  /** Splitting and joining on the same separator gives the string back. */
  lemma {:induction false} SplitJoin(s: string, sep: char)
    ensures Join(Split(s, sep), sep) == s
    decreases |s|
  {
    if |s| > 0 {
      var rest := Split(s[1..], sep);
      SplitJoin(s[1..], sep);
      if s[0] == sep {
        assert Split(s, sep) == [""] + rest;
        assert ([""] + rest)[1..] == rest;
      } else {
        var parts := [[s[0]] + rest[0]] + rest[1..];
        assert Split(s, sep) == parts;
        if |rest| == 1 {
          assert Join(rest, sep) == rest[0];
        } else {
          assert parts[1..] == rest[1..];
          assert Join(rest, sep) == rest[0] + [sep] + Join(rest[1..], sep);
        }
      }
    }
  }

  /** No piece produced by `split` contains the separator. */
  lemma {:induction false} SplitPiecesFree(s: string, sep: char)
    ensures forall p, c :: p in Split(s, sep) && c in p ==> c != sep
    decreases |s|
  {
    if |s| > 0 {
      SplitPiecesFree(s[1..], sep);
    }
  }

  /** A string without the separator splits into itself alone. */
  lemma {:induction false} SplitNoSeparator(s: string, sep: char)
    requires forall i :: 0 <= i < |s| ==> s[i] != sep
    ensures Split(s, sep) == [s]
    decreases |s|
  {
    if |s| > 0 {
      SplitNoSeparator(s[1..], sep);
      assert [s[0]] + s[1..] == s;
    }
  }

  /** `split` one character at a time. */
  lemma SplitCons(c: char, t: string, sep: char)
    ensures Split([c] + t, sep) ==
      if c == sep then [""] + Split(t, sep) else [[c] + Split(t, sep)[0]] + Split(t, sep)[1..]
  {
    assert ([c] + t)[0] == c && ([c] + t)[1..] == t;
  }

  lemma MergeHead(c: char, left: seq<string>, right: seq<string>)
    requires |left| >= 1
    ensures [[c] + (left + right)[0]] + (left + right)[1..] == [[c] + left[0]] + left[1..] + right
  {
    assert (left + right)[0] == left[0];
    assert (left + right)[1..] == left[1..] + right;
  }

  /** Splitting around one separator splits each side on its own. */
  lemma {:induction false} SplitConcat(a: string, b: string, sep: char)
    ensures Split(a + [sep] + b, sep) == Split(a, sep) + Split(b, sep)
    decreases |a|
  {
    if |a| == 0 {
      assert a + [sep] + b == [sep] + b;
      SplitCons(sep, b, sep);
    } else {
      var t := a[1..] + [sep] + b;
      assert a + [sep] + b == [a[0]] + t;
      assert a == [a[0]] + a[1..];
      SplitCons(a[0], t, sep);
      SplitCons(a[0], a[1..], sep);
      SplitConcat(a[1..], b, sep);
      if a[0] != sep {
        MergeHead(a[0], Split(a[1..], sep), Split(b, sep));
      }
    }
  }

  function Last(parts: seq<string>): string
    requires |parts| > 0
  {
    parts[|parts| - 1]
  }

  /** How the last piece and the number of pieces change when one character is put in front. */
  lemma SplitLastStep(s: string, sep: char)
    requires |s| > 0
    ensures var rest := Split(s[1..], sep);
      var parts := Split(s, sep);
      (s[0] == sep ==> |parts| == |rest| + 1 && Last(parts) == Last(rest)) &&
      (s[0] != sep && |rest| > 1 ==> |parts| == |rest| && Last(parts) == Last(rest)) &&
      (s[0] != sep && |rest| == 1 ==> |parts| == 1 && Last(parts) == [s[0]] + Last(rest))
  {
    var rest := Split(s[1..], sep);
    var parts := Split(s, sep);
    if s[0] == sep {
      assert parts == [""] + rest;
    } else {
      assert parts == [[s[0]] + rest[0]] + rest[1..];
    }
  }

  /** The last piece of a split is a suffix of the string, all of it exactly when nothing was split. */
  lemma {:induction false} SplitLastSuffix(s: string, sep: char)
    ensures |Last(Split(s, sep))| <= |s|
    ensures Last(Split(s, sep)) == s[|s| - |Last(Split(s, sep))|..]
    ensures |Split(s, sep)| == 1 <==> Last(Split(s, sep)) == s
    decreases |s|
  {
    if |s| > 0 {
      SplitLastSuffix(s[1..], sep);
      SplitLastStep(s, sep);
      var rest := Split(s[1..], sep);
      var u := Last(rest);
      assert s[1..][|s| - 1 - |u|..] == s[|s| - |u|..];
      if s[0] != sep && |rest| == 1 {
        assert [s[0]] + s[1..] == s;
      } else if s[0] != sep {
        assert u != s[1..];
        assert |u| < |s| - 1;
      }
    }
  }

  /** When something was split off, the last piece follows a separator. */
  lemma {:induction false} SplitLastAfterSeparator(s: string, sep: char)
    ensures |Last(Split(s, sep))| < |s| ==> s[|s| - |Last(Split(s, sep))| - 1] == sep
    decreases |s|
  {
    if |s| > 0 {
      var rest := Split(s[1..], sep);
      var u := Last(rest);
      var t := Last(Split(s, sep));
      SplitLastSuffix(s[1..], sep);
      SplitLastAfterSeparator(s[1..], sep);
      SplitLastStep(s, sep);
      if s[0] != sep && |rest| == 1 {
        assert u == s[1..];
        assert |t| == |s|;
      } else {
        assert t == u;
        if s[0] != sep {
          assert u != s[1..];
          assert |u| < |s| - 1;
        }
        if |u| < |s| - 1 {
          assert s[1..][|s| - 1 - |u| - 1] == s[|s| - |u| - 1];
        }
      }
    }
  }

  /**
   * `s.split(sep).pop()`: the text after the last separator, or all of `s`
   * when it has none.
   */
  lemma SplitLast(s: string, sep: char)
    ensures var t := Last(Split(s, sep));
      |t| <= |s| && t == s[|s| - |t|..] &&
      (forall i :: 0 <= i < |t| ==> t[i] != sep) &&
      (|t| < |s| ==> s[|s| - |t| - 1] == sep)
  {
    SplitLastSuffix(s, sep);
    SplitLastAfterSeparator(s, sep);
    SplitPiecesFree(s, sep);
    var parts := Split(s, sep);
    var t := Last(parts);
    assert t in parts;
    forall i | 0 <= i < |t| ensures t[i] != sep {
      assert t[i] in t;
    }
  }

  /** `parts[i]` inside a template literal: a missing element prints as "undefined". */
  function ElementOrUndefined(parts: seq<string>, i: nat): string {
    if i < |parts| then parts[i] else "undefined"
  }

  predicate IsDigit(c: char) { '0' <= c <= '9' }

  function DigitValue(c: char): nat requires IsDigit(c) { c as int - '0' as int }

  function DigitChar(d: nat): (c: char)
    requires d < 10
    ensures IsDigit(c) && DigitValue(c) == d
  {
    ('0' as int + d) as char
  }

  /** Decimal text of a non-negative integer, as `${n}` prints it. */
  function NatToString(n: nat): (s: string)
    ensures |s| >= 1 && forall c :: c in s ==> IsDigit(c)
    decreases n
  {
    if n < 10 then [DigitChar(n)] else NatToString(n / 10) + [DigitChar(n % 10)]
  }

  /** `${n}` for an integer. */
  function IntToString(n: int): string {
    if n >= 0 then NatToString(n) else "-" + NatToString(-n)
  }

  function DigitsValue(ds: string): nat
    requires forall c :: c in ds ==> IsDigit(c)
    decreases |ds|
  {
    if |ds| == 0 then 0 else DigitsValue(ds[..|ds| - 1]) * 10 + DigitValue(ds[|ds| - 1])
  }

  /** Length of the longest prefix of `s` made of decimal digits. */
  function DigitRun(s: string): (n: nat)
    ensures n <= |s| && forall c :: c in s[..n] ==> IsDigit(c)
    ensures n < |s| ==> !IsDigit(s[n])
    decreases |s|
  {
    if |s| == 0 || !IsDigit(s[0]) then 0
    else
      var n := 1 + DigitRun(s[1..]);
      assert s[..n] == [s[0]] + s[1..][..n - 1];
      n
  }

  predicate IsSpace(c: char) { c == ' ' || c == '\t' || c == '\n' || c == '\r' }

  function TrimStart(s: string): string
    decreases |s|
  {
    if |s| > 0 && IsSpace(s[0]) then TrimStart(s[1..]) else s
  }

  /**
   * `parseInt(s)` with no radix: leading white space is skipped, an optional
   * sign is read, then the longest run of decimal digits; no digit at all
   * gives NaN, here `None`.
   */
  function ParseInt(s: string): Option<int> {
    var t := TrimStart(s);
    var negative := |t| > 0 && t[0] == '-';
    var body := if |t| > 0 && (t[0] == '-' || t[0] == '+') then t[1..] else t;
    var n := DigitRun(body);
    var magnitude: int := if n == 0 then 0 else DigitsValue(body[..n]);
    if n == 0 then None
    else if negative then Some(-magnitude)
    else Some(magnitude)
  }

  lemma {:induction false} DigitsOfNat(n: nat)
    ensures DigitsValue(NatToString(n)) == n
    decreases n
  {
    if n >= 10 {
      var s := NatToString(n);
      DigitsOfNat(n / 10);
      assert s[..|s| - 1] == NatToString(n / 10);
    }
  }

  lemma {:induction false} DigitRunAll(s: string)
    requires forall c :: c in s ==> IsDigit(c)
    ensures DigitRun(s) == |s|
    decreases |s|
  {
    if |s| > 0 {
      DigitRunAll(s[1..]);
    }
  }

  /** The id a client writes into a URL is the id `parseInt` reads back. */
  lemma ParseIntOfNat(n: nat)
    ensures ParseInt(NatToString(n)) == Some(n)
  {
    var s := NatToString(n);
    assert s[0] in s;
    assert TrimStart(s) == s;
    DigitRunAll(s);
    assert s[..|s|] == s;
    DigitsOfNat(n);
  }
}
