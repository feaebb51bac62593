/**
 * String helpers shared by the model: Java's `String.compareTo` order (also Python's `<` on str),
 * the stable sort that `Collections.sort`, `List.sort` and Python's `sorted` perform, `Collections.min`,
 * decimal and hexadecimal rendering, Java's `Integer.parseInt` / `Long.parseLong`, and the
 * `replaceFirst("^.*marker", ...)` rewrite used on ZooKeeper node names.
 */
module Strings {
  import opened Wrappers

  // ---------------------------------------------------------------------------
  // Lexicographic order
  // ---------------------------------------------------------------------------

  /** `a.compareTo(b) <= 0`: the first differing character decides, otherwise the shorter string is smaller. */
  predicate LexLe(a: string, b: string)
    decreases |a|
  {
    |a| == 0 || (|b| > 0 && (a[0] < b[0] || (a[0] == b[0] && LexLe(a[1..], b[1..]))))
  }

  lemma {:induction false} LexLeRefl(a: string)
    ensures LexLe(a, a)
    decreases |a|
  {
    if |a| > 0 { LexLeRefl(a[1..]); }
  }

  lemma {:induction false} LexLeTotal(a: string, b: string)
    ensures LexLe(a, b) || LexLe(b, a)
    decreases |a|
  {
    if |a| > 0 && |b| > 0 && a[0] == b[0] { LexLeTotal(a[1..], b[1..]); }
  }

  lemma {:induction false} LexLeAntisym(a: string, b: string)
    requires LexLe(a, b) && LexLe(b, a)
    ensures a == b
    decreases |a|
  {
    if |a| > 0 {
      LexLeAntisym(a[1..], b[1..]);
      assert a == [a[0]] + a[1..] && b == [b[0]] + b[1..];
    }
  }

  lemma {:induction false} LexLeTrans(a: string, b: string, c: string)
    requires LexLe(a, b) && LexLe(b, c)
    ensures LexLe(a, c)
    decreases |a|
  {
    if |a| > 0 && a[0] == b[0] && b[0] == c[0] { LexLeTrans(a[1..], b[1..], c[1..]); }
  }

  // ---------------------------------------------------------------------------
  // Stable insertion sort on a string key
  // ---------------------------------------------------------------------------

  ghost predicate SortedBy<T>(s: seq<T>, key: T -> string)
  {
    forall i, j :: 0 <= i < j < |s| ==> LexLe(key(s[i]), key(s[j]))
  }

  /** Inserts `x` in front of the first element whose key is not smaller, so `x` precedes equal keys. */
  function InsertByKey<T>(x: T, s: seq<T>, key: T -> string): (r: seq<T>)
    ensures multiset(r) == multiset(s) + multiset{x} && |r| == |s| + 1
  {
    if s == [] || LexLe(key(x), key(s[0])) then [x] + s
    else
      assert s == [s[0]] + s[1..];
      [s[0]] + InsertByKey(x, s[1..], key)
  }

  lemma {:induction false} InsertByKeySorted<T>(x: T, s: seq<T>, key: T -> string)
    requires SortedBy(s, key)
    ensures SortedBy(InsertByKey(x, s, key), key)
    decreases |s|
  {
    var r := InsertByKey(x, s, key);
    if s == [] || LexLe(key(x), key(s[0])) {
      forall i, j | 0 <= i < j < |r| ensures LexLe(key(r[i]), key(r[j])) {
        if i == 0 && j > 1 { LexLeTrans(key(x), key(s[0]), key(s[j - 1])); }
      }
    } else {
      LexLeTotal(key(x), key(s[0]));
      var t := InsertByKey(x, s[1..], key);
      InsertByKeySorted(x, s[1..], key);
      forall k | 0 <= k < |t| ensures LexLe(key(s[0]), key(t[k])) {
        assert t[k] in multiset(t);
        if t[k] != x {
          assert t[k] in multiset(s[1..]);
          var m :| 0 <= m < |s[1..]| && s[1..][m] == t[k];
          assert s[m + 1] == t[k];
        }
      }
    }
  }

  /** The stable sort that Java's `List.sort` and Python's `sorted` perform, keyed by a string. */
  function SortByKey<T>(s: seq<T>, key: T -> string): (r: seq<T>)
    ensures multiset(r) == multiset(s) && |r| == |s|
    ensures SortedBy(r, key)
  {
    if s == [] then []
    else
      assert s == [s[0]] + s[1..];
      var rest := SortByKey(s[1..], key);
      InsertByKeySorted(s[0], rest, key);
      InsertByKey(s[0], rest, key)
  }

  /** Only the elements of `s` whose key is `k`, in their order in `s`. */
  function WithKey<T>(s: seq<T>, key: T -> string, k: string): (r: seq<T>)
  {
    if s == [] then [] else (if key(s[0]) == k then [s[0]] else []) + WithKey(s[1..], key, k)
  }

  lemma {:induction false} WithKeyInsert<T>(x: T, s: seq<T>, key: T -> string, k: string)
    ensures WithKey(InsertByKey(x, s, key), key, k) ==
            (if key(x) == k then [x] + WithKey(s, key, k) else WithKey(s, key, k))
    decreases |s|
  {
    if s == [] || LexLe(key(x), key(s[0])) {
      assert ([x] + s)[1..] == s;
    } else {
      WithKeyInsert(x, s[1..], key, k);
      assert ([s[0]] + InsertByKey(x, s[1..], key))[1..] == InsertByKey(x, s[1..], key);
      if key(x) == k {
        // s[0] has a key strictly below k, so it is not kept
        LexLeTotal(key(x), key(s[0]));
        if key(s[0]) == k { LexLeRefl(k); }
      }
    }
  }

  /** Stability: sorting keeps the relative order of the elements that share a key. */
  lemma {:induction false} SortByKeyStable<T>(s: seq<T>, key: T -> string, k: string)
    ensures WithKey(SortByKey(s, key), key, k) == WithKey(s, key, k)
    decreases |s|
  {
    if s != [] {
      SortByKeyStable(s[1..], key, k);
      WithKeyInsert(s[0], SortByKey(s[1..], key), key, k);
    }
  }

  function Identity(s: string): string { s }

  /** `Collections.sort` on a list of strings. */
  function SortStrings(s: seq<string>): (r: seq<string>)
    ensures multiset(r) == multiset(s) && |r| == |s|
    ensures forall i, j :: 0 <= i < j < |r| ==> LexLe(r[i], r[j])
  {
    var r := SortByKey(s, Identity);
    assert forall i, j :: 0 <= i < j < |r| ==> LexLe(Identity(r[i]), Identity(r[j]));
    r
  }

  /** Strings in ascending order. */
  predicate Ascending(s: seq<string>)
  {
    forall i, j :: 0 <= i < j < |s| ==> LexLe(s[i], s[j])
  }

  lemma AscendingHeadIsLeast(s: seq<string>, x: string)
    requires Ascending(s) && x in s
    ensures LexLe(s[0], x)
  {
    var k :| 0 <= k < |s| && s[k] == x;
    if k == 0 { LexLeRefl(x); }
  }

  /** Two ascending orderings of the same strings are the same sequence. */
  lemma {:induction false} AscendingUnique(a: seq<string>, b: seq<string>)
    requires multiset(a) == multiset(b)
    requires Ascending(a) && Ascending(b)
    ensures a == b
    decreases |a|
  {
    assert |a| == |multiset(a)| == |multiset(b)| == |b|;
    if |a| > 0 {
      assert a[0] in multiset(b) && b[0] in multiset(a);
      AscendingHeadIsLeast(b, a[0]);
      AscendingHeadIsLeast(a, b[0]);
      LexLeAntisym(a[0], b[0]);
      assert a == [a[0]] + a[1..] && b == [b[0]] + b[1..];
      assert multiset(a[1..]) == multiset(a) - multiset{a[0]};
      assert multiset(b[1..]) == multiset(b) - multiset{a[0]};
      AscendingUnique(a[1..], b[1..]);
    }
  }

  /** Sorting forgets the order of its argument. */
  lemma SortStringsIgnoresOrder(a: seq<string>, b: seq<string>)
    requires multiset(a) == multiset(b)
    ensures SortStrings(a) == SortStrings(b)
  {
    AscendingUnique(SortStrings(a), SortStrings(b));
  }

  /** `Collections.min` on a list of strings; it throws `NoSuchElementException` on an empty list. */
  function MinString(s: seq<string>): (m: string)
    requires |s| > 0
    ensures m in s && forall x :: x in s ==> LexLe(m, x)
  {
    if |s| == 1 then (LexLeRefl(s[0]); s[0])
    else
      var rest := MinString(s[1..]);
      LexLeTotal(s[0], rest);
      LexLeRefl(s[0]);
      assert forall x :: x in s[1..] ==> LexLe(rest, x);
      if LexLe(s[0], rest) then
        assert forall x :: x in s[1..] ==> LexLe(s[0], x) by {
          forall x | x in s[1..] ensures LexLe(s[0], x) { LexLeTrans(s[0], rest, x); }
        }
        s[0]
      else rest
  }

  // ---------------------------------------------------------------------------
  // Numbers as text
  // ---------------------------------------------------------------------------

  predicate IsDigit(c: char) { '0' <= c <= '9' }

  predicate AllDigits(s: string) { forall i :: 0 <= i < |s| ==> IsDigit(s[i]) }

  function DigitChar(d: nat): (c: char)
    requires d < 16
  {
    "0123456789abcdef"[d]
  }

  /** `n` written in `base` with lower-case digits and no leading zeros. */
  function NatToBase(n: nat, base: nat): (s: string)
    requires 2 <= base <= 16
    ensures |s| > 0
    decreases n
  {
    if n < base then [DigitChar(n)] else NatToBase(n / base, base) + [DigitChar(n % base)]
  }

  /** `Integer.toString` / `Long.toString` / Kotlin `toString` on a whole number. */
  function IntToDecimal(i: int): string
  {
    if i < 0 then "-" + NatToBase(-i, 10) else NatToBase(i, 10)
  }

  /** `String.format("%x", b)` on a `BigInteger`: lower-case hexadecimal with a leading `-` when negative. */
  function IntToHex(i: int): string
  {
    if i < 0 then "-" + NatToBase(-i, 16) else NatToBase(i, 16)
  }

  /** The value of a string of decimal digits. */
  function DigitsValue(s: string): nat
    requires AllDigits(s)
  {
    if s == [] then 0 else DigitsValue(s[..|s| - 1]) * 10 + (s[|s| - 1] as int - '0' as int)
  }

  lemma {:induction false} DecimalDigits(n: nat)
    ensures AllDigits(NatToBase(n, 10)) && DigitsValue(NatToBase(n, 10)) == n
    decreases n
  {
    var s := NatToBase(n, 10);
    if n >= 10 {
      DecimalDigits(n / 10);
      assert s[..|s| - 1] == NatToBase(n / 10, 10);
    }
  }

  /** Decimal rendering is injective: distinct numbers get distinct names. */
  lemma DecimalInjective(a: nat, b: nat)
    requires NatToBase(a, 10) == NatToBase(b, 10)
    ensures a == b
  {
    DecimalDigits(a);
    DecimalDigits(b);
  }

  /**
   * Java's `Integer.parseInt(s)` (for `lo, hi` the int range) or `Long.parseLong(s)` (the long range):
   * an optional `+` or `-`, then at least one digit, and a value within range; `None` is
   * `NumberFormatException`.
   */
  function ParseJavaInteger(s: string, lo: int, hi: int): (r: Option<int>)
    ensures r.Some? ==> lo <= r.value <= hi
  {
    if |s| == 0 then None
    else
      var signed := s[0] == '-' || s[0] == '+';
      var digits := if signed then s[1..] else s;
      if |digits| == 0 || !AllDigits(digits) then None
      else
        var n: int := DigitsValue(digits);
        var v := if s[0] == '-' then -n else n;
        if lo <= v <= hi then Some(v) else None
  }

  const INT_MIN: int := -0x8000_0000
  const INT_MAX: int := 0x7fff_ffff
  const LONG_MIN: int := -0x8000_0000_0000_0000
  const LONG_MAX: int := 0x7fff_ffff_ffff_ffff

  /** `Integer.parseInt`. */
  function ParseInt(s: string): Option<int> { ParseJavaInteger(s, INT_MIN, INT_MAX) }

  /** `Long.parseLong`. */
  function ParseLong(s: string): Option<int> { ParseJavaInteger(s, LONG_MIN, LONG_MAX) }

  /** A run of digits parses to its value whenever that value is in range. */
  lemma ParseDigits(d: string, lo: int, hi: int)
    requires |d| > 0 && AllDigits(d) && lo <= DigitsValue(d) <= hi
    ensures ParseJavaInteger(d, lo, hi) == Some(DigitsValue(d))
  {
    assert !(d[0] == '-' || d[0] == '+') by { assert IsDigit(d[0]); }
  }

  /** Parsing undoes `toString` for every value in range. */
  lemma {:induction false} ParseJavaIntegerRoundTrip(i: int, lo: int, hi: int)
    requires lo <= i <= hi
    ensures ParseJavaInteger(IntToDecimal(i), lo, hi) == Some(i)
  {
    DecimalDigits(if i < 0 then -i else i);
    var d := NatToBase(if i < 0 then -i else i, 10);
    assert IsDigit(d[0]);
    if i < 0 {
      assert ("-" + d)[1..] == d;
    }
  }

  // ---------------------------------------------------------------------------
  // replaceFirst("^.*marker", replacement)
  // ---------------------------------------------------------------------------

  /** The characters that `.` does not match in a Java regular expression. */
  predicate IsLineTerminator(c: char)
  {
    c == '\n' || c == '\r' || c == '\U{0085}' || c == '\U{2028}' || c == '\U{2029}'
  }

  predicate NoLineTerminator(s: string) { forall i :: 0 <= i < |s| ==> !IsLineTerminator(s[i]) }

  /** Index of the first line terminator, or `|s|`. */
  function FirstLineEnd(s: string): (n: nat)
    ensures n <= |s| && NoLineTerminator(s[..n]) && (n < |s| ==> IsLineTerminator(s[n]))
  {
    if s == [] then 0
    else if IsLineTerminator(s[0]) then 0
    else
      var n := FirstLineEnd(s[1..]);
      assert s[..n + 1] == [s[0]] + s[1..][..n];
      n + 1
  }

  predicate EndsAt(s: string, m: string, e: nat)
  {
    |m| <= e <= |s| && s[e - |m|..e] == m
  }

  /** The largest `e' <= e` at which an occurrence of `m` ends in `s`. */
  function LastEndAtOrBefore(s: string, m: string, e: nat): (r: Option<nat>)
    requires e <= |s|
    ensures r.Some? ==> r.value <= e && EndsAt(s, m, r.value)
    ensures forall e' :: (if r.Some? then r.value else 0) < e' <= e ==> !EndsAt(s, m, e')
    decreases e
  {
    if e < |m| then None
    else if s[e - |m|..e] == m then Some(e)
    else LastEndAtOrBefore(s, m, e - 1)
  }

  /**
   * `s.replaceFirst("^.*" + m, repl)` for a marker `m` with no regular-expression metacharacters and no
   * line terminator: the greedy `.*` stops at the first line terminator, so the match is the prefix of the
   * first line up to the end of the last occurrence of `m` in it; without one the string is unchanged.
   */
  function ReplaceThroughLast(s: string, m: string, repl: string): string
  {
    var line := s[..FirstLineEnd(s)];
    match LastEndAtOrBefore(line, m, |line|)
    case None => s
    case Some(e) => repl + s[e..]
  }

  /** The rewrite applied to `prefix + m + digits` keeps only the digits, when the prefix is one line. */
  lemma {:induction false} ReplaceThroughLastDigits(prefix: string, m: string, digits: string, repl: string)
    requires NoLineTerminator(prefix) && NoLineTerminator(m) && AllDigits(digits)
    requires |m| > 0 && !IsDigit(m[|m| - 1])
    ensures ReplaceThroughLast(prefix + m + digits, m, repl) == repl + digits
  {
    var s := prefix + m + digits;
    var target := |prefix| + |m|;
    assert NoLineTerminator(s) by {
      forall i | 0 <= i < |s| ensures !IsLineTerminator(s[i]) {
        if i < |prefix| { assert s[i] == prefix[i]; }
        else if i < target { assert s[i] == m[i - |prefix|]; }
        else { assert s[i] == digits[i - target]; assert IsDigit(s[i]); }
      }
    }
    var n := FirstLineEnd(s);
    assert n == |s|;
    assert s[..n] == s;
    assert EndsAt(s, m, target) by { assert s[target - |m|..target] == m; }
    forall e | target < e <= |s| ensures !EndsAt(s, m, e) {
      assert s[e - 1] == digits[e - 1 - target];
      assert IsDigit(s[e - 1]);
      assert |m| <= e ==> s[e - |m|..e][|m| - 1] == s[e - 1];
    }
    var r := LastEndAtOrBefore(s, m, |s|);
    assert r == Some(target);
    assert s[target..] == digits;
  }
}
