/**
 * String helpers standing in for the parts of Go's `strings`, `strconv` and
 * `path/filepath` packages (and Python's `str`) that the modelled code relies on.
 * Strings are sequences of characters; case mapping and white space are the
 * ASCII ones.
 */
module Strs {
  import opened Wrappers

  /** White space as Go's `unicode.IsSpace` sees it in the Latin-1 range. */
  predicate IsSpace(c: char)
  {
    c == ' ' || c == '\t' || c == '\n' || c == '\r' || c == '\U{000B}' || c == '\U{000C}'
    || c == '\U{0085}' || c == '\U{00A0}'
  }

  /** The number of white-space characters `s` starts with. */
  function LeadingSpaces(s: string): (n: nat)
    ensures n <= |s|
  {
    if s != [] && IsSpace(s[0]) then 1 + LeadingSpaces(s[1..]) else 0
  }

  /** The leading run is all white space, and what follows it is not. */
  lemma {:induction false} LeadingSpacesMeaning(s: string)
    ensures var n := LeadingSpaces(s);
      && (n < |s| ==> !IsSpace(s[n]))
      && (forall i :: 0 <= i < n ==> IsSpace(s[i]))
  {
    if s != [] && IsSpace(s[0]) {
      LeadingSpacesMeaning(s[1..]);
      assert forall i :: 1 <= i < |s| ==> s[i] == s[1..][i - 1];
    }
  }

  /** The number of white-space characters `s` ends with. */
  function TrailingSpaces(s: string): (n: nat)
    ensures n <= |s|
  {
    if s != [] && IsSpace(s[|s| - 1]) then 1 + TrailingSpaces(s[..|s| - 1]) else 0
  }

  /** The trailing run is all white space, and what precedes it is not. */
  lemma {:induction false} TrailingSpacesMeaning(s: string)
    ensures var n := TrailingSpaces(s);
      && (n < |s| ==> !IsSpace(s[|s| - 1 - n]))
      && (forall i :: |s| - n <= i < |s| ==> IsSpace(s[i]))
  {
    if s != [] && IsSpace(s[|s| - 1]) {
      TrailingSpacesMeaning(s[..|s| - 1]);
    }
  }

  /** `strings.TrimLeft(s, space)`: drop leading white space. */
  function TrimLeft(s: string): string
  {
    s[LeadingSpaces(s)..]
  }

  /** Drop trailing white space. */
  function TrimRight(s: string): string
  {
    s[..|s| - TrailingSpaces(s)]
  }

  /** `strings.TrimSpace` / Python's `str.strip()`. */
  function Trim(s: string): (r: string)
    ensures r == [] || (!IsSpace(r[0]) && !IsSpace(r[|r| - 1]))
    ensures |r| <= |s|
  {
    LeadingSpacesMeaning(s);
    TrailingSpacesMeaning(TrimLeft(s));
    TrimRight(TrimLeft(s))
  }

  /** A string with nothing but white space trims to the empty string. */
  predicate IsBlank(s: string)
  {
    Trim(s) == []
  }

  lemma TrimIdempotent(s: string)
    ensures Trim(Trim(s)) == Trim(s)
  {
    TrimOfTrimmed(Trim(s));
  }

  /** The string `s` has no white space at either end. */
  lemma TrimOfTrimmed(s: string)
    requires s == [] || (!IsSpace(s[0]) && !IsSpace(s[|s| - 1]))
    ensures Trim(s) == s
  {
  }

  function LowerChar(c: char): char
  {
    if 'A' <= c <= 'Z' then (c as int + 32) as char else c
  }

  function UpperChar(c: char): char
  {
    if 'a' <= c <= 'z' then (c as int - 32) as char else c
  }

  /** `strings.ToLower` on ASCII letters. */
  function Lower(s: string): (r: string)
    ensures |r| == |s|
  {
    if s == [] then [] else [LowerChar(s[0])] + Lower(s[1..])
  }

  /** Each character of `Lower(s)` is the lower-case form of the one in `s`. */
  lemma {:induction false} LowerAt(s: string)
    ensures forall i :: 0 <= i < |s| ==> Lower(s)[i] == LowerChar(s[i])
  {
    if s != [] {
      LowerAt(s[1..]);
      assert forall i :: 1 <= i < |s| ==> Lower(s)[i] == Lower(s[1..])[i - 1];
    }
  }

  /** `strings.ToUpper` on ASCII letters. */
  function Upper(s: string): (r: string)
    ensures |r| == |s|
    ensures forall i :: 0 <= i < |s| ==> r[i] == UpperChar(s[i])
  {
    if s == [] then [] else [UpperChar(s[0])] + Upper(s[1..])
  }

  lemma LowerIdempotent(s: string)
    ensures Lower(Lower(s)) == Lower(s)
  {
  }

  lemma {:induction false} LowerConcat(a: string, b: string)
    ensures Lower(a + b) == Lower(a) + Lower(b)
  {
    if a == [] {
      assert a + b == b;
    } else {
      assert (a + b)[1..] == a[1..] + b;
      LowerConcat(a[1..], b);
    }
  }

  /** `strings.EqualFold`, restricted to ASCII case. */
  predicate EqualFold(a: string, b: string)
  {
    Lower(a) == Lower(b)
  }

  predicate HasPrefix(s: string, p: string)
  {
    p <= s
  }

  predicate HasSuffix(s: string, p: string)
  {
    |p| <= |s| && s[|s| - |p|..] == p
  }

  function TrimPrefix(s: string, p: string): (r: string)
    ensures HasPrefix(s, p) ==> s == p + r
    ensures !HasPrefix(s, p) ==> r == s
  {
    if HasPrefix(s, p) then s[|p|..] else s
  }

  function TrimSuffix(s: string, p: string): (r: string)
    ensures HasSuffix(s, p) ==> s == r + p
    ensures !HasSuffix(s, p) ==> r == s
  {
    if HasSuffix(s, p) then s[..|s| - |p|] else s
  }

  lemma SuffixOfConcat(a: string, p: string)
    ensures HasSuffix(a + p, p)
  {
    assert (a + p)[|a + p| - |p|..] == p;
  }

  /** `sub` occurs in `s` at position `k`. */
  predicate MatchAt(s: string, sub: string, k: int)
  {
    0 <= k && k + |sub| <= |s| && s[k..k + |sub|] == sub
  }

  /** `strings.Index`: the first position of `sub` in `s`, or -1. */
  function IndexOf(s: string, sub: string): (r: int)
    ensures r == -1 || MatchAt(s, sub, r)
    ensures forall k :: 0 <= k < (if r == -1 then |s| + 1 else r) ==> !MatchAt(s, sub, k)
  {
    if |s| < |sub| then -1
    else if s[..|sub|] == sub then 0
    else
      var t := IndexOf(s[1..], sub);
      assert forall k :: 1 <= k ==> (MatchAt(s, sub, k) <==> MatchAt(s[1..], sub, k - 1));
      if t < 0 then -1 else t + 1
  }

  /** `strings.Contains`. */
  predicate Contains(s: string, sub: string)
  {
    IndexOf(s, sub) >= 0
  }

  lemma ContainsAt(s: string, sub: string, k: int)
    requires MatchAt(s, sub, k)
    ensures Contains(s, sub)
  {
  }

  /** The first position of character `c` in `s`, or -1. */
  function IndexChar(s: string, c: char): (r: int)
    ensures -1 <= r < |s|
    ensures r >= 0 ==> s[r] == c
    ensures forall k :: 0 <= k < |s| && (k < r || r == -1) ==> s[k] != c
  {
    if s == [] then -1
    else if s[0] == c then 0
    else
      var t := IndexChar(s[1..], c);
      if t < 0 then -1 else t + 1
  }

  /** `strings.Split(s, string(sep))`: never empty; `Split("", sep) == [""]`. */
  function Split(s: string, sep: char): (r: seq<string>)
    ensures |r| >= 1
    ensures forall i, k :: 0 <= i < |r| && 0 <= k < |r[i]| ==> r[i][k] != sep
    decreases |s|
  {
    var i := IndexChar(s, sep);
    if i < 0 then [s] else [s[..i]] + Split(s[i + 1..], sep)
  }

  /** `strings.Join(parts, string(sep))`. */
  function Join(parts: seq<string>, sep: string): string
  {
    if parts == [] then []
    else if |parts| == 1 then parts[0]
    else parts[0] + sep + Join(parts[1..], sep)
  }

  /** The string holds no white space. */
  predicate NoSpace(s: string)
  {
    forall k :: 0 <= k < |s| ==> !IsSpace(s[k])
  }

  /** The number of non-space characters `s` starts with. */
  function WordLen(s: string): (n: nat)
    ensures n <= |s| && NoSpace(s[..n])
    ensures n < |s| ==> IsSpace(s[n])
  {
    if s == [] || IsSpace(s[0]) then 0
    else
      var n := WordLen(s[1..]);
      assert s[..1 + n] == [s[0]] + s[1..][..n];
      1 + n
  }

  /** `strings.Fields`: the maximal runs of non-space characters, in order. */
  function Fields(s: string): (r: seq<string>)
    ensures forall i :: 0 <= i < |r| ==> r[i] != [] && NoSpace(r[i])
    ensures r == [] <==> LeadingSpaces(s) == |s|
    decreases |s|
  {
    LeadingSpacesMeaning(s);
    var t := TrimLeft(s);
    if t == [] then []
    else
      var w := WordLen(t);
      [t[..w]] + Fields(t[w..])
  }

  /** Joining non-empty words with a separator that follows the first word
      and precedes the last keeps their first and last characters at the ends. */
  lemma {:induction false} JoinEnds(parts: seq<string>, sep: string)
    requires parts != [] && forall i :: 0 <= i < |parts| ==> parts[i] != []
    ensures Join(parts, sep) != []
    ensures Join(parts, sep)[0] == parts[0][0]
    ensures var j := Join(parts, sep); j[|j| - 1] == parts[|parts| - 1][|parts[|parts| - 1]| - 1]
  {
    if |parts| > 1 {
      JoinEnds(parts[1..], sep);
    }
  }

  predicate NoChar(s: string, c: char)
  {
    forall k :: 0 <= k < |s| ==> s[k] != c
  }

  /** Splitting a string that holds `c` nowhere gives back that one string. */
  lemma SplitNoSep(s: string, c: char)
    requires NoChar(s, c)
    ensures Split(s, c) == [s]
  {
  }

  /** Splitting `a + [c] + b` at `c`, where `a` holds no `c`, peels `a` off first. */
  lemma {:induction false} SplitCons(a: string, b: string, c: char)
    requires NoChar(a, c)
    ensures Split(a + [c] + b, c) == [a] + Split(b, c)
  {
    var s := a + [c] + b;
    assert s[..|a|] == a;
    assert s[|a| + 1..] == b;
    assert s[|a|] == c;
    assert forall k :: 0 <= k < |a| ==> s[k] == a[k];
    assert IndexChar(s, c) == |a|;
  }

  predicate IsDigit(c: char)
  {
    '0' <= c <= '9'
  }

  predicate AllDigits(s: string)
  {
    forall k :: 0 <= k < |s| ==> IsDigit(s[k])
  }

  function DigitValue(c: char): nat
    requires IsDigit(c)
  {
    c as int - '0' as int
  }

  function DigitChar(d: nat): (c: char)
    requires d < 10
    ensures IsDigit(c) && DigitValue(c) == d
  {
    ('0' as int + d) as char
  }

  /** The value of a string of decimal digits. */
  function DigitsValue(s: string): nat
    requires AllDigits(s)
  {
    if s == [] then 0 else DigitsValue(s[..|s| - 1]) * 10 + DigitValue(s[|s| - 1])
  }

  /** `strconv.FormatInt(n, 10)` for non-negative `n`. */
  function NatToString(n: nat): (r: string)
    ensures |r| >= 1 && AllDigits(r)
    ensures DigitsValue(r) == n
    ensures |r| > 1 ==> r[0] != '0'
  {
    if n < 10 then [DigitChar(n)]
    else
      var t := NatToString(n / 10);
      var r := t + [DigitChar(n % 10)];
      assert r[..|r| - 1] == t;
      r
  }

  /** `strconv.FormatInt(n, 10)`. */
  function IntToString(n: int): (r: string)
    ensures |r| >= 1
    ensures n >= 0 ==> r == NatToString(n)
    ensures n < 0 ==> r == "-" + NatToString(-n)
  {
    if n >= 0 then NatToString(n) else "-" + NatToString(-n)
  }

  const MinInt64: int := -0x8000_0000_0000_0000
  const MaxInt64: int := 0x7FFF_FFFF_FFFF_FFFF

  /** The values of Go's `int` on a 64-bit platform. */
  type Int64 = n: int | MinInt64 <= n <= MaxInt64

  /** An optional sign followed by at least one decimal digit. */
  predicate IsDecimal(s: string)
  {
    s != [] && (AllDigits(s) || ((s[0] == '-' || s[0] == '+') && |s| > 1 && AllDigits(s[1..])))
  }

  /** The number a decimal spells, of any size. */
  function DecimalValue(s: string): int
    requires IsDecimal(s)
  {
    if AllDigits(s) then DigitsValue(s)
    else
      var v: int := DigitsValue(s[1..]);
      if s[0] == '-' then -v else v
  }

  /** `strconv.Atoi` with a 64-bit `int`: a decimal whose value fits;
      both a syntax error and a value out of range give None. */
  function ParseInt(s: string): (r: Option<int>)
    ensures r.Some? <==> IsDecimal(s) && MinInt64 <= DecimalValue(s) <= MaxInt64
    ensures r.Some? ==> r.value == DecimalValue(s)
  {
    if IsDecimal(s) && MinInt64 <= DecimalValue(s) <= MaxInt64 then Some(DecimalValue(s)) else None
  }

  /** Formatting then parsing gives back every 64-bit number. */
  lemma ParseIntOfIntToString(n: Int64)
    ensures ParseInt(IntToString(n)) == Some(n)
  {
    if n < 0 {
      var d := NatToString(-(n as int));
      assert ("-" + d)[1..] == d;
      assert !AllDigits("-" + d) by { assert !IsDigit(("-" + d)[0]); }
    }
  }

  /** A decimal beyond the 64-bit range does not parse. */
  lemma ParseIntOutOfRange(n: int)
    requires n > MaxInt64
    ensures ParseInt(IntToString(n)) == None
  {
  }

  /** `filepath.Ext`: the suffix from the last '.' in the final path element, or "". */
  function Ext(p: string): (r: string)
    ensures r == [] || (r[0] == '.' && HasSuffix(p, r))
    ensures NoChar(r, '/')
    ensures forall k :: 1 <= k < |r| ==> r[k] != '.'
  {
    if p == [] || p[|p| - 1] == '/' then []
    else if p[|p| - 1] == '.' then "."
    else
      var t := Ext(p[..|p| - 1]);
      if t == [] then []
      else
        assert p[..|p| - 1][|p| - 1 - |t|..] == t;
        assert p[|p| - (|t| + 1)..] == t + [p[|p| - 1]];
        t + [p[|p| - 1]]
  }

  /** Removing the extension and putting it back gives the original name. */
  lemma ExtSplit(p: string)
    ensures TrimSuffix(p, Ext(p)) + Ext(p) == p
  {
  }

  /** `filepath.Base` for forward-slash paths. */
  function Base(p: string): (r: string)
  {
    if p == [] then "."
    else
      var q := TrimTrailingSlashes(p);
      if q == [] then "/"
      else
        var i := LastIndexChar(q, '/');
        q[i + 1..]
  }

  function TrimTrailingSlashes(p: string): (r: string)
    ensures |r| <= |p| && r == p[..|r|]
    ensures r == [] || r[|r| - 1] != '/'
  {
    if p != [] && p[|p| - 1] == '/' then TrimTrailingSlashes(p[..|p| - 1]) else p
  }

  /** The last position of `c` in `s`, or -1. */
  function LastIndexChar(s: string, c: char): (r: int)
    ensures -1 <= r < |s|
    ensures r >= 0 ==> s[r] == c
    ensures forall k :: r < k < |s| ==> s[k] != c
  {
    if s == [] then -1
    else if s[|s| - 1] == c then |s| - 1
    else LastIndexChar(s[..|s| - 1], c)
  }

  /** A lookup in a table of (key, value) pairs, as Go's map index with the
      `ok` result: the first pair with the key. */
  function Lookup<V>(table: seq<(string, V)>, key: string): (r: Option<V>)
    ensures r.Some? ==> exists i :: 0 <= i < |table| && table[i] == (key, r.value)
  {
    if table == [] then None
    else if table[0].0 == key then Some(table[0].1)
    else Lookup(table[1..], key)
  }

  /** A key in no pair is not found. */
  lemma {:induction false} LookupAbsent<V>(table: seq<(string, V)>, key: string)
    requires forall i :: 0 <= i < |table| ==> table[i].0 != key
    ensures Lookup(table, key).None?
  {
    if table != [] {
      LookupAbsent(table[1..], key);
    }
  }

  /** A key in the table is found. */
  lemma {:induction false} LookupFinds<V>(table: seq<(string, V)>, i: nat)
    requires i < |table|
    ensures Lookup(table, table[i].0).Some?
  {
    if table[0].0 != table[i].0 {
      LookupFinds(table[1..], i - 1);
    }
  }
}
