/**
 The slice of JavaScript value and string semantics that the storefront code
 relies on: `undefined` versus a present value, truthiness of strings,
 `Array.prototype.slice`, `Number.prototype.toString` on naturals, ASCII case
 mapping, `String.prototype.split` on one character, and
 `String.prototype.replace` with a plain string pattern.
 */
module Js {

  /** A value that may be `undefined` (or `null`): `None` is the missing value. */
  datatype Option<+T> = None | Some(value: T)

  /** The outcome of a step that can throw (a rejected `fetch`, a JSON parse error). */
  datatype Result<+R, +E> = Success(value: R) | Failure(error: E)

  /** `x ?? d` */
  function OrElse<T>(x: Option<T>, d: T): T
  {
    match x
    case Some(v) => v
    case None => d
  }

  /** JavaScript truthiness of a possibly missing string: `undefined` and `''` are falsy. */
  predicate Truthy(s: Option<string>)
  {
    s.Some? && s.value != ""
  }

  /** `s.slice(0, end)` for an integral `end`; a negative `end` counts back from the length. */
  function SliceTo<T>(s: seq<T>, end: int): (r: seq<T>)
    ensures |r| <= |s| && r == s[..|r|]
    ensures end >= 0 ==> |r| == if end < |s| then end else |s|
    ensures end < 0 ==> |r| == if |s| + end > 0 then |s| + end else 0
  {
    if end < 0 then s[..if |s| + end > 0 then |s| + end else 0]
    else if end < |s| then s[..end]
    else s
  }

  // ---------------------------------------------------------------------------
  // Decimal rendering of naturals, `String(n)` / `n.toString()`
  // ---------------------------------------------------------------------------

  predicate IsDigit(c: char)
  {
    '0' <= c <= '9'
  }

  function DigitChar(d: nat): (c: char)
    requires d < 10
    ensures IsDigit(c)
  {
    ('0' as int + d) as char
  }

  /** `n.toString()` for a natural number: shortest decimal, no sign, no leading zero. */
  function NatToString(n: nat): (r: string)
    ensures |r| >= 1
    ensures forall i :: 0 <= i < |r| ==> IsDigit(r[i])
    ensures r[0] == '0' <==> n == 0
    ensures n == 0 ==> r == "0"
    decreases n
  {
    if n < 10 then [DigitChar(n)] else NatToString(n / 10) + [DigitChar(n % 10)]
  }

  /** The value of a string of decimal digits (the inverse of `NatToString`). */
  function DecimalValue(s: string): nat
    requires forall i :: 0 <= i < |s| ==> IsDigit(s[i])
  {
    if |s| == 0 then 0
    else
      assert IsDigit(s[|s| - 1]);
      DecimalValue(s[..|s| - 1]) * 10 + (s[|s| - 1] as int - '0' as int)
  }

  lemma {:induction false} DecimalValueOfNatToString(n: nat)
    ensures DecimalValue(NatToString(n)) == n
    decreases n
  {
    if n >= 10 {
      var prefix := NatToString(n / 10);
      var s := prefix + [DigitChar(n % 10)];
      assert s[..|s| - 1] == prefix;
      DecimalValueOfNatToString(n / 10);
    }
  }

  /** A decimal rendering holds no character other than digits. */
  lemma NatToStringAvoids(n: nat, c: char)
    requires !IsDigit(c)
    ensures c !in NatToString(n)
  {
  }

  /** Distinct naturals render as distinct strings. */
  lemma NatToStringInjective(a: nat, b: nat)
    ensures NatToString(a) == NatToString(b) ==> a == b
  {
    DecimalValueOfNatToString(a);
    DecimalValueOfNatToString(b);
  }

  // ---------------------------------------------------------------------------
  // Case mapping (ASCII only)
  // ---------------------------------------------------------------------------

  function UpperChar(c: char): char
  {
    if 'a' <= c <= 'z' then (c as int - 32) as char else c
  }

  function LowerChar(c: char): char
  {
    if 'A' <= c <= 'Z' then (c as int + 32) as char else c
  }

  /** `s.toUpperCase()`, restricted to ASCII letters. */
  function ToUpper(s: string): (r: string)
  {
    seq(|s|, i requires 0 <= i < |s| => UpperChar(s[i]))
  }

  /** `s.toLowerCase()`, restricted to ASCII letters. */
  function ToLower(s: string): (r: string)
  {
    seq(|s|, i requires 0 <= i < |s| => LowerChar(s[i]))
  }

  /** Lower-casing forgets any earlier upper-casing. */
  lemma ToLowerOfToUpper(s: string)
    ensures ToLower(ToUpper(s)) == ToLower(s)
  {
    assert forall i :: 0 <= i < |s| ==> LowerChar(UpperChar(s[i])) == LowerChar(s[i]);
  }

  // ---------------------------------------------------------------------------
  // Searching and splitting
  // ---------------------------------------------------------------------------

  /** `s.startsWith(prefix)` */
  predicate StartsWith(s: string, prefix: string)
  {
    |prefix| <= |s| && s[..|prefix|] == prefix
  }

  /** The index of the first `c` in `s`, or `|s|` when there is none. */
  function FindChar(s: string, c: char): (i: nat)
    ensures i <= |s|
    ensures i < |s| ==> s[i] == c
    ensures forall j :: 0 <= j < i ==> s[j] != c
  {
    if |s| == 0 then 0
    else if s[0] == c then 0
    else 1 + FindChar(s[1..], c)
  }

  /** The index of the first character of `s` that is in `stops`, or `|s|` when there is none. */
  function FindAny(s: string, stops: set<char>): (i: nat)
    ensures i <= |s|
    ensures i < |s| ==> s[i] in stops
    ensures forall j :: 0 <= j < i ==> s[j] !in stops
  {
    if |s| == 0 then 0
    else if s[0] in stops then 0
    else 1 + FindAny(s[1..], stops)
  }

  /** A string none of whose characters is in `cs`. */
  predicate Avoids(s: string, cs: set<char>)
  {
    forall j :: 0 <= j < |s| ==> s[j] !in cs
  }

  lemma AvoidsConcat(a: string, b: string, cs: set<char>)
    requires Avoids(a, cs) && Avoids(b, cs)
    ensures Avoids(a + b, cs)
  {
    forall j | 0 <= j < |a + b|
      ensures (a + b)[j] !in cs
    {
      if j >= |a| {
        assert (a + b)[j] == b[j - |a|];
      }
    }
  }

  /** Searching past a stretch free of stop characters. */
  lemma {:induction false} FindAnyAppend(a: string, b: string, stops: set<char>)
    requires Avoids(a, stops)
    ensures FindAny(a + b, stops) == |a| + FindAny(b, stops)
    decreases |a|
  {
    if |a| > 0 {
      assert (a + b)[1..] == a[1..] + b;
      FindAnyAppend(a[1..], b, stops);
    } else {
      assert a + b == b;
    }
  }

  /** `s.split(c)` for a one-character separator: every piece, empty ones included. */
  function Split(s: string, c: char): (parts: seq<string>)
    ensures |parts| >= 1
    ensures forall k :: 0 <= k < |parts| ==> c !in parts[k]
    decreases |s|
  {
    var i := FindChar(s, c);
    if i == |s| then [s] else [s[..i]] + Split(s[i + 1..], c)
  }

  /** A string without the separator splits into itself alone. */
  lemma SplitAvoiding(s: string, c: char)
    requires c !in s
    ensures Split(s, c) == [s]
  {
    assert FindChar(s, c) == |s|;
  }

  /** `parts.join(c)` */
  function Join(parts: seq<string>, c: char): string
  {
    if |parts| == 0 then ""
    else if |parts| == 1 then parts[0]
    else parts[0] + [c] + Join(parts[1..], c)
  }

  /** Splitting a separator-free head off a string. */
  lemma SplitCons(a: string, c: char, b: string)
    requires c !in a
    ensures Split(a + [c] + b, c) == [a] + Split(b, c)
  {
    var s := a + [c] + b;
    assert s[|a|] == c;
    assert forall j :: 0 <= j < |a| ==> s[j] == a[j];
    var i := FindChar(s, c);
    assert i == |a|;
    assert s[..i] == a;
    assert s[i + 1..] == b;
  }

  /** Joining pieces that do not contain the separator and splitting again gives them back. */
  lemma {:induction false} SplitOfJoin(parts: seq<string>, c: char)
    requires |parts| >= 1
    requires forall k :: 0 <= k < |parts| ==> c !in parts[k]
    ensures Split(Join(parts, c), c) == parts
    decreases |parts|
  {
    if |parts| == 1 {
      assert FindChar(parts[0], c) == |parts[0]|;
    } else {
      SplitOfJoin(parts[1..], c);
      SplitCons(parts[0], c, Join(parts[1..], c));
    }
  }

  /** Splitting and joining again gives back the original string. */
  lemma {:induction false} JoinOfSplit(s: string, c: char)
    ensures Join(Split(s, c), c) == s
    decreases |s|
  {
    var i := FindChar(s, c);
    if i < |s| {
      JoinOfSplit(s[i + 1..], c);
      assert s == s[..i] + [c] + s[i + 1..];
    }
  }

  /** `pat` occurs in `s` at index `i`. */
  predicate OccursAt(s: string, pat: string, i: nat)
  {
    i + |pat| <= |s| && s[i..i + |pat|] == pat
  }

  function IndexOfFrom(s: string, pat: string, from: nat): (r: Option<nat>)
    requires from <= |s|
    ensures r.Some? ==> from <= r.value && OccursAt(s, pat, r.value)
    ensures r.Some? ==> forall j :: from <= j < r.value ==> !OccursAt(s, pat, j)
    ensures r.None? ==> forall j :: from <= j <= |s| ==> !OccursAt(s, pat, j)
    decreases |s| - from
  {
    if OccursAt(s, pat, from) then Some(from)
    else if from == |s| then None
    else IndexOfFrom(s, pat, from + 1)
  }

  /** `s.indexOf(pat)`, with `None` for -1. */
  function IndexOf(s: string, pat: string): (r: Option<nat>)
    ensures r.Some? ==> OccursAt(s, pat, r.value)
    ensures r.Some? ==> forall j :: 0 <= j < r.value ==> !OccursAt(s, pat, j)
    ensures r.None? ==> forall j :: 0 <= j <= |s| ==> !OccursAt(s, pat, j)
  {
    IndexOfFrom(s, pat, 0)
  }

  /** `s.replace(pat, rep)` with a string pattern: only the first occurrence is replaced. */
  function ReplaceFirst(s: string, pat: string, rep: string): string
  {
    match IndexOf(s, pat)
    case None => s
    case Some(i) => s[..i] + rep + s[i + |pat|..]
  }
}
