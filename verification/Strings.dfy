/** The string operations of Rust's standard library that the modelled code is written with. */
module Strings {
  import opened Wrappers

  // ----- Finding and splitting -----

  predicate OccursAt<T(==)>(s: seq<T>, p: seq<T>, i: int) {
    0 <= i <= |s| - |p| && s[i..i + |p|] == p
  }

  /** Where `p` first occurs in `s` at or after `from`. */
  function FindFrom<T(==)>(s: seq<T>, p: seq<T>, from: nat): (at: Option<nat>)
    ensures match at
            case Some(i) => from <= i && OccursAt(s, p, i) && forall k | from <= k < i :: !OccursAt(s, p, k)
            case None => forall k | from <= k :: !OccursAt(s, p, k)
    decreases |s| - from
  {
    if |s| < from + |p| then None
    else if OccursAt(s, p, from) then Some(from)
    else if |s| == from then None
    else FindFrom(s, p, from + 1)
  }

  /** Where `p` last occurs in `s` at or before `upTo`. */
  function FindLast<T(==)>(s: seq<T>, p: seq<T>, upTo: nat): (at: Option<nat>)
    ensures match at
            case Some(i) => i <= upTo && OccursAt(s, p, i) && forall k | i < k <= upTo :: !OccursAt(s, p, k)
            case None => forall k | k <= upTo :: !OccursAt(s, p, k)
    decreases upTo
  {
    if OccursAt(s, p, upTo) then Some(upTo)
    else if upTo == 0 then None
    else FindLast(s, p, upTo - 1)
  }

  predicate Contains<T(==)>(s: seq<T>, p: seq<T>) {
    FindFrom(s, p, 0).Some?
  }

  /** `str::split_once`: around the first `sep`. */
  function SplitOnce<T(==)>(s: seq<T>, sep: seq<T>): Option<(seq<T>, seq<T>)> {
    match FindFrom(s, sep, 0)
    case Some(i) => Some((s[..i], s[i + |sep|..]))
    case None => None
  }

  /** `str::rsplit_once`: around the last `sep`. */
  function RSplitOnce<T(==)>(s: seq<T>, sep: seq<T>): Option<(seq<T>, seq<T>)> {
    match FindLast(s, sep, |s|)
    case Some(i) => Some((s[..i], s[i + |sep|..]))
    case None => None
  }

  /** Where nothing before a separator holds its first element, the cut is there. */
  lemma SplitOnceOf<T>(x: seq<T>, sep: seq<T>, y: seq<T>)
    requires sep != [] && sep[0] !in x
    ensures FindFrom(x + sep + y, sep, 0) == Some(|x|) && SplitOnce(x + sep + y, sep) == Some((x, y))
  {
    var s := x + sep + y;
    assert s[|x|..|x| + |sep|] == sep && OccursAt(s, sep, |x|);
    forall k | 0 <= k < |x| ensures !OccursAt(s, sep, k) {
      assert s[k] == x[k] && x[k] in x;
      assert k + |sep| <= |s| ==> s[k..k + |sep|][0] == s[k];
    }
    assert s[..|x|] == x && s[|x| + |sep|..] == y;
  }

  function StripPrefix<T(==)>(s: seq<T>, p: seq<T>): (rest: Option<seq<T>>)
    ensures rest.Some? ==> s == p + rest.value
  {
    if p <= s then Some(s[|p|..]) else None
  }

  function StripSuffix<T(==)>(s: seq<T>, p: seq<T>): (rest: Option<seq<T>>)
    ensures rest.Some? ==> s == rest.value + p
  {
    if |p| <= |s| && s[|s| - |p|..] == p then Some(s[..|s| - |p|]) else None
  }

  lemma StripPrefixOf<T>(p: seq<T>, rest: seq<T>)
    ensures StripPrefix(p + rest, p) == Some(rest)
  {
  }

  lemma StripSuffixOf<T>(rest: seq<T>, p: seq<T>)
    ensures StripSuffix(rest + p, p) == Some(rest)
  {
  }

  // ----- ASCII case -----

  function LowerChar(c: char): char {
    if 'A' <= c <= 'Z' then (c as int + 32) as char else c
  }

  function ToLower(s: string): (t: string)
    ensures |t| == |s|
  {
    seq(|s|, i requires 0 <= i < |s| => LowerChar(s[i]))
  }

  predicate EqIgnoreCase(s: string, t: string) {
    ToLower(s) == ToLower(t)
  }

  // ----- Decimal -----

  predicate IsDigit(c: char) {
    '0' <= c <= '9'
  }

  predicate AllDigits(s: string) {
    forall i | 0 <= i < |s| :: IsDigit(s[i])
  }

  predicate IsNumber(s: string) {
    s != "" && AllDigits(s)
  }

  function DigitChar(d: nat): (c: char)
    requires d < 10
    ensures IsDigit(c)
  {
    ('0' as int + d) as char
  }

  /** A number as `to_string` writes it. */
  function Decimal(n: nat): (s: string)
    ensures IsNumber(s)
  {
    if n < 10 then [DigitChar(n)] else Decimal(n / 10) + [DigitChar(n % 10)]
  }

  /** The number a run of digits stands for. */
  function ValueOf(s: string): nat
    requires AllDigits(s)
  {
    if s == "" then 0 else 10 * ValueOf(s[..|s| - 1]) + (s[|s| - 1] as int - '0' as int)
  }

  /** `str::parse` of an unsigned or positive number no greater than `max`: a run of digits in range. */
  function ParseUpTo(s: string, max: nat): Option<nat> {
    if IsNumber(s) && ValueOf(s) <= max then Some(ValueOf(s)) else None
  }

  lemma {:induction false} DecimalReadsBack(n: nat)
    ensures ValueOf(Decimal(n)) == n
    decreases n
  {
    var s := Decimal(n);
    if n < 10 {
      assert s[..|s| - 1] == "";
    } else {
      DecimalReadsBack(n / 10);
      assert s[..|s| - 1] == Decimal(n / 10);
    }
  }

  lemma ParseDecimal(n: nat, max: nat)
    requires n <= max
    ensures ParseUpTo(Decimal(n), max) == Some(n)
  {
    DecimalReadsBack(n);
  }
}
