/** UTF-8 as sections 3 and 4 of RFC 3629 define it. */
module Utf8 {
  import opened Wrappers

  newtype Byte = b: int | 0 <= b < 256

  /** A byte that only stands inside a character. */
  predicate IsTail(b: Byte) {
    0x80 <= b <= 0xBF
  }

  predicate IsAscii(b: Byte) {
    b < 0x80
  }

  /** How many bytes the character at the start of `s` takes, if one stands there. */
  function CharLength(s: seq<Byte>): (length: nat)
    ensures length <= |s| && length <= 4
    ensures forall i | 0 < i < length :: IsTail(s[i])
    ensures length > 0 ==> !IsTail(s[0])
    ensures length > 1 ==> !IsAscii(s[0])
  {
    if |s| >= 1 && IsAscii(s[0]) then 1
    else if |s| >= 2 && 0xC2 <= s[0] <= 0xDF && IsTail(s[1]) then 2
    else if |s| >= 3 && IsTail(s[1]) && IsTail(s[2]) && 0xE0 <= s[0] <= 0xEF
      && (s[0] == 0xE0 ==> s[1] >= 0xA0) && (s[0] == 0xED ==> s[1] <= 0x9F) then 3
    else if |s| >= 4 && IsTail(s[1]) && IsTail(s[2]) && IsTail(s[3]) && 0xF0 <= s[0] <= 0xF4
      && (s[0] == 0xF0 ==> s[1] >= 0x90) && (s[0] == 0xF4 ==> s[1] <= 0x8F) then 4
    else 0
  }

  /** One character after another. */
  predicate Valid(s: seq<Byte>) {
    s == [] || (CharLength(s) > 0 && Valid(s[CharLength(s)..]))
  }

  /** Where a character starts, or the end. */
  predicate IsBoundary(s: seq<Byte>, at: int) {
    0 <= at <= |s| && (at == |s| || !IsTail(s[at]))
  }

  lemma LengthOfConcat(a: seq<Byte>, b: seq<Byte>)
    requires CharLength(a) > 0
    ensures CharLength(a + b) == CharLength(a)
  {
  }

  lemma FirstChar(s: seq<Byte>)
    requires s != []
    ensures Valid(s) <==> CharLength(s) > 0 && Valid(s[CharLength(s)..])
  {
  }

  lemma {:induction false} ValidConcat(a: seq<Byte>, b: seq<Byte>)
    requires Valid(a) && Valid(b)
    ensures Valid(a + b)
    decreases |a|
  {
    hide CharLength;
    hide Valid;
    if a == [] {
      assert a + b == b;
    } else {
      var n := CharLength(a);
      FirstChar(a);
      LengthOfConcat(a, b);
      assert (a + b)[n..] == a[n..] + b;
      ValidConcat(a[n..], b);
      FirstChar(a + b);
    }
  }

  lemma LengthOfPrefix(s: seq<Byte>, at: nat)
    requires at <= |s| && 0 < CharLength(s) <= at
    ensures CharLength(s[..at]) == CharLength(s)
  {
  }

  /** Valid text cut at a boundary is two valid texts. */
  lemma {:induction false} ValidCut(s: seq<Byte>, at: nat)
    requires Valid(s) && IsBoundary(s, at)
    ensures Valid(s[..at]) && Valid(s[at..])
    decreases |s|
  {
    hide CharLength;
    if at == 0 {
      assert s[..0] == [] && s[0..] == s;
    } else {
      var n := CharLength(s);
      assert n <= at;
      LengthOfPrefix(s, at);
      ValidCut(s[n..], at - n);
      assert s[n..][..at - n] == s[..at][n..];
      assert s[n..][at - n..] == s[at..];
    }
  }

  /** A boundary follows every ASCII byte of valid text. */
  lemma AfterAscii(s: seq<Byte>, at: nat)
    requires Valid(s) && at < |s| && IsAscii(s[at])
    ensures IsBoundary(s, at + 1)
  {
    ValidCut(s, at);
    var rest := s[at..];
    assert CharLength(rest) == 1;
    assert Valid(rest[1..]);
    if at + 1 < |s| {
      assert rest[1..][0] == s[at + 1];
    }
  }

  lemma {:induction false} AsciiIsValid(s: seq<Byte>)
    requires forall i | 0 <= i < |s| :: IsAscii(s[i])
    ensures Valid(s)
  {
    if s != [] {
      assert CharLength(s) == 1;
      AsciiIsValid(s[1..]);
    }
  }
}
