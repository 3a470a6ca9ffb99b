/**
 The edit distance between tool names (`src/text_calls.rs`): the one-row method, the distance it
 computes, and what that distance is: the fewest single-character edits, and a metric.
 */
module EditDistance {

  function Min(a: nat, b: nat): nat {
    if a <= b then a else b
  }

  function Front<T>(s: seq<T>): seq<T>
    requires s != []
  {
    s[..|s| - 1]
  }

  function Last<T>(s: seq<T>): T
    requires s != []
  {
    s[|s| - 1]
  }

  /** Levenshtein's distance. */
  function Distance<T(==)>(a: seq<T>, b: seq<T>): nat
    decreases |a| + |b|
  {
    if a == [] then |b|
    else if b == [] then |a|
    else
      Min(Min(Distance(Front(a), Front(b)) + Cost(Last(a), Last(b)), Distance(a, Front(b)) + 1),
          Distance(Front(a), b) + 1)
  }

  /** What it costs to put one character in another's place. */
  function Cost<T(==)>(x: T, y: T): nat {
    if x != y then 1 else 0
  }

  lemma {:induction false} DistanceStep<T>(a: seq<T>, b: seq<T>)
    requires a != [] && b != []
    ensures Distance(a, b)
         == Min(Min(Distance(Front(a), Front(b)) + Cost(Last(a), Last(b)), Distance(a, Front(b)) + 1),
                Distance(Front(a), b) + 1)
  {
    hide Min;
    hide Cost;
  }

  lemma {:induction false} DistanceToNothing<T>(s: seq<T>)
    ensures Distance(s, []) == |s| && Distance([], s) == |s|
  {
  }

  // ----- The method -----

  /** The distance between the first `i` and the first `j`. */
  function Prefixes<T(==)>(a: seq<T>, b: seq<T>, i: nat, j: nat): nat
    requires i <= |a| && j <= |b|
  {
    Distance(a[..i], b[..j])
  }

  lemma PrefixesStep<T>(a: seq<T>, b: seq<T>, i: nat, j: nat)
    requires i < |a| && j < |b|
    ensures Prefixes(a, b, i + 1, j + 1)
         == Min(Min(Prefixes(a, b, i, j) + Cost(a[i], b[j]), Prefixes(a, b, i + 1, j) + 1),
                Prefixes(a, b, i, j + 1) + 1)
  {
    hide Distance;
    assert Front(a[..i + 1]) == a[..i] && Front(b[..j + 1]) == b[..j];
    DistanceStep(a[..i + 1], b[..j + 1]);
  }

  lemma PrefixesEdge<T>(a: seq<T>, b: seq<T>)
    ensures forall i | 0 <= i <= |a| :: Prefixes(a, b, i, 0) == i
    ensures forall j | 0 <= j <= |b| :: Prefixes(a, b, 0, j) == j
    ensures Prefixes(a, b, |a|, |b|) == Distance(a, b)
  {
    hide Distance;
    forall i | 0 <= i <= |a| ensures Prefixes(a, b, i, 0) == i {
      DistanceToNothing(a[..i]);
      assert b[..0] == [];
    }
    forall j | 0 <= j <= |b| ensures Prefixes(a, b, 0, j) == j {
      DistanceToNothing(b[..j]);
      assert a[..0] == [];
    }
    assert a[..|a|] == a && b[..|b|] == b;
  }

  /** One row at a time: `row[j]` is the distance from the characters done to the first `j` of `b`. */
  method OneRow<T(==)>(a: seq<T>, b: seq<T>) returns (distance: nat)
    ensures distance == Distance(a, b)
  {
    hide Distance;
    hide Prefixes;
    PrefixesEdge(a, b);
    var row := new nat[|b| + 1](j => j);
    for i := 0 to |a|
      invariant forall j | 0 <= j <= |b| :: row[j] == Prefixes(a, b, i, j)
    {
      var previous := row[0];
      row[0] := i + 1;
      for j := 0 to |b|
        invariant previous == Prefixes(a, b, i, j)
        invariant forall k | 0 <= k <= j :: row[k] == Prefixes(a, b, i + 1, k)
        invariant forall k | j < k <= |b| :: row[k] == Prefixes(a, b, i, k)
      {
        PrefixesStep(a, b, i, j);
        var substituted := previous + Cost(a[i], b[j]);
        previous := row[j + 1];
        row[j + 1] := Min(Min(substituted, row[j] + 1), previous + 1);
      }
    }
    return row[|b|];
  }

  // ----- A metric -----

  lemma {:induction false} Symmetric<T>(a: seq<T>, b: seq<T>)
    ensures Distance(a, b) == Distance(b, a)
    decreases |a| + |b|
  {
    if a != [] && b != [] {
      Symmetric(Front(a), Front(b));
      Symmetric(a, Front(b));
      Symmetric(Front(a), b);
    }
  }

  lemma {:induction false} ZeroOnlyOnEqual<T>(a: seq<T>, b: seq<T>)
    ensures Distance(a, b) == 0 <==> a == b
    decreases |a| + |b|
  {
    if a != [] && b != [] {
      ZeroOnlyOnEqual(Front(a), Front(b));
      assert a == Front(a) + [Last(a)] && b == Front(b) + [Last(b)];
    }
  }

  lemma {:induction false} LengthBound<T>(a: seq<T>, b: seq<T>)
    ensures |a| <= |b| + Distance(a, b) && |b| <= |a| + Distance(a, b)
    decreases |a| + |b|
  {
    if a != [] && b != [] {
      LengthBound(Front(a), Front(b));
      LengthBound(a, Front(b));
      LengthBound(Front(a), b);
    }
  }

  /** Going by way of `b` is never shorter. */
  lemma {:induction false} Triangle<T>(a: seq<T>, b: seq<T>, c: seq<T>)
    ensures Distance(a, c) <= Distance(a, b) + Distance(b, c)
    decreases |a| + |b| + |c|
  {
    hide Distance;
    if a == [] || b == [] || c == [] {
      LengthBound(a, b);
      LengthBound(b, c);
      ThroughNothing(a, c);
      DistanceToNothing(a);
      DistanceToNothing(b);
      DistanceToNothing(c);
    } else {
      Triangle(Front(a), b, c);
      Triangle(a, b, Front(c));
      Triangle(a, Front(b), c);
      Triangle(a, Front(b), Front(c));
      Triangle(Front(a), Front(b), c);
      Triangle(Front(a), Front(b), Front(c));
      DistanceStep(a, b);
      DistanceStep(b, c);
      DistanceStep(a, c);
    }
  }

  lemma {:induction false} ThroughNothing<T>(a: seq<T>, c: seq<T>)
    ensures Distance(a, c) <= |a| + |c|
    decreases |a| + |c|
  {
    if a != [] && c != [] {
      ThroughNothing(Front(a), c);
    }
  }

  // ----- The fewest edits -----

  datatype Edit<T> = Insert(at: nat, x: T) | Delete(at: nat) | Change(at: nat, x: T) {
    predicate Fits(s: seq<T>) {
      if Insert? then at <= |s| else at < |s|
    }

    function Applied(s: seq<T>): seq<T>
      requires Fits(s)
    {
      match this
      case Insert(_, _) => s[..at] + [x] + s[at..]
      case Delete(_) => s[..at] + s[at + 1..]
      case Change(_, _) => s[at := x]
    }
  }

  /** Edits that can be made one after another, starting from `s`. */
  predicate Fit<T>(edits: seq<Edit<T>>, s: seq<T>) {
    edits == [] || (edits[0].Fits(s) && Fit(edits[1..], edits[0].Applied(s)))
  }

  function Edited<T>(edits: seq<Edit<T>>, s: seq<T>): seq<T>
    requires Fit(edits, s)
  {
    if edits == [] then s else Edited(edits[1..], edits[0].Applied(s))
  }

  lemma {:induction false} CommonTail<T>(a: seq<T>, b: seq<T>, tail: seq<T>)
    ensures Distance(a + tail, b + tail) <= Distance(a, b)
    decreases |tail|
  {
    hide Distance;
    if tail == [] {
      assert a + tail == a && b + tail == b;
    } else {
      CommonTail(a, b, Front(tail));
      assert Front(a + tail) == a + Front(tail) && Front(b + tail) == b + Front(tail);
      DistanceStep(a + tail, b + tail);
    }
  }

  lemma OneMoreIsNear<T>(s: seq<T>, x: T)
    ensures Distance(s, s + [x]) <= 1
  {
    ZeroOnlyOnEqual(s, s);
    assert Front(s + [x]) == s;
  }

  lemma OtherLastIsNear<T>(s: seq<T>, x: T, y: T)
    ensures Distance(s + [x], s + [y]) <= 1
  {
    hide Distance;
    ZeroOnlyOnEqual(s, s);
    assert Front(s + [x]) == s && Front(s + [y]) == s;
    DistanceStep(s + [x], s + [y]);
  }

  lemma InsertIsNear<T>(s: seq<T>, at: nat, x: T)
    requires at <= |s|
    ensures Distance(s, s[..at] + [x] + s[at..]) <= 1
  {
    hide Distance;
    OneMoreIsNear(s[..at], x);
    CommonTail(s[..at], s[..at] + [x], s[at..]);
    assert s[..at] + s[at..] == s;
  }

  lemma ChangeIsNear<T>(s: seq<T>, at: nat, x: T)
    requires at < |s|
    ensures Distance(s, s[at := x]) <= 1
  {
    hide Distance;
    OtherLastIsNear(s[..at], s[at], x);
    CommonTail(s[..at] + [s[at]], s[..at] + [x], s[at + 1..]);
    assert s[..at] + [s[at]] + s[at + 1..] == s && s[..at] + [x] + s[at + 1..] == s[at := x];
  }

  lemma EditIsNear<T>(e: Edit<T>, s: seq<T>)
    requires e.Fits(s)
    ensures Distance(s, e.Applied(s)) <= 1
  {
    match e
    case Insert(at, x) => InsertIsNear(s, at, x);
    case Delete(at) =>
      var shorter := e.Applied(s);
      InsertIsNear(shorter, at, s[at]);
      assert shorter[..at] + [s[at]] + shorter[at..] == s;
      Symmetric(shorter, s);
    case Change(at, x) => ChangeIsNear(s, at, x);
  }

  /** No fewer edits than the distance turn one into the other. */
  lemma {:induction false} NoFewerEdits<T>(edits: seq<Edit<T>>, s: seq<T>)
    requires Fit(edits, s)
    ensures Distance(s, Edited(edits, s)) <= |edits|
  {
    if edits == [] {
      ZeroOnlyOnEqual(s, s);
    } else {
      var next := edits[0].Applied(s);
      EditIsNear(edits[0], s);
      NoFewerEdits(edits[1..], next);
      Triangle(s, next, Edited(edits, s));
    }
  }

  lemma {:induction false} EditsConcat<T>(first: seq<Edit<T>>, second: seq<Edit<T>>, s: seq<T>)
    requires Fit(first, s) && Fit(second, Edited(first, s))
    ensures Fit(first + second, s) && Edited(first + second, s) == Edited(second, Edited(first, s))
  {
    if first == [] {
      assert first + second == second;
    } else {
      assert (first + second)[1..] == first[1..] + second;
      EditsConcat(first[1..], second, first[0].Applied(s));
    }
  }

  /** Edits leave a character added after everything they touch alone. */
  lemma {:induction false} EditsBefore<T>(edits: seq<Edit<T>>, s: seq<T>, x: T)
    requires Fit(edits, s)
    ensures Fit(edits, s + [x]) && Edited(edits, s + [x]) == Edited(edits, s) + [x]
  {
    if edits != [] {
      assert edits[0].Applied(s + [x]) == edits[0].Applied(s) + [x];
      EditsBefore(edits[1..], edits[0].Applied(s), x);
    }
  }

  lemma OneEdit<T>(e: Edit<T>, s: seq<T>)
    requires e.Fits(s)
    ensures Fit([e], s) && Edited([e], s) == e.Applied(s)
  {
    assert [e][1..] == [];
  }

  lemma AddEdit<T>(edits: seq<Edit<T>>, s: seq<T>, e: Edit<T>)
    requires Fit(edits, s) && e.Fits(Edited(edits, s))
    ensures Fit(edits + [e], s) && Edited(edits + [e], s) == e.Applied(Edited(edits, s))
  {
    OneEdit(e, Edited(edits, s));
    EditsConcat(edits, [e], s);
  }

  lemma DeleteLast<T>(s: seq<T>)
    requires s != []
    ensures Edit<T>.Delete(|s| - 1).Fits(s) && Edit<T>.Delete(|s| - 1).Applied(s) == Front(s)
  {
  }

  lemma InsertLast<T>(s: seq<T>)
    requires s != []
    ensures Insert(|s| - 1, Last(s)).Fits(Front(s)) && Insert(|s| - 1, Last(s)).Applied(Front(s)) == s
  {
  }

  lemma ChangeLast<T>(s: seq<T>, x: T)
    requires s != []
    ensures Change(|s| - 1, Last(s)).Fits(Front(s) + [x]) && Change(|s| - 1, Last(s)).Applied(Front(s) + [x]) == s
  {
  }

  /** That many edits are enough. */
  lemma {:induction false} EnoughEdits<T>(a: seq<T>, b: seq<T>) returns (edits: seq<Edit<T>>)
    ensures Fit(edits, a) && Edited(edits, a) == b && |edits| == Distance(a, b)
    decreases |a| + |b|
  {
    hide Distance;
    hide Fit;
    hide Edited;
    DistanceToNothing(a);
    DistanceToNothing(b);
    if a != [] && b != [] {
      DistanceStep(a, b);
    }
    if a == [] && b == [] {
      edits := [];
      NoEdits(a);
    } else if a != [] && (b == [] || Distance(a, b) == Distance(Front(a), b) + 1) {
      DistanceToNothing(Front(a));
      var rest := EnoughEdits(Front(a), b);
      var e: Edit<T> := Delete(|a| - 1);
      DeleteLast(a);
      OneEdit(e, a);
      EditsConcat([e], rest, a);
      edits := [e] + rest;
    } else if a == [] || Distance(a, b) == Distance(a, Front(b)) + 1 {
      DistanceToNothing(Front(b));
      var start := EnoughEdits(a, Front(b));
      InsertLast(b);
      AddEdit(start, a, Insert(|b| - 1, Last(b)));
      edits := start + [Insert(|b| - 1, Last(b))];
    } else {
      var start := EnoughEdits(Front(a), Front(b));
      EditsBefore(start, Front(a), Last(a));
      assert Front(a) + [Last(a)] == a;
      if Last(a) != Last(b) {
        ChangeLast(b, Last(a));
        AddEdit(start, a, Change(|b| - 1, Last(b)));
        edits := start + [Change(|b| - 1, Last(b))];
      } else {
        edits := start;
        assert Front(b) + [Last(b)] == b;
      }
    }
  }

  lemma NoEdits<T>(s: seq<T>)
    ensures Fit([], s) && Edited([], s) == s
  {
  }

  /** The method's number is the fewest single-character edits that turn `a` into `b`. */
  lemma DistanceIsFewestEdits<T>(a: seq<T>, b: seq<T>)
    ensures exists edits :: Fit(edits, a) && Edited(edits, a) == b && |edits| == Distance(a, b)
    ensures forall edits | Fit(edits, a) && Edited(edits, a) == b :: Distance(a, b) <= |edits|
  {
    var enough := EnoughEdits(a, b);
    forall edits | Fit(edits, a) && Edited(edits, a) == b ensures Distance(a, b) <= |edits| {
      NoFewerEdits(edits, a);
    }
  }
}
