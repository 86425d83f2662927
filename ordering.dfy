/** The orderings MongoDB's `.sort(...)` produces, stated as properties of the
    result: every selected document exactly once, consecutive documents in
    order. Which of two tied documents comes first is left open, as MongoDB
    leaves it open. */
module Ordering {

  /** `before` is total and transitive on `xs`, so every finite part of it has a least element. */
  ghost predicate TotalPreorderOn<T>(xs: set<T>, before: (T, T) -> bool) {
    && (forall a, b :: a in xs && b in xs ==> before(a, b) || before(b, a))
    && (forall a, b, c :: a in xs && b in xs && c in xs && before(a, b) && before(b, c) ==> before(a, c))
  }

  ghost predicate IsLeast<T>(m: T, xs: set<T>, before: (T, T) -> bool) {
    m in xs && forall y :: y in xs ==> before(m, y)
  }

  lemma TotalPreorderOnSubset<T>(xs: set<T>, ys: set<T>, before: (T, T) -> bool)
    requires ys <= xs && TotalPreorderOn(xs, before)
    ensures TotalPreorderOn(ys, before)
  {
  }

  /** A non-empty finite set under a total preorder has a least element. */
  lemma {:induction false} LeastExists<T>(xs: set<T>, before: (T, T) -> bool)
    requires xs != {} && TotalPreorderOn(xs, before)
    ensures exists m :: IsLeast(m, xs, before)
    decreases |xs|
  {
    var x :| x in xs;
    if xs == {x} {
      assert before(x, x);
      assert IsLeast(x, xs, before);
    } else {
      var rest := xs - {x};
      TotalPreorderOnSubset(xs, rest, before);
      LeastExists(rest, before);
      var m :| IsLeast(m, rest, before);
      if before(m, x) {
        assert IsLeast(m, xs, before);
      } else {
        assert before(x, m);
        assert IsLeast(x, xs, before);
      }
    }
  }

  /** The elements of `xs`, each exactly once, in `before` order. */
  ghost function SortedBy<T(!new)>(xs: set<T>, before: (T, T) -> bool): (r: seq<T>)
    requires TotalPreorderOn(xs, before)
    ensures |r| == |xs|
    ensures forall x :: x in r <==> x in xs
    ensures forall i, j :: 0 <= i < j < |r| ==> r[i] != r[j]
    ensures forall i, j :: 0 <= i < j < |r| ==> before(r[i], r[j])
    decreases |xs|
  {
    if xs == {} then []
    else
      LeastExists(xs, before);
      var m :| IsLeast(m, xs, before);
      TotalPreorderOnSubset(xs, xs - {m}, before);
      var rest := SortedBy(xs - {m}, before);
      PrependLeast(m, xs, rest, before);
      [m] + rest
  }

  /** Putting a least element in front of a sorting of the others sorts the whole set. */
  lemma PrependLeast<T>(m: T, xs: set<T>, rest: seq<T>, before: (T, T) -> bool)
    requires IsLeast(m, xs, before)
    requires |rest| == |xs - {m}|
    requires forall x :: x in rest <==> x in xs - {m}
    requires forall i, j :: 0 <= i < j < |rest| ==> rest[i] != rest[j]
    requires forall i, j :: 0 <= i < j < |rest| ==> before(rest[i], rest[j])
    ensures var r := [m] + rest;
            && |r| == |xs|
            && (forall x :: x in r <==> x in xs)
            && (forall i, j :: 0 <= i < j < |r| ==> r[i] != r[j])
            && (forall i, j :: 0 <= i < j < |r| ==> before(r[i], r[j]))
  {
    var r := [m] + rest;
    forall i, j | 0 <= i < j < |r| ensures r[i] != r[j] && before(r[i], r[j]) {
      assert r[j] == rest[j - 1] && r[j] in xs - {m};
      if i > 0 {
        assert r[i] == rest[i - 1];
      }
    }
  }

  /** Binary (code point) order on strings, the order MongoDB's default collation sorts names in. */
  predicate TextLe(a: string, b: string)
    decreases |a|
  {
    a == [] || (b != [] && (a[0] < b[0] || (a[0] == b[0] && TextLe(a[1..], b[1..]))))
  }

  lemma {:induction false} TextLeTotal(a: string, b: string)
    ensures TextLe(a, b) || TextLe(b, a)
    decreases |a|
  {
    if a != [] && b != [] && a[0] == b[0] {
      TextLeTotal(a[1..], b[1..]);
    }
  }

  lemma {:induction false} TextLeTransitive(a: string, b: string, c: string)
    requires TextLe(a, b) && TextLe(b, c)
    ensures TextLe(a, c)
    decreases |a|
  {
    if a != [] && a[0] == b[0] && b[0] == c[0] {
      TextLeTransitive(a[1..], b[1..], c[1..]);
    }
  }

  /** Two names that sort each before the other are the same name: ties are equal names. */
  lemma {:induction false} TextLeAntisymmetric(a: string, b: string)
    requires TextLe(a, b) && TextLe(b, a)
    ensures a == b
    decreases |a|
  {
    if a != [] {
      TextLeAntisymmetric(a[1..], b[1..]);
      assert a == [a[0]] + a[1..] && b == [b[0]] + b[1..];
    }
  }
}
