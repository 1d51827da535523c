/** The arithmetic behind the midpoint (Bresenham) line loops of draw.go.
    Every octant loop steps a driving coordinate through `major + 1` values
    and moves the other coordinate by a running offset; `major` is the
    extent along the driving axis and `minor <= major` the other extent. */
module Midpoint {

  /** The decision value the loops keep, up to sign: how far the ideal line
      at driving step i + 1 lies beyond the midpoint k + 1/2, scaled by 2*major. */
  function Decision(major: int, minor: int, i: int, k: int): (d: int)
    ensures minor >= 0 && Nearest(major, minor, i, k) ==> (d > 0 <==> !Nearest(major, minor, i + 1, k))
  {
    assert 2 * minor * (i + 1) == 2 * minor * i + 2 * minor;
    assert major * (2 * k + 1) == 2 * major * k + major;
    2 * minor * (i + 1) - major * (2 * k + 1)
  }

  /** The state of a midpoint loop after i driving steps: the offset k the
      minor coordinate has moved, and the decision value d. */
  datatype Step = Step(k: nat, d: int)

  /** The loops' recurrence: the decision value starts at 2*minor - major;
      each step adds 2*minor, and when it was positive the offset advances
      and 2*major is taken off. */
  function Walk(major: nat, minor: nat, i: int): (st: Step)
    ensures st.k <= if i <= 0 then 0 else i
    decreases i
  {
    if i <= 0 then Step(0, 2 * minor - major)
    else
      var s := Walk(major, minor, i - 1);
      if s.d > 0 then Step(s.k + 1, s.d + 2 * minor - 2 * major)
      else Step(s.k, s.d + 2 * minor)
  }

  /** One pass of a loop body: the recurrence from step i to step i + 1. */
  lemma WalkNext(major: nat, minor: nat, i: nat)
    ensures var st := Walk(major, minor, i);
      Walk(major, minor, i + 1) ==
        if st.d > 0 then Step(st.k + 1, st.d + 2 * minor - 2 * major) else Step(st.k, st.d + 2 * minor)
  {
  }

  /** The offset of the minor coordinate after i driving steps. */
  function Offset(major: nat, minor: nat, i: int): nat
  {
    Walk(major, minor, i).k
  }

  /** The running decision value is the closed-form Decision of the step
      count and the offset reached. */
  lemma {:induction false} WalkDecision(major: nat, minor: nat, i: nat)
    ensures Walk(major, minor, i).d == Decision(major, minor, i, Walk(major, minor, i).k)
  {
    if i > 0 {
      WalkDecision(major, minor, i - 1);
      DecisionUpdate(major, minor, i - 1, Walk(major, minor, i - 1).k);
    }
  }

  /** k lies within half a pixel of the ideal offset minor*i/major, with an
      exact tie counted on the side of the start. */
  predicate Nearest(major: int, minor: int, i: int, k: int)
  {
    -major < 2 * minor * i - 2 * major * k <= major
  }

  /** The loops' incremental update of the decision value. */
  lemma DecisionUpdate(major: int, minor: int, i: int, k: int)
    ensures Decision(major, minor, i + 1, k) == Decision(major, minor, i, k) + 2 * minor
    ensures Decision(major, minor, i + 1, k + 1) == Decision(major, minor, i, k) + 2 * minor - 2 * major
  {
    assert 2 * minor * (i + 2) == 2 * minor * (i + 1) + 2 * minor;
    assert major * (2 * (k + 1) + 1) == major * (2 * k + 1) + 2 * major;
  }

  lemma MulMono(a: int, b: int, c: int)
    requires a >= 0 && b <= c
    ensures a * b <= a * c
  {
    assert a * c - a * b == a * (c - b);
  }

  /** One step of the decision rule keeps the offset nearest. */
  lemma NearestNext(major: nat, minor: nat, i: int, k: int)
    requires 0 < major && minor <= major && Nearest(major, minor, i, k)
    ensures Decision(major, minor, i, k) > 0 ==> Nearest(major, minor, i + 1, k + 1)
    ensures Decision(major, minor, i, k) <= 0 ==> Nearest(major, minor, i + 1, k)
  {
    var p := 2 * minor * i;
    var q := 2 * major * k;
    assert 2 * minor * (i + 1) == p + 2 * minor;
    assert major * (2 * k + 1) == q + major;
    assert 2 * major * (k + 1) == q + 2 * major;
  }

  /** The decision rule keeps the offset nearest to the ideal line: every
      offset the loops reach is within half a pixel of minor*i/major. */
  lemma {:induction false} OffsetNearest(major: nat, minor: nat, i: nat)
    requires 0 < major && minor <= major
    ensures Nearest(major, minor, i, Offset(major, minor, i))
  {
    if i > 0 {
      OffsetNearest(major, minor, i - 1);
      WalkDecision(major, minor, i - 1);
      NearestNext(major, minor, i - 1, Offset(major, minor, i - 1));
    }
  }

  /** At most one integer is nearest. */
  lemma NearestUnique(major: int, minor: int, i: int, k1: int, k2: int)
    requires 0 < major && Nearest(major, minor, i, k1) && Nearest(major, minor, i, k2)
    ensures k1 == k2
  {
    if k1 < k2 {
      MulMono(2 * major, k1 + 1, k2);
      assert false;
    } else if k2 < k1 {
      MulMono(2 * major, k2 + 1, k1);
      assert false;
    }
  }

  /** So the offset is exactly the nearest integer: Nearest holds of k if and
      only if k is the offset. */
  lemma OffsetIsNearest(major: nat, minor: nat, i: nat, k: int)
    requires 0 < major && minor <= major
    ensures Nearest(major, minor, i, k) <==> k == Offset(major, minor, i)
  {
    OffsetNearest(major, minor, i);
    if Nearest(major, minor, i, k) {
      NearestUnique(major, minor, i, k, Offset(major, minor, i));
    }
  }

  lemma DivBetween(n: int, d: int, q: int)
    requires d > 0 && d * q <= n < d * q + d
    ensures n / d == q
  {
    var r := n / d;
    assert n == d * r + n % d && 0 <= n % d < d;
    if r > q {
      assert d * (q + 1) == d * q + d;
      MulMono(d, q + 1, r);
      assert false;
    } else if r < q {
      assert d * (r + 1) == d * r + d;
      MulMono(d, r + 1, q);
      assert false;
    }
  }

  /** A closed form of the offset: minor*i/major rounded to the nearest
      integer, an exact half rounding down. */
  lemma OffsetClosedForm(major: nat, minor: nat, i: nat)
    requires 0 < major && minor <= major
    ensures Offset(major, minor, i) == (2 * minor * i + major - 1) / (2 * major)
  {
    var k := Offset(major, minor, i);
    OffsetNearest(major, minor, i);
    DivBetween(2 * minor * i + major - 1, 2 * major, k);
  }

  /** The offset moves by at most one per driving step. */
  lemma OffsetStep(major: nat, minor: nat, i: nat)
    ensures Offset(major, minor, i + 1) == Offset(major, minor, i) ||
            Offset(major, minor, i + 1) == Offset(major, minor, i) + 1
  {
  }

  /** The last pixel is the end point. */
  lemma OffsetEnd(major: nat, minor: nat)
    requires minor <= major
    ensures Offset(major, minor, major) == minor
  {
    if major > 0 {
      assert 2 * minor * major - 2 * major * minor == 0;
      OffsetIsNearest(major, minor, major, minor);
    } else {
      assert Offset(major, minor, 0) == 0;
    }
  }

  /** Along the segment the offset stays between the two endpoint values. */
  lemma OffsetBounds(major: nat, minor: nat, i: nat)
    requires minor <= major && i <= major
    ensures Offset(major, minor, i) <= minor
  {
    if major > 0 {
      var k := Offset(major, minor, i);
      OffsetNearest(major, minor, i);
      assert 2 * minor * i - 2 * major * k + major > 0;
      MulMono(minor, i, major);
      if k > minor {
        MulMono(major, minor + 1, k);
        assert false;
      }
    } else {
      assert Offset(major, minor, 0) == 0;
    }
  }

  /** With no minor extent the line runs straight along the driving axis. */
  lemma {:induction false} OffsetFlat(major: nat, i: int)
    ensures Walk(major, 0, i) == Step(0, 0 - major)
    ensures Offset(major, 0, i) == 0
    decreases i
  {
    if i > 0 {
      OffsetFlat(major, i - 1);
    }
  }

  /** The offset along a whole segment: it starts at 0, ends at minor, never
      passes minor and moves by 0 or 1 per step. */
  lemma OffsetProfile(major: nat, minor: nat)
    requires minor <= major
    ensures Offset(major, minor, 0) == 0 && Offset(major, minor, major) == minor
    ensures forall i :: 0 <= i <= major ==> Offset(major, minor, i) <= minor
    ensures forall i :: 0 < i <= major ==>
      Offset(major, minor, i) == Offset(major, minor, i - 1) || Offset(major, minor, i) == Offset(major, minor, i - 1) + 1
  {
    forall i | 0 <= i <= major
      ensures Offset(major, minor, i) <= minor
    {
      OffsetBounds(major, minor, i);
    }
    forall i | 0 < i <= major
      ensures Offset(major, minor, i) == Offset(major, minor, i - 1) || Offset(major, minor, i) == Offset(major, minor, i - 1) + 1
    {
      OffsetStep(major, minor, i - 1);
    }
    OffsetEnd(major, minor);
  }

  /** Every offset along the segment is the nearest integer to the ideal line. */
  lemma OffsetNearestAll(major: nat, minor: nat)
    requires 0 < major && minor <= major
    ensures forall i :: 0 <= i <= major ==> Nearest(major, minor, i, Offset(major, minor, i))
  {
    forall i | 0 <= i <= major
      ensures Nearest(major, minor, i, Offset(major, minor, i))
    {
      OffsetNearest(major, minor, i);
    }
  }
}
