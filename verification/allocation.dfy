/** Width allocation (truncateWidths): squeezes the widths of three
    decorations, anchored left, centre and right of an edge, into the edge's
    length.

    The source shrinks pairs of widths one unit at a time, always taking from
    the larger of the pair and from the second operand on a tie. The pairs a
    pair passes through are given in closed form by `Share`, and each loop of
    the source is modelled by `Settle`, whose contract says that the result is
    the first point on that path where the loop's guard fails. */
module Allocation {
  import opened Text

  /** Go's integer division, which truncates toward zero (Dafny's `/` is
      Euclidean). */
  function GoDiv(a: int, b: int): (q: int)
    requires b > 0
    ensures a >= 0 ==> 0 <= a - q * b < b
    ensures a < 0 ==> -b < a - q * b <= 0
  {
    if a >= 0 then a / b else -((-a) / b)
  }

  /** The first operand's share when the pair (a, b) has been shrunk to total
      `s` by taking one unit at a time from the larger operand, and from `b`
      when they are equal. Both shares never drop below the other by more than
      the rule allows: the larger is cut down to the smaller, after which they
      alternate, `a` keeping the odd unit. */
  function Share(a: int, b: int, s: int): (r: int)
    ensures r <= a
    ensures s <= a + b ==> s - r <= b
  {
    Min(a, Max(s - b, (s + 1) / 2))
  }

  /** One iteration of any of the source's loops. */
  function Step(a: int, b: int): (int, int)
  {
    if a > b then (a - 1, b) else (a, b - 1)
  }

  /** Walking the path one unit at a time is the larger-first rule: from the
      pair on the path at total `s`, one step of the rule reaches the pair on
      the path at total `s - 1`. */
  lemma ShareFollowsRule(a: int, b: int, s: int)
    requires s <= a + b
    ensures var x := Share(a, b, s);
            Step(x, s - x) == (Share(a, b, s - 1), s - 1 - Share(a, b, s - 1))
  {
  }

  /** The path starts at the pair itself. */
  lemma ShareStart(a: int, b: int)
    ensures Share(a, b, a + b) == a
  {
  }

  /** After one step of the rule the rest of the path is unchanged. */
  lemma ShareAfterStep(a: int, b: int, s: int)
    requires s < a + b
    ensures Share(Step(a, b).0, Step(a, b).1, s) == Share(a, b, s)
  {
  }

  /** The three loops of truncateWidths. */
  datatype Phase =
    | Sides        // centre empty: shrink left/right until they fit beside each other
    | LeftCentre   // shrink left/centre until left is clear of the centre
    | RightCentre  // shrink right/centre until right is clear of the centre

  /** The guard of the loop of `p` over the pair (a, b) for an edge of length `n`. */
  predicate Continues(p: Phase, n: int, a: int, b: int)
  {
    match p
    case Sides => a + b >= n
    case LeftCentre => a >= GoDiv(n, 2) - GoDiv(b + 1, 2)
    case RightCentre => a >= GoDiv(n + 1, 2) - GoDiv(b, 2)
  }

  /** Termination measure of the loops: non-negative while the guard holds,
      and decreased by every step. */
  function Measure(p: Phase, n: int, a: int, b: int): (m: int)
    ensures Continues(p, n, a, b) ==> m >= 0
  {
    match p
    case Sides => a + b - n
    case LeftCentre => 2 * a + b + 3 - 2 * GoDiv(n, 2)
    case RightCentre => 2 * a + b + 2 - 2 * GoDiv(n + 1, 2)
  }

  lemma MeasureDecreases(p: Phase, n: int, a: int, b: int)
    ensures Measure(p, n, Step(a, b).0, Step(a, b).1) < Measure(p, n, a, b)
  {
  }

  /** The loop of phase `p` run from the pair (a, b). */
  function Settle(p: Phase, n: int, a: int, b: int): (r: (int, int))
    decreases Measure(p, n, a, b)
    ensures !Continues(p, n, r.0, r.1)
  {
    if Continues(p, n, a, b) then
      MeasureDecreases(p, n, a, b);
      Settle(p, n, Step(a, b).0, Step(a, b).1)
    else
      (a, b)
  }

  /** The guard of `p` holds at every pair of the path from (a, b) whose
      total lies above `t`. */
  predicate GuardHoldsAbove(p: Phase, n: int, a: int, b: int, t: int)
  {
    forall s :: t < s <= a + b ==> Continues(p, n, Share(a, b, s), s - Share(a, b, s))
  }

  /** The stopping point is determined by the path: a pair on the path at
      which the guard fails, above which it holds all the way up, is where
      the loop stops. */
  lemma SettleAt(p: Phase, n: int, a: int, b: int, t: int)
    requires t <= a + b
    requires !Continues(p, n, Share(a, b, t), t - Share(a, b, t))
    requires GuardHoldsAbove(p, n, a, b, t)
    ensures Settle(p, n, a, b) == (Share(a, b, t), t - Share(a, b, t))
  {
    SettleOnPath(p, n, a, b);
    SettleStopsFirst(p, n, a, b);
    var res := Settle(p, n, a, b);
    StopPoint(p, n, a, b, res.0, res.1, t);
  }

  /** A pair on the path where the guard first fails is the pair at the
      total `t` where it first fails. */
  lemma StopPoint(p: Phase, n: int, a: int, b: int, x: int, y: int, t: int)
    requires OnPath(a, b, x, y) && !Continues(p, n, x, y) && GuardHoldsAbove(p, n, a, b, x + y)
    requires t <= a + b && !Continues(p, n, Share(a, b, t), t - Share(a, b, t))
    requires GuardHoldsAbove(p, n, a, b, t)
    ensures (x, y) == (Share(a, b, t), t - Share(a, b, t))
  {
    var u := x + y;
    assert (x, y) == (Share(a, b, u), u - Share(a, b, u));
    FirstFailureUnique(p, n, a, b, u, t);
  }

  /** The guard fails first at one point of the path at most. */
  lemma FirstFailureUnique(p: Phase, n: int, a: int, b: int, t1: int, t2: int)
    requires t1 <= a + b && t2 <= a + b
    requires !Continues(p, n, Share(a, b, t1), t1 - Share(a, b, t1))
    requires !Continues(p, n, Share(a, b, t2), t2 - Share(a, b, t2))
    requires GuardHoldsAbove(p, n, a, b, t1) && GuardHoldsAbove(p, n, a, b, t2)
    ensures t1 == t2
  {
  }

  /** Each loop only ever shrinks its pair. */
  lemma {:induction false} SettleShrinks(p: Phase, n: int, a: int, b: int)
    decreases Measure(p, n, a, b)
    ensures Settle(p, n, a, b).0 <= a && Settle(p, n, a, b).1 <= b
  {
    if Continues(p, n, a, b) {
      MeasureDecreases(p, n, a, b);
      SettleShrinks(p, n, Step(a, b).0, Step(a, b).1);
    }
  }

  /** Once the rule has taken one step from (a, b), the path below the new
      total is the path from (a, b). */
  lemma PathAfterStep(a: int, b: int, t: int)
    ensures forall s :: t <= s < a + b ==> Share(Step(a, b).0, Step(a, b).1, s) == Share(a, b, s)
  {
    forall s | t <= s < a + b
      ensures Share(Step(a, b).0, Step(a, b).1, s) == Share(a, b, s)
    {
      ShareAfterStep(a, b, s);
    }
  }

  /** (x, y) is the pair on the larger-first path from (a, b) whose total is
      x + y. */
  predicate OnPath(a: int, b: int, x: int, y: int)
  {
    x + y <= a + b && x == Share(a, b, x + y)
  }

  /** The loop of phase `p` stops on the larger-first path from (a, b). */
  lemma {:induction false} SettleOnPath(p: Phase, n: int, a: int, b: int)
    decreases Measure(p, n, a, b)
    ensures OnPath(a, b, Settle(p, n, a, b).0, Settle(p, n, a, b).1)
  {
    if Continues(p, n, a, b) {
      MeasureDecreases(p, n, a, b);
      var next := Step(a, b);
      SettleOnPath(p, n, next.0, next.1);
      var res := Settle(p, n, next.0, next.1);
      OnPathAfterStep(a, b, res.0, res.1);
      assert Settle(p, n, a, b) == res;
    } else {
      ShareStart(a, b);
      assert Settle(p, n, a, b) == (a, b);
    }
  }

  /** A pair on the path from one step below (a, b) is on the path from (a, b). */
  lemma OnPathAfterStep(a: int, b: int, x: int, y: int)
    requires OnPath(Step(a, b).0, Step(a, b).1, x, y)
    ensures OnPath(a, b, x, y)
  {
    ShareAfterStep(a, b, x + y);
  }

  /** The loop of phase `p` stops at the first pair on the larger-first path
      from (a, b) at which its guard fails: the guard fails at the result and
      held at every earlier pair of the path. */
  lemma {:induction false} SettleStopsFirst(p: Phase, n: int, a: int, b: int)
    decreases Measure(p, n, a, b)
    ensures !Continues(p, n, Settle(p, n, a, b).0, Settle(p, n, a, b).1)
    ensures GuardHoldsAbove(p, n, a, b, Settle(p, n, a, b).0 + Settle(p, n, a, b).1)
  {
    ShareStart(a, b);
    if Continues(p, n, a, b) {
      var next := Step(a, b);
      MeasureDecreases(p, n, a, b);
      SettleStopsFirst(p, n, next.0, next.1);
      var res := Settle(p, n, next.0, next.1);
      forall s | res.0 + res.1 < s <= a + b
        ensures Continues(p, n, Share(a, b, s), s - Share(a, b, s))
      {
        if s < a + b {
          ShareAfterStep(a, b, s);
        }
      }
    }
  }

  /** One unrolling of `Settle`: what a loop iteration relies on. */
  lemma SettleUnrolls(p: Phase, n: int, a: int, b: int)
    ensures Measure(p, n, Step(a, b).0, Step(a, b).1) < Measure(p, n, a, b)
    ensures Settle(p, n, a, b) ==
              if Continues(p, n, a, b) then Settle(p, n, Step(a, b).0, Step(a, b).1) else (a, b)
  {
    MeasureDecreases(p, n, a, b);
  }

  /** The three allocated widths: first (left or top), centre, last (right or
      bottom). */
  datatype Widths = Widths(first: int, centre: int, last: int)

  /** truncateWidths: each width is first capped at the length; an edge with
      no side decorations keeps its centre; an edge without a centre only
      shrinks its sides when they would touch; otherwise left and then right
      are shrunk against the centre. */
  function Allocate(l: int, c: int, r: int, n: int): (w: Widths)
    ensures w.first <= Min(l, n) && w.centre <= Min(c, n) && w.last <= Min(r, n)
  {
    var l1, c1, r1 := Min(l, n), Min(c, n), Min(r, n);
    if l1 == 0 && r1 == 0 then Widths(l1, c1, r1)
    else if c1 == 0 then
      if l1 == 0 || r1 == 0 || l1 + r1 < n then Widths(l1, c1, r1)
      else
        var sides := Settle(Sides, n, l1, r1);
        SettleShrinks(Sides, n, l1, r1);
        Widths(sides.0, c1, sides.1)
    else
      var left := Settle(LeftCentre, n, l1, c1);
      var right := Settle(RightCentre, n, r1, left.1);
      SettleShrinks(LeftCentre, n, l1, c1);
      SettleShrinks(RightCentre, n, r1, left.1);
      Widths(left.0, right.1, right.0)
  }

  /** Starting from non-negative widths on an edge of length two or more, no
      loop drives a width below zero: a loop only takes from an operand that
      is at least one, since with both operands zero its guard already fails. */
  lemma {:induction false} SettleNonNegative(p: Phase, n: int, a: int, b: int)
    requires n >= 2 && a >= 0 && b >= 0
    decreases Measure(p, n, a, b)
    ensures Settle(p, n, a, b).0 >= 0 && Settle(p, n, a, b).1 >= 0
  {
    if Continues(p, n, a, b) {
      MeasureDecreases(p, n, a, b);
      SettleNonNegative(p, n, Step(a, b).0, Step(a, b).1);
    }
  }

  /** Whether the three segments [0, first), the centred [cs, cs + centre)
      with cs = (n - centre) / 2, and [n - last, n) lie inside the edge and do
      not overlap. */
  predicate Placed(w: Widths, n: int)
  {
    var cs := GoDiv(n - w.centre, 2);
    && 0 <= w.first && 0 <= w.last && w.first + w.last <= n
    && (w.centre > 0 ==> w.first <= cs && cs + w.centre <= n - w.last)
  }

  /** Without side decorations the centre is only capped at the length. */
  lemma AllocateCentreOnly(l: int, c: int, r: int, n: int)
    requires Min(l, n) == 0 && Min(r, n) == 0
    ensures Allocate(l, c, r, n) == Widths(0, Min(c, n), 0)
  {
  }

  /** Without a centre, sides that would touch are shrunk, the larger first
      and the right one on a tie, until exactly one column separates them. */
  lemma AllocateSidesShrinkToFit(l: int, c: int, r: int, n: int)
    requires Min(c, n) == 0 && Min(l, n) > 0 && Min(r, n) > 0
    requires Min(l, n) + Min(r, n) >= n
    ensures var w := Allocate(l, c, r, n);
            && w.centre == 0
            && w.first + w.last == n - 1
            && w.first == Share(Min(l, n), Min(r, n), n - 1)
  {
    var l1, r1 := Min(l, n), Min(r, n);
    SettleOnPath(Sides, n, l1, r1);
    SettleStopsFirst(Sides, n, l1, r1);
    var res := Settle(Sides, n, l1, r1);
    if res.0 + res.1 == l1 + r1 {
      ShareStart(l1, r1);
    } else {
      assert Continues(Sides, n, Share(l1, r1, res.0 + res.1 + 1),
                       res.0 + res.1 + 1 - Share(l1, r1, res.0 + res.1 + 1));
    }
  }

  /** With a centre, left ends strictly below its half-space bound
      n/2 - (centre+1)/2 for the centre it was settled against, and right
      ends strictly below (n+1)/2 - centre/2 for the final centre, both in
      Go's truncating division; the centre only shrinks in between. */
  lemma AllocateCentreBounds(l: int, c: int, r: int, n: int)
    requires Min(c, n) != 0 && !(Min(l, n) == 0 && Min(r, n) == 0)
    ensures var w := Allocate(l, c, r, n);
            var mid := Settle(LeftCentre, n, Min(l, n), Min(c, n)).1;
            && w.first < GoDiv(n, 2) - GoDiv(mid + 1, 2)
            && w.last < GoDiv(n + 1, 2) - GoDiv(w.centre, 2)
            && w.centre <= mid <= Min(c, n)
  {
    var l1, c1, r1 := Min(l, n), Min(c, n), Min(r, n);
    SettleStopsFirst(LeftCentre, n, l1, c1);
    SettleShrinks(LeftCentre, n, l1, c1);
    var mid := Settle(LeftCentre, n, l1, c1).1;
    SettleStopsFirst(RightCentre, n, r1, mid);
    SettleShrinks(RightCentre, n, r1, mid);
  }

  /** For an edge of length two or more and non-negative widths, every
      allocated width is non-negative. */
  lemma AllocateNonNegative(l: int, c: int, r: int, n: int)
    requires n >= 2 && l >= 0 && c >= 0 && r >= 0
    ensures var w := Allocate(l, c, r, n);
            w.first >= 0 && w.centre >= 0 && w.last >= 0
  {
    var l1, c1, r1 := Min(l, n), Min(c, n), Min(r, n);
    if l1 == 0 && r1 == 0 {
    } else if c1 == 0 {
      SettleNonNegative(Sides, n, l1, r1);
    } else {
      SettleNonNegative(LeftCentre, n, l1, c1);
      var mid := Settle(LeftCentre, n, l1, c1).1;
      SettleNonNegative(RightCentre, n, r1, mid);
    }
  }

  /** For an edge of length two or more and non-negative widths, the three
      allocated segments fit the edge without overlapping. */
  lemma AllocatePlaced(l: int, c: int, r: int, n: int)
    requires n >= 2 && l >= 0 && c >= 0 && r >= 0
    ensures Placed(Allocate(l, c, r, n), n)
  {
    var l1, c1, r1 := Min(l, n), Min(c, n), Min(r, n);
    var w := Allocate(l, c, r, n);
    AllocateNonNegative(l, c, r, n);
    if l1 == 0 && r1 == 0 {
    } else if c1 == 0 {
      if !(l1 == 0 || r1 == 0 || l1 + r1 < n) {
        AllocateSidesShrinkToFit(l, c, r, n);
      }
    } else {
      AllocateCentreBounds(l, c, r, n);
      var mid := Settle(LeftCentre, n, l1, c1).1;
      SettleNonNegative(LeftCentre, n, l1, c1);
      assert w.first < n / 2 - (mid + 1) / 2;
      assert w.last < (n + 1) / 2 - w.centre / 2;
    }
  }

  /** "lll-cc-rrr": three long texts on ten columns. */
  lemma AllocateThreeOfTen()
    ensures Allocate(10, 10, 10, 10) == Widths(3, 2, 3)
  {
    SettleAt(LeftCentre, 10, 10, 10, 5);
    SettleAt(RightCentre, 10, 10, 2, 5);
  }

  /** "lll-ccc-rrr": three long texts on twelve columns. */
  lemma AllocateThreeOfTwelve()
    ensures Allocate(10, 10, 10, 12) == Widths(3, 3, 4)
  {
    SettleAt(LeftCentre, 12, 10, 10, 6);
    SettleAt(RightCentre, 12, 10, 3, 7);
  }

  /** "lllll-rrrr": two long side texts share the edge. */
  lemma AllocateTwoSides()
    ensures Allocate(10, 0, 10, 10) == Widths(5, 0, 4)
  {
    SettleAt(Sides, 10, 10, 10, 9);
  }

  /** "lllllll-rr": a short right text leaves the rest to the left. */
  lemma AllocateShortRight()
    ensures Allocate(10, 0, 2, 10) == Widths(7, 0, 2)
  {
    SettleAt(Sides, 10, 10, 2, 9);
  }

  /** "ll-rrrrrrr": a short left text leaves the rest to the right. */
  lemma AllocateShortLeft()
    ensures Allocate(2, 0, 20, 10) == Widths(2, 0, 7)
  {
    SettleAt(Sides, 10, 2, 20, 9);
  }

  /** "lll-cc----": no right text. */
  lemma AllocateNoRight()
    ensures Allocate(10, 10, 0, 10) == Widths(3, 2, 0)
  {
    SettleAt(LeftCentre, 10, 10, 10, 5);
  }

  /** "----cc-rrr": no left text. */
  lemma AllocateNoLeft()
    ensures Allocate(0, 10, 10, 10) == Widths(0, 3, 3)
  {
    SettleAt(LeftCentre, 10, 0, 10, 8);
    SettleAt(RightCentre, 10, 10, 8, 6);
  }

  /** Three texts each wider than a sixteen-column edge are given 5, 4 and 5
      columns. */
  lemma AllocateTruncAll()
    ensures Allocate(16, 18, 20, 16) == Widths(5, 4, 5)
  {
    SettleAt(LeftCentre, 16, 16, 16, 9);
    SettleAt(RightCentre, 16, 16, 4, 9);
  }

  /** On an edge of length one the widths can be driven negative: with
      Go's truncating division the left guard still holds at a centre of -1,
      where the left width, now the larger, is taken below zero. */
  lemma AllocateUnitLength()
    ensures Allocate(0, 1, 1, 1) == Widths(-1, -1, 0)
  {
    SettleAt(LeftCentre, 1, 0, 1, -2);
    SettleAt(RightCentre, 1, 1, -1, -1);
  }

  /** truncateWidths as the source writes it, with its loops. */
  method TruncateWidths(leftWidth: int, centerWidth: int, rightWidth: int, length: int)
    returns (l: int, c: int, r: int)
    ensures Widths(l, c, r) == Allocate(leftWidth, centerWidth, rightWidth, length)
  {
    l := Min(leftWidth, length);
    c := Min(centerWidth, length);
    r := Min(rightWidth, length);

    if l == 0 && r == 0 {
      return;
    }

    if c == 0 {
      if l == 0 || r == 0 || l + r < length {
        return;
      }
      l, r := ShrinkSides(l, r, length);
      return;
    }

    l, c := ShrinkLeftCentre(l, c, length);
    r, c := ShrinkRightCentre(r, c, length);
  }

  method ShrinkSides(l0: int, r0: int, length: int) returns (l: int, r: int)
    ensures (l, r) == Settle(Sides, length, l0, r0)
  {
    l, r := l0, r0;
    while l + r >= length
      invariant Settle(Sides, length, l, r) == Settle(Sides, length, l0, r0)
      decreases Measure(Sides, length, l, r)
    {
      SettleUnrolls(Sides, length, l, r);
      if l > r {
        l := l - 1;
      } else {
        r := r - 1;
      }
    }
  }

  method ShrinkLeftCentre(l0: int, c0: int, length: int) returns (l: int, c: int)
    ensures (l, c) == Settle(LeftCentre, length, l0, c0)
  {
    l, c := l0, c0;
    while l >= GoDiv(length, 2) - GoDiv(c + 1, 2)
      invariant Settle(LeftCentre, length, l, c) == Settle(LeftCentre, length, l0, c0)
      decreases Measure(LeftCentre, length, l, c)
    {
      SettleUnrolls(LeftCentre, length, l, c);
      if l > c {
        l := l - 1;
      } else {
        c := c - 1;
      }
    }
  }

  method ShrinkRightCentre(r0: int, c0: int, length: int) returns (r: int, c: int)
    ensures (r, c) == Settle(RightCentre, length, r0, c0)
  {
    r, c := r0, c0;
    while r >= GoDiv(length + 1, 2) - GoDiv(c, 2)
      invariant Settle(RightCentre, length, r, c) == Settle(RightCentre, length, r0, c0)
      decreases Measure(RightCentre, length, r, c)
    {
      SettleUnrolls(RightCentre, length, r, c);
      if r > c {
        r := r - 1;
      } else {
        c := c - 1;
      }
    }
  }
}
