/** The top and bottom edges of a border: the plain edge of corner, cycled
    fill and corner (renderHorizontalEdge), and the decorated edge with up to
    three texts laid into the fill (renderAnnotatedHorizontalEdge). */
module Horizontal {
  import opened Text
  import opened Allocation
  import opened Decoration
  import opened Geometry

  /** The fill loop terminates: it only runs for a positive width, and a
      fill glyph that is not empty (an empty one is drawn as a space) has a
      rune at least one column wide, so the counter grows once per cycle. */
  predicate Advancing(fill: seq<Rune>, width: int)
  {
    width <= 0 || fill == [] || MaxRuneWidth(fill) >= 1
  }

  /** How many of the `m` fill runes from position `j` of the cycle on are
      zero columns wide before the first wider one. */
  function ZeroRun(fill: seq<Rune>, j: nat, m: nat): (z: nat)
    requires fill != []
    ensures z <= m
    decreases m
  {
    if m == 0 || fill[j % |fill|].w >= 1 then 0 else 1 + ZeroRun(fill, j + 1, m - 1)
  }

  /** Looking further than the first wide rune changes nothing. */
  lemma {:induction false} ZeroRunSettles(fill: seq<Rune>, j: nat, m: nat, t: nat)
    requires fill != [] && t < m && fill[(j + t) % |fill|].w >= 1
    ensures ZeroRun(fill, j, m + 1) == ZeroRun(fill, j, m)
    decreases m
  {
    if fill[j % |fill|].w == 0 {
      assert t > 0;
      assert (j + 1) + (t - 1) == j + t;
      ZeroRunSettles(fill, j + 1, m - 1, t - 1);
    }
  }

  /** A zero-width rune brings the next wide rune one step closer. */
  lemma ZeroRunDecreases(fill: seq<Rune>, k: nat)
    requires fill != [] && MaxRuneWidth(fill) >= 1
    ensures fill[(k + 1) % |fill|].w == 0 ==> ZeroRun(fill, k + 2, |fill|) < ZeroRun(fill, k + 1, |fill|)
  {
    if fill[(k + 1) % |fill|].w >= 1 {
      return;
    }
    var n := |fill|;
    var p :| 0 <= p < n && fill[p].w >= 1;
    var t := CycleOffset(n, k + 2, p);
    if t == n - 1 {
      ModShift(k + 1 + n, n);
      assert false;
    }
    ZeroRunSettles(fill, k + 2, n - 1, t);
  }

  /** Every position of a cycle of length `n` is reached from `j` within
      `n` steps. */
  lemma CycleOffset(n: int, j: int, p: int) returns (t: int)
    requires 0 <= p < n
    ensures 0 <= t < n && (j + t) % n == p
  {
    var q := (p - j) / n;
    t := (p - j) % n;
    assert p - j == q * n + t;
    assert (-q) * n == -(q * n);
    ModUnique(j + t, n, -q, p);
  }

  /** The fill loop of renderHorizontalEdge from the state where `k` runes
      have been written and the column counter stands at `i`. After writing
      a rune the counter is advanced by the width of the rune that comes
      next in the cycle, not of the one just written. */
  function FillFrom(fill: seq<Rune>, k: nat, i: int, width: int): (r: seq<Rune>)
    requires fill != [] && Advancing(fill, width) && i >= 0
    ensures forall t :: 0 <= t < |r| ==> r[t] == fill[(k + t) % |fill|]
    decreases width - i, ZeroRun(fill, k + 1, |fill|)
  {
    if i >= width then []
    else
      var w := fill[(k + 1) % |fill|].w;
      ZeroRunDecreases(fill, k);
      var rest := FillFrom(fill, k + 1, i + w, width);
      assert forall t :: 1 <= t < 1 + |rest| ==> ([fill[k % |fill|]] + rest)[t] == rest[t - 1];
      [fill[k % |fill|]] + rest
  }

  /** The columns the counter advances over after `k` runes, in the next `m`
      steps of the loop. */
  function Advance(fill: seq<Rune>, k: nat, m: nat): int
    requires fill != []
  {
    if m == 0 then 0 else Advance(fill, k, m - 1) + fill[(k + m) % |fill|].w
  }

  lemma {:induction false} AdvanceShift(fill: seq<Rune>, k: nat, m: nat)
    requires fill != []
    ensures Advance(fill, k, m + 1) == fill[(k + 1) % |fill|].w + Advance(fill, k + 1, m)
  {
    if m > 0 {
      AdvanceShift(fill, k, m - 1);
      assert (k + 1) + m == k + (m + 1);
    }
  }

  /** The loop writes runes until the counter reaches the width and not one
      more: the counter was short of the width before the last rune was
      written and reaches it after. */
  lemma {:induction false} FillStopsAtWidth(fill: seq<Rune>, k: nat, i: int, width: int)
    requires fill != [] && Advancing(fill, width) && i >= 0
    decreases width - i, ZeroRun(fill, k + 1, |fill|)
    ensures var r := FillFrom(fill, k, i, width);
            i + Advance(fill, k, |r|) >= width &&
            (|r| > 0 ==> i + Advance(fill, k, |r| - 1) < width)
  {
    if i < width {
      ZeroRunDecreases(fill, k);
      var i' := i + fill[(k + 1) % |fill|].w;
      var rest := FillFrom(fill, k + 1, i', width);
      assert FillFrom(fill, k, i, width) == [fill[k % |fill|]] + rest;
      FillStopsAtWidth(fill, k + 1, i', width);
      AdvanceShift(fill, k, |rest|);
      if |rest| > 0 {
        AdvanceShift(fill, k, |rest| - 1);
      }
    }
  }

  /** With a fill one column per rune, exactly max(width - i, 0) runes are
      written. */
  lemma {:induction false} FillUnitCount(fill: seq<Rune>, k: nat, i: int, width: int)
    requires fill != [] && i >= 0
    requires forall t :: 0 <= t < |fill| ==> fill[t].w == 1
    decreases width - i
    ensures |FillFrom(fill, k, i, width)| == Max(width - i, 0)
  {
    if i < width {
      FillUnitCount(fill, k + 1, i + 1, width);
    }
  }

  /** renderHorizontalEdge: the left corner, fill runes cycled from the first
      (a single space when the fill is empty), then the right corner. */
  function HorizontalEdge(left: seq<Rune>, middle: seq<Rune>, right: seq<Rune>, width: int): (r: Text)
    requires Advancing(middle, width)
    ensures |r| >= |left| + |right|
    ensures r[..|left|] == Plain(left) && r[|r| - |right|..] == Plain(right)
    ensures forall t :: |left| <= t < |r| - |right| ==>
              r[t] == Glyph(OrSpace(middle)[(t - |left|) % |OrSpace(middle)|])
  {
    var fill := OrSpace(middle);
    var f := FillFrom(fill, 0, 0, width);
    var r := Plain(left + f + right);
    assert r[..|left|] == Plain(left);
    assert r[|r| - |right|..] == Plain(right);
    r
  }

  /** With a fill of one-column runes, the edge is `width` columns wide
      between its corners (none for a width below one). */
  lemma HorizontalEdgeWidth(left: seq<Rune>, middle: seq<Rune>, right: seq<Rune>, width: int)
    requires forall t :: 0 <= t < |middle| ==> middle[t].w == 1
    ensures Advancing(middle, width)
    ensures Width(HorizontalEdge(left, middle, right, width)) ==
            Width(Plain(left)) + Max(width, 0) + Width(Plain(right))
  {
    var fill := OrSpace(middle);
    var f := FillFrom(fill, 0, 0, width);
    assert HorizontalEdge(left, middle, right, width) == Plain(left + f + right);
    FillUnitCount(fill, 0, 0, width);
    UnitWidth(f);
    PlainWidth3(left, f, right);
  }

  lemma PlainWidth3(a: seq<Rune>, b: seq<Rune>, c: seq<Rune>)
    ensures Width(Plain(a + b + c)) == Width(Plain(a)) + Width(Plain(b)) + Width(Plain(c))
  {
    assert Plain(a + b + c) == Plain(a) + Plain(b) + Plain(c);
    WidthAppend(Plain(a) + Plain(b), Plain(c));
    WidthAppend(Plain(a), Plain(b));
  }

  lemma {:induction false} UnitWidth(rs: seq<Rune>)
    requires forall t :: 0 <= t < |rs| ==> rs[t].w == 1
    ensures Width(Plain(rs)) == |rs|
  {
    if rs != [] {
      assert Plain(rs)[1..] == Plain(rs[1..]);
      UnitWidth(rs[1..]);
    }
  }

  /** A decoration is written only when it takes up columns. */
  function Shown(d: Text): (r: Text)
    ensures Width(r) == Width(d)
  {
    if Width(d) > 0 then d else []
  }

  /** Styling that leaves the width of text unchanged. */
  ghost predicate KeepsWidth(paint: Text -> Text) { forall t :: Width(paint(t)) == Width(t) }

  /** A decorated edge: the painted left corner, the first text, `n1` fill
      pieces, the centre text, `n2` fill pieces, the last text and the painted
      right corner. Texts without width are left out. */
  function Lay(left: seq<Rune>, right: seq<Rune>, paint: Text -> Text, fill: Text,
               d0: Text, n1: nat, d1: Text, n2: nat, d2: Text): Text
  {
    paint(Plain(left)) + Shown(d0) + Repeat(fill, n1) + Shown(d1)
      + Repeat(fill, n2) + Shown(d2) + paint(Plain(right))
  }

  /** The width of an edge between its two painted corners. */
  function Interior(r: Text, left: seq<Rune>, right: seq<Rune>, paint: Text -> Text): int
  {
    Width(r) - Width(paint(Plain(left))) - Width(paint(Plain(right)))
  }

  /** Between its corners a laid-out edge with one-column fill is as wide as
      its texts and fill pieces together. */
  lemma LayWidth(left: seq<Rune>, right: seq<Rune>, paint: Text -> Text, fill: Text,
                 d0: Text, n1: nat, d1: Text, n2: nat, d2: Text)
    requires Width(fill) == 1
    ensures Interior(Lay(left, right, paint, fill, d0, n1, d1, n2, d2), left, right, paint) ==
            Width(d0) + n1 + Width(d1) + n2 + Width(d2)
  {
    WidthRepeat(fill, n1);
    WidthRepeat(fill, n2);
    var a, g := paint(Plain(left)), paint(Plain(right));
    var b, c, d, e, f := Shown(d0), Repeat(fill, n1), Shown(d1), Repeat(fill, n2), Shown(d2);
    WidthAppend(a + b + c + d + e + f, g);
    WidthAppend(a + b + c + d + e, f);
    WidthAppend(a + b + c + d, e);
    WidthAppend(a + b + c, d);
    WidthAppend(a + b, c);
    WidthAppend(a, b);
  }

  /** The fill piece of a decorated edge: the first rune of the fill glyph,
      painted. */
  function FillPiece(middle: seq<Rune>, paint: Text -> Text): Text
  {
    paint([Glyph(OrSpace(middle)[0])])
  }

  lemma FillPieceWidth(middle: seq<Rune>, paint: Text -> Text)
    requires KeepsWidth(paint) && OrSpace(middle)[0].w == 1
    ensures Width(FillPiece(middle, paint)) == 1
  {
    assert Width([Glyph(OrSpace(middle)[0])]) == 1;
  }

  /** The text of slot `k` of a decorated edge, given the edge width and the
      fill glyph (a space when empty). */
  function Decor(slots: Slots, k: nat, width: int, middle: seq<Rune>): Text
  {
    SlotText(slots, k, width, Plain(OrSpace(middle)))
  }

  /** renderAnnotatedHorizontalEdge as written. The decorations are written
      at their full width: the left one after the corner, the centre one
      after fill up to (width - c) / 2, the right one after fill up to
      width - 1 - r, and no width is allocated or truncated. */
  function AnnotatedAsWritten(left: seq<Rune>, middle: seq<Rune>, right: seq<Rune>,
                              slots: Slots, width: int, paint: Text -> Text): (r: Text)
    requires |slots| <= 3
    ensures IsPrefix(paint(Plain(left)), r) && IsSuffix(paint(Plain(right)), r)
    ensures IsPrefix(paint(Plain(left)) + Shown(Decor(slots, 0, width, middle)), r)
    ensures IsSuffix(Shown(Decor(slots, 2, width, middle)) + paint(Plain(right)), r)
  {
    var d0, d1, d2 := Decor(slots, 0, width, middle), Decor(slots, 1, width, middle), Decor(slots, 2, width, middle);
    var n := CountsAsWritten(Width(d0), Width(d1), Width(d2), width);
    LayFrame(left, right, paint, FillPiece(middle, paint), d0, n.0, d1, n.1, d2);
    Lay(left, right, paint, FillPiece(middle, paint), d0, n.0, d1, n.1, d2)
  }

  /** A laid-out edge opens with its painted left corner and first text and
      closes with its last text and painted right corner. */
  lemma LayFrame(left: seq<Rune>, right: seq<Rune>, paint: Text -> Text, fill: Text,
                 d0: Text, n1: nat, d1: Text, n2: nat, d2: Text)
    ensures var r := Lay(left, right, paint, fill, d0, n1, d1, n2, d2);
            && IsPrefix(paint(Plain(left)), r) && IsPrefix(paint(Plain(left)) + Shown(d0), r)
            && IsSuffix(paint(Plain(right)), r) && IsSuffix(Shown(d2) + paint(Plain(right)), r)
  {
    var a, g := paint(Plain(left)), paint(Plain(right));
    var b, f := Shown(d0), Shown(d2);
    var mid := Repeat(fill, n1) + Shown(d1) + Repeat(fill, n2);
    assert Lay(left, right, paint, fill, d0, n1, d1, n2, d2) == a + b + mid + f + g;
    Framing(a, b, mid, f, g);
  }

  lemma Framing<T>(a: seq<T>, b: seq<T>, mid: seq<T>, f: seq<T>, g: seq<T>)
    ensures var r := a + b + mid + f + g;
            IsPrefix(a, r) && IsPrefix(a + b, r) && IsSuffix(g, r) && IsSuffix(f + g, r)
  {
    var r := a + b + mid + f + g;
    assert r == (a + b) + mid + (f + g);
    assert r[..|a + b|] == a + b;
    assert r[..|a|] == (a + b)[..|a|];
    assert r[|r| - |f + g|..] == f + g;
    assert r[|r| - |g|..] == (f + g)[|f|..];
  }

  /** The texts of a decorated edge fit where the loops as written put them:
      the left text ends by the centre start (width - c) / 2 and the right
      text starts after the centre text ends. */
  predicate FitsAsWritten(slots: Slots, width: int, middle: seq<Rune>)
  {
    var lw, cw, rw := Width(Decor(slots, 0, width, middle)), Width(Decor(slots, 1, width, middle)),
                      Width(Decor(slots, 2, width, middle));
    var cs := GoDiv(width - cw, 2);
    lw <= cs && cs + cw + rw <= width
  }

  /** The fill pieces the two loops of the edge as written add: up to
      (width - c) / 2 after the left text, and up to width - 1 - r after the
      centre text. */
  function CountsAsWritten(lw: int, cw: int, rw: int, width: int): (nat, nat)
  {
    var centreStart := GoDiv(width - cw, 2);
    var rightStart := width - 1 - rw;
    (Max(0, centreStart - lw), Max(0, rightStart - (centreStart + cw) + 1))
  }

  /** As written, the interior of a decorated edge is never narrower than the
      requested width, and exactly as wide if and only if the left text ends
      before the centre text starts and the right text starts after the
      centre text ends. */
  lemma AnnotatedAsWrittenWidth(left: seq<Rune>, middle: seq<Rune>, right: seq<Rune>,
                                slots: Slots, width: int, paint: Text -> Text)
    requires |slots| <= 3
    requires KeepsWidth(paint) && OrSpace(middle)[0].w == 1
    ensures var inner := Interior(AnnotatedAsWritten(left, middle, right, slots, width, paint), left, right, paint);
            inner >= width && (inner == width <==> FitsAsWritten(slots, width, middle))
  {
    var d0, d1, d2 := Decor(slots, 0, width, middle), Decor(slots, 1, width, middle), Decor(slots, 2, width, middle);
    var n := CountsAsWritten(Width(d0), Width(d1), Width(d2), width);
    FillPieceWidth(middle, paint);
    LayWidth(left, right, paint, FillPiece(middle, paint), d0, n.0, d1, n.1, d2);
    OverlapArithmetic(Width(d0), Width(d1), Width(d2), width);
  }

  /** Fill pieces counted from fixed positions cover the gaps when the texts
      fit and add to the overlap when they do not. */
  lemma OverlapArithmetic(lw: int, cw: int, rw: int, width: int)
    ensures var n := CountsAsWritten(lw, cw, rw, width);
            var cs := GoDiv(width - cw, 2);
            var inner := lw + n.0 + cw + n.1 + rw;
            inner >= width && (inner == width <==> lw <= cs && cs + cw + rw <= width)
  {
  }

  /** The room the decorated edge leaves for fill on either side of the
      centre text, given the widths the three texts finally take. Without a
      centre text all fill goes between the left and right texts. */
  function Gaps(lw: int, cw: int, rw: int, width: int): (g: (nat, nat))
  {
    if cw > 0 then
      var cs := GoDiv(width - cw, 2);
      (Max(0, cs - lw), Max(0, width - rw - cs - cw))
    else (Max(0, width - lw - rw), 0)
  }

  /** renderAnnotatedHorizontalEdge as intended: the three texts are given
      widths by truncateWidths against the edge width and truncated to them,
      and the fill makes up exactly the columns they leave. */
  function AnnotatedEdge(left: seq<Rune>, middle: seq<Rune>, right: seq<Rune>,
                         slots: Slots, width: int, paint: Text -> Text): (r: Text)
    requires |slots| <= 3
    ensures IsPrefix(paint(Plain(left)), r) && IsSuffix(paint(Plain(right)), r)
  {
    var d0, d1, d2 := Decor(slots, 0, width, middle), Decor(slots, 1, width, middle), Decor(slots, 2, width, middle);
    var a := Allocate(Width(d0), Width(d1), Width(d2), width);
    var t0, t1, t2 := Truncate(d0, a.first), Truncate(d1, a.centre), Truncate(d2, a.last);
    var gaps := Gaps(Width(t0), Width(t1), Width(t2), width);
    LayFrame(left, right, paint, FillPiece(middle, paint), t0, gaps.0, t1, gaps.1, t2);
    Lay(left, right, paint, FillPiece(middle, paint), t0, gaps.0, t1, gaps.1, t2)
  }

  /** The decorated edge of either reading: as written, or as intended. */
  function Annotated(v: Reading, left: seq<Rune>, middle: seq<Rune>, right: seq<Rune>,
                     slots: Slots, width: int, paint: Text -> Text): Text
    requires |slots| <= 3
  {
    match v
    case AsWritten => AnnotatedAsWritten(left, middle, right, slots, width, paint)
    case Intended => AnnotatedEdge(left, middle, right, slots, width, paint)
  }

  /** Shrinking the centre text moves its start right by at most what it
      gives up, so its end never moves right. */
  lemma CentreShrinks(width: int, x: int, y: int)
    requires 0 <= x <= y <= width
    ensures GoDiv(width - y, 2) <= GoDiv(width - x, 2)
    ensures GoDiv(width - x, 2) + x <= GoDiv(width - y, 2) + y
  {
  }

  /** Texts no wider than a placed allocation leave non-negative gaps that
      make up the edge width exactly. */
  lemma GapsFill(w: Widths, lw: nat, cw: nat, rw: nat, width: int)
    requires Placed(w, width) && w.centre >= 0
    requires lw <= w.first && cw <= w.centre && rw <= w.last && w.centre <= width
    ensures var g := Gaps(lw, cw, rw, width);
            lw + g.0 + cw + g.1 + rw == width
  {
    if cw > 0 {
      CentreShrinks(width, cw, w.centre);
    }
  }

  /** For an edge of two or more columns with one-column fill and styling
      that keeps widths, the intended edge is exactly `width` columns wide
      between its corners, whatever the decorations. */
  lemma AnnotatedEdgeFits(left: seq<Rune>, middle: seq<Rune>, right: seq<Rune>,
                          slots: Slots, width: int, paint: Text -> Text)
    requires |slots| <= 3
    requires width >= 2 && KeepsWidth(paint) && OrSpace(middle)[0].w == 1
    ensures Interior(AnnotatedEdge(left, middle, right, slots, width, paint), left, right, paint) == width
  {
    var d0, d1, d2 := Decor(slots, 0, width, middle), Decor(slots, 1, width, middle), Decor(slots, 2, width, middle);
    var a := Allocate(Width(d0), Width(d1), Width(d2), width);
    AllocatePlaced(Width(d0), Width(d1), Width(d2), width);
    AllocateNonNegative(Width(d0), Width(d1), Width(d2), width);
    var t0, t1, t2 := Truncate(d0, a.first), Truncate(d1, a.centre), Truncate(d2, a.last);
    GapsFill(a, Width(t0), Width(t1), Width(t2), width);
    var gaps := Gaps(Width(t0), Width(t1), Width(t2), width);
    FillPieceWidth(middle, paint);
    LayWidth(left, right, paint, FillPiece(middle, paint), t0, gaps.0, t1, gaps.1, t2);
  }

  /** The decorated edge is laid out from the texts and gaps its steps
      compute; a lemma for evaluating it one step at a time. */
  lemma AnnotatedEdgeFrom(left: seq<Rune>, middle: seq<Rune>, right: seq<Rune>,
                          slots: Slots, width: int, paint: Text -> Text,
                          w: Widths, t0: Text, t1: Text, t2: Text, n1: nat, n2: nat)
    requires |slots| <= 3
    requires Allocate(Width(Decor(slots, 0, width, middle)), Width(Decor(slots, 1, width, middle)),
                      Width(Decor(slots, 2, width, middle)), width) == w
    requires Truncate(Decor(slots, 0, width, middle), w.first) == t0
    requires Truncate(Decor(slots, 1, width, middle), w.centre) == t1
    requires Truncate(Decor(slots, 2, width, middle), w.last) == t2
    requires Gaps(Width(t0), Width(t1), Width(t2), width) == (n1, n2)
    ensures AnnotatedEdge(left, middle, right, slots, width, paint) ==
            Lay(left, right, paint, FillPiece(middle, paint), t0, n1, t1, n2, t2)
  {
  }

  /** The edge as written is laid out from its texts at full width with the
      fill counts its loops compute. */
  lemma AnnotatedAsWrittenFrom(left: seq<Rune>, middle: seq<Rune>, right: seq<Rune>,
                               slots: Slots, width: int, paint: Text -> Text,
                               d0: Text, d1: Text, d2: Text, n1: nat, n2: nat)
    requires |slots| <= 3
    requires Decor(slots, 0, width, middle) == d0
    requires Decor(slots, 1, width, middle) == d1
    requires Decor(slots, 2, width, middle) == d2
    requires CountsAsWritten(Width(d0), Width(d1), Width(d2), width) == (n1, n2)
    ensures AnnotatedAsWritten(left, middle, right, slots, width, paint) ==
            Lay(left, right, paint, FillPiece(middle, paint), d0, n1, d1, n2, d2)
  {
  }
}
