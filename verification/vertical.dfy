/** The left and right sides of a border: the column of glyphs drawn beside
    the content rows, and the decorations laid over it (renderVerticalEdge). */
module Vertical {
  import opened Text
  import opened Allocation
  import opened Decoration
  import opened Segmentation

  /** Whole copies of `glyph` appended until there are at least `n` runes,
      as applyBorder builds the rune column of a side. */
  function Copies(glyph: seq<Rune>, n: int): (rs: seq<Rune>)
    requires glyph != []
    ensures |rs| >= n
    decreases n
  {
    if n <= 0 then [] else glyph + Copies(glyph, n - |glyph|)
  }

  /** The copies cycle through the glyph's runes from the first. */
  lemma {:induction false} CopiesAt(glyph: seq<Rune>, n: int, k: int)
    requires glyph != [] && 0 <= k < |Copies(glyph, n)|
    ensures Copies(glyph, n)[k] == glyph[k % |glyph|]
    decreases n
  {
    if k >= |glyph| {
      CopiesAt(glyph, n - |glyph|, k - |glyph|);
      ModShift(k, |glyph|);
    }
  }

  /** One row of a side per content row: the runes of the side's glyph in
      turn, starting again from the first when they run out. */
  function SideColumn(glyph: seq<Rune>, n: nat): (col: seq<Text>)
    requires glyph != []
    ensures |col| == n
    ensures forall i :: 0 <= i < n ==> col[i] == Plain([glyph[i % |glyph|]])
  {
    var rs := Copies(glyph, n);
    forall i | 0 <= i < n
      ensures rs[i] == glyph[i % |glyph|]
    {
      CopiesAt(glyph, n, i);
    }
    seq(n, i requires 0 <= i < n => Plain([rs[i]]))
  }

  /** Go's copy into edge[at:]: as many units as fit replace the rows from
      `at` on; the others are dropped. */
  function Overwrite(edge: seq<Text>, at: int, units: seq<Text>): (r: seq<Text>)
    requires 0 <= at <= |edge|
    ensures |r| == |edge|
    ensures forall i :: 0 <= i < |edge| ==>
              r[i] == if at <= i < at + |units| then units[i - at] else edge[i]
  {
    var n := Min(|units|, |edge| - at);
    edge[..at] + units[..n] + edge[at + n..]
  }

  /** The row where the centre decoration starts. */
  function CentreStart(h: int, c: int): int
    requires 0 < c <= h
  {
    GoDiv(h - c, 2)
  }

  /** splitStyledString in either reading: as written, each unit loses the
      escape sequences after the visible text; as intended, it keeps them. */
  function Units(v: Reading, t: Text): seq<Text>
  {
    match v
    case AsWritten => SplitAsWritten(t)
    case Intended => SplitStyled(t)
  }

  /** The three decorations, already truncated to their allocated widths and
      split into one unit per row, laid over the side in order: the first from the top row, the centre
      from the middle, the last ending at the bottom row. A later one
      overwrites an earlier one. */
  function Decorate(edge: seq<Text>, w: Widths, u0: seq<Text>, u1: seq<Text>, u2: seq<Text>): (r: seq<Text>)
    requires w.first <= |edge| && w.centre <= |edge| && w.last <= |edge|
    ensures |r| == |edge|
    ensures Placed(r, edge, w, u0, u1, u2)
  {
    var h := |edge|;
    var e1 := OverwriteIf(w.first > 0, edge, 0, u0);
    var e2 := OverwriteIf(w.centre > 0, e1, if w.centre > 0 then CentreStart(h, w.centre) else 0, u1);
    OverwriteIf(w.last > 0, e2, h - w.last, u2)
  }

  /** Row by row, `r` is the side `edge` with the units laid over it: a row
      in the last decoration's range (ending at the bottom) shows its unit,
      else a row in the centre range (from the middle) shows that one, else a
      row in the first range (from the top) shows that one, else the row keeps
      the glyph. A range only exists when its allocated width is positive. */
  predicate Placed(r: seq<Text>, edge: seq<Text>, w: Widths, u0: seq<Text>, u1: seq<Text>, u2: seq<Text>)
    requires w.first <= |edge| && w.centre <= |edge| && w.last <= |edge|
  {
    |r| == |edge| &&
    forall i :: 0 <= i < |edge| ==>
      r[i] == if w.last > 0 && |edge| - w.last <= i < |edge| - w.last + |u2|
              then u2[i - (|edge| - w.last)]
              else if w.centre > 0 && CentreStart(|edge|, w.centre) <= i < CentreStart(|edge|, w.centre) + |u1|
              then u1[i - CentreStart(|edge|, w.centre)]
              else if w.first > 0 && i < |u0|
              then u0[i]
              else edge[i]
  }

  /** `Overwrite` when `on` holds, the side unchanged otherwise: one of the
      guarded copies of renderVerticalEdge. */
  function OverwriteIf(on: bool, edge: seq<Text>, at: int, units: seq<Text>): (r: seq<Text>)
    requires on ==> 0 <= at <= |edge|
    ensures |r| == |edge|
    ensures forall i :: 0 <= i < |edge| ==>
              r[i] == if on && at <= i < at + |units| then units[i - at] else edge[i]
  {
    if on then Overwrite(edge, at, units) else edge
  }

  /** The per-row transformer applied to every row, each result cut back to
      the width the row had before. */
  function Transform(edge: seq<Text>, f: (int, int, Text) -> Text): (r: seq<Text>)
    ensures |r| == |edge|
    ensures forall i :: 0 <= i < |edge| ==> Width(r[i]) <= Width(edge[i])
    ensures forall i :: 0 <= i < |edge| && Width(f(i, |edge|, edge[i])) <= Width(edge[i]) ==>
              r[i] == f(i, |edge|, edge[i])
  {
    var r := seq(|edge|, i requires 0 <= i < |edge| => Truncate(f(i, |edge|, edge[i]), Width(edge[i])));
    assert forall i :: 0 <= i < |edge| ==> r[i] == Truncate(f(i, |edge|, edge[i]), Width(edge[i]));
    r
  }

  /** The text slot `k` gives a side of `h` rows whose glyph is `middle`. */
  function SideDecor(slots: Slots, k: nat, h: int, middle: seq<Rune>): Text
  {
    SlotText(slots, k, h, Plain(middle))
  }

  /** The side with its decorations laid over it: they are given widths by
      truncateWidths against the height of the side, truncated to them and
      split into one piece per row. */
  function Laid(v: Reading, edge: seq<Text>, middle: seq<Rune>, slots: Slots): (r: seq<Text>)
    ensures |r| == |edge|
  {
    var h := |edge|;
    var d0, d1, d2 := SideDecor(slots, 0, h, middle), SideDecor(slots, 1, h, middle), SideDecor(slots, 2, h, middle);
    var w := Allocate(Width(d0), Width(d1), Width(d2), h);
    Decorate(edge, w, Units(v, Truncate(d0, w.first)), Units(v, Truncate(d1, w.centre)), Units(v, Truncate(d2, w.last)))
  }

  /** renderVerticalEdge: the decorations laid over the side, then the
      per-row transformer, if any. */
  function VerticalEdge(v: Reading, edge: seq<Text>, middle: seq<Rune>, slots: Slots): (r: seq<Text>)
    requires |slots| <= 3
    ensures |r| == |edge|
    ensures forall i :: 0 <= i < |edge| ==> Width(r[i]) <= Width(Laid(v, edge, middle, slots)[i])
  {
    var e := Laid(v, edge, middle, slots);
    match Transformer(slots)
    case None => e
    case Some(f) => Transform(e, f)
  }

  /** A row no decoration reaches keeps its glyph. */
  lemma DecorateKeepsUncovered(edge: seq<Text>, w: Widths, u0: seq<Text>, u1: seq<Text>, u2: seq<Text>, i: int)
    requires w.first <= |edge| && w.centre <= |edge| && w.last <= |edge|
    requires 0 <= i < |edge|
    requires w.first <= 0 || i >= |u0|
    requires w.centre <= 0 || !(CentreStart(|edge|, w.centre) <= i < CentreStart(|edge|, w.centre) + |u1|)
    requires w.last <= 0 || i < |edge| - w.last
    ensures Decorate(edge, w, u0, u1, u2)[i] == edge[i]
  {
  }

  /** The last decoration is drawn over everything else in the rows it
      occupies. */
  lemma DecorateLastWins(edge: seq<Text>, w: Widths, u0: seq<Text>, u1: seq<Text>, u2: seq<Text>, k: int)
    requires w.first <= |edge| && w.centre <= |edge| && 0 < w.last <= |edge|
    requires 0 <= k < Min(w.last, |u2|)
    ensures Decorate(edge, w, u0, u1, u2)[|edge| - w.last + k] == u2[k]
  {
  }

  /** The first decoration shows in the rows it occupies when no other
      decoration is present. */
  lemma DecorateFirstAlone(edge: seq<Text>, w: Widths, u0: seq<Text>, u1: seq<Text>, u2: seq<Text>, k: int)
    requires 0 < w.first <= |edge| && w.centre <= 0 && w.last <= 0
    requires 0 <= k < Min(|edge|, |u0|)
    ensures Decorate(edge, w, u0, u1, u2)[k] == u0[k]
  {
  }

  /** With no decorations the side is left as it is. */
  lemma VerticalEdgeUndecorated(v: Reading, edge: seq<Text>, middle: seq<Rune>)
    ensures VerticalEdge(v, edge, middle, []) == edge
  {
    var h := |edge|;
    assert Allocate(0, 0, 0, h) == Widths(0, 0, 0);
  }

  /** A per-row transformer never widens a row; without one the side is
      the laid-out side. */
  lemma VerticalEdgeTransformNarrows(v: Reading, edge: seq<Text>, middle: seq<Rune>, slots: Slots, i: int)
    requires |slots| <= 3 && 0 <= i < |edge|
    ensures Width(VerticalEdge(v, edge, middle, slots)[i]) <= Width(Laid(v, edge, middle, slots)[i])
    ensures Transformer(slots).None? ==> VerticalEdge(v, edge, middle, slots) == Laid(v, edge, middle, slots)
  {
  }

  /** A string of one-column letters alone in the first slot, on a side at
      least as tall as it is long: its letters take the top rows one each and
      every other row keeps its glyph. */
  lemma VerticalEdgeLetters(v: Reading, edge: seq<Text>, middle: seq<Rune>, s: string, i: int)
    requires 0 < |s| <= |edge| && 0 <= i < |edge|
    ensures VerticalEdge(v, edge, middle, [Some(Lit(Ascii(s)))])[i] ==
            if i < |s| then Letter(s[i]) else edge[i]
  {
    var h := |edge|;
    var d := Ascii(s);
    var slots := [Some(Lit(d))];
    WidthPlainNarrow(s);
    assert SideDecor(slots, 0, h, middle) == d;
    assert SideDecor(slots, 1, h, middle) == [] && SideDecor(slots, 2, h, middle) == [];
    assert Allocate(|s|, 0, 0, h) == Widths(|s|, 0, 0);
    assert Truncate(d, |s|) == d;
    assert Transformer(slots) == None;
    SplitAscii(s);
    var units := Units(v, d);
    assert |units| == |s|;
    if i < |s| {
      DecorateFirstAlone(edge, Widths(|s|, 0, 0), units, Units(v, []), Units(v, []), i);
    } else {
      DecorateKeepsUncovered(edge, Widths(|s|, 0, 0), units, Units(v, []), Units(v, []), i);
    }
  }
}
