/** Border geometry: the Border record, the width each edge contributes to
    the frame, and the normalisation applyBorder performs before drawing:
    defaulting empty sides, suppressing corners of disabled sides and cutting
    every corner to one rune. */
module Geometry {
  import opened Text

  /** The glyphs of a border; an empty glyph means nothing on that position.
      The middle glyphs serve callers that compose grids and are not drawn
      by a single box. */
  datatype Border = Border(
    top: seq<Rune>, bottom: seq<Rune>, left: seq<Rune>, right: seq<Rune>,
    topLeft: seq<Rune>, topRight: seq<Rune>, bottomLeft: seq<Rune>, bottomRight: seq<Rune>,
    middleLeft: seq<Rune>, middleRight: seq<Rune>, middle: seq<Rune>,
    middleTop: seq<Rune>, middleBottom: seq<Rune>)

  /** The border with no glyphs at all. */
  const NoBorder := Border([], [], [], [], [], [], [], [], [], [], [], [], [])

  /** A box-drawing glyph one column wide. */
  function Box(c: char): seq<Rune> { [Rune(c, 1)] }

  /** The standard single-line border. */
  const NormalBorder := Border(
    [Rune('─', 1)], [Rune('─', 1)], [Rune('│', 1)], [Rune('│', 1)],
    [Rune('┌', 1)], [Rune('┐', 1)], [Rune('└', 1)], [Rune('┘', 1)],
    [Rune('├', 1)], [Rune('┤', 1)], [Rune('┼', 1)], [Rune('┬', 1)], [Rune('┴', 1)])

  /** Which sides of the box are drawn. */
  datatype Sides = Sides(top: bool, right: bool, bottom: bool, left: bool)

  predicate AnySide(s: Sides) { s.top || s.right || s.bottom || s.left }

  /** maxRuneWidth: the width of the widest rune of a glyph, 0 for an empty
      glyph. A glyph is laid out one rune per cell, so its runes compete for
      one cell rather than adding up. */
  function MaxRuneWidth(g: seq<Rune>): (w: nat)
    ensures forall k :: 0 <= k < |g| ==> g[k].w <= w
    ensures g == [] ==> w == 0
    ensures g != [] ==> exists k :: 0 <= k < |g| && g[k].w == w
  {
    if g == [] then 0
    else
      var rest := MaxRuneWidth(g[1..]);
      assert forall k :: 1 <= k < |g| ==> g[k] == g[1..][k - 1];
      if g[0].w >= rest then g[0].w else rest
  }

  /** getBorderEdgeWidth: the widest rune over the glyphs of one edge, 0 when
      all are empty. */
  function EdgeWidth(parts: seq<seq<Rune>>): (w: nat)
    ensures forall k :: 0 <= k < |parts| ==> MaxRuneWidth(parts[k]) <= w
    ensures w == 0 || exists k :: 0 <= k < |parts| && MaxRuneWidth(parts[k]) == w
  {
    if parts == [] then 0
    else
      var rest := EdgeWidth(parts[1..]);
      assert forall k :: 1 <= k < |parts| ==> parts[k] == parts[1..][k - 1];
      Max(rest, MaxRuneWidth(parts[0]))
  }

  function TopSize(b: Border): nat { EdgeWidth([b.topLeft, b.top, b.topRight]) }
  function RightSize(b: Border): nat { EdgeWidth([b.topRight, b.right, b.bottomRight]) }
  function BottomSize(b: Border): nat { EdgeWidth([b.bottomLeft, b.bottom, b.bottomRight]) }
  function LeftSize(b: Border): nat { EdgeWidth([b.topLeft, b.left, b.bottomLeft]) }

  /** An edge's size is the widest rune among its corners and fill. */
  lemma EdgeWidthOfThree(x: seq<Rune>, y: seq<Rune>, z: seq<Rune>)
    ensures EdgeWidth([x, y, z]) == Max(MaxRuneWidth(x), Max(MaxRuneWidth(y), MaxRuneWidth(z)))
  {
    assert [z][1..] == [];
    assert EdgeWidth([z]) == MaxRuneWidth(z);
    assert [y, z][1..] == [z];
    assert EdgeWidth([y, z]) == Max(MaxRuneWidth(z), MaxRuneWidth(y));
    assert [x, y, z][1..] == [y, z];
  }

  /** A border with only a nine-rune left glyph is one column wide on the
      left and contributes nothing above, below or on the right: only the
      widest rune counts, not the glyph's length. */
  lemma CustomLeftBorderSizes()
    ensures var b := NoBorder.(left := Narrow("123456789"));
            LeftSize(b) + RightSize(b) == 1 && TopSize(b) + BottomSize(b) == 0
  {
    var b := NoBorder.(left := Narrow("123456789"));
    EdgeWidthOfThree(b.topLeft, b.left, b.bottomLeft);
    EdgeWidthOfThree(b.topRight, b.right, b.bottomRight);
    EdgeWidthOfThree(b.topLeft, b.top, b.topRight);
    EdgeWidthOfThree(b.bottomLeft, b.bottom, b.bottomRight);
    assert MaxRuneWidth(b.left) == 1;
  }

  /** maxRuneWidth of the empty glyph is 0, and the standard border is one
      column on every side. */
  lemma SizeFixtures()
    ensures MaxRuneWidth([]) == 0
    ensures TopSize(NormalBorder) == 1 && RightSize(NormalBorder) == 1
    ensures BottomSize(NormalBorder) == 1 && LeftSize(NormalBorder) == 1
  {
    var b := NormalBorder;
    EdgeWidthOfThree(b.topLeft, b.left, b.bottomLeft);
    EdgeWidthOfThree(b.topRight, b.right, b.bottomRight);
    EdgeWidthOfThree(b.topLeft, b.top, b.topRight);
    EdgeWidthOfThree(b.bottomLeft, b.bottom, b.bottomRight);
  }

  /** getFirstRuneAsString on runes: the glyph cut to its first rune. */
  function FirstRune(g: seq<Rune>): (r: seq<Rune>)
    ensures g == [] ==> r == []
    ensures g != [] ==> r == [g[0]]
  {
    if g == [] then g else g[..1]
  }

  /** One corner after normalisation. On a drawn edge an empty corner next
      to a drawn side is filled with a space and a corner next to a side that
      is not drawn is removed; on an edge that is not drawn the corner is left
      alone. Either way the result is cut to its first rune. */
  function Corner(g: seq<Rune>, edgeDrawn: bool, sideDrawn: bool): seq<Rune>
  {
    FirstRune(if !edgeDrawn then g else if sideDrawn then OrSpace(g) else [])
  }

  /** The normalisation applyBorder performs on its border before drawing. */
  function Normalize(b: Border, s: Sides): (nb: Border)
    ensures nb.top == b.top && nb.bottom == b.bottom
    ensures nb.left == (if s.left then OrSpace(b.left) else b.left)
    ensures nb.right == (if s.right then OrSpace(b.right) else b.right)
    // A drawn edge has a corner exactly where the adjacent side is drawn.
    ensures s.top ==> (nb.topLeft != [] <==> s.left) && (nb.topRight != [] <==> s.right)
    ensures s.bottom ==> (nb.bottomLeft != [] <==> s.left) && (nb.bottomRight != [] <==> s.right)
    // Every corner is empty or a single rune, and a kept corner is its glyph's first rune.
    ensures |nb.topLeft| <= 1 && |nb.topRight| <= 1 && |nb.bottomLeft| <= 1 && |nb.bottomRight| <= 1
    ensures nb.topLeft != [] ==> nb.topLeft == FirstRune(OrSpace(b.topLeft))
    ensures nb.topRight != [] ==> nb.topRight == FirstRune(OrSpace(b.topRight))
    ensures nb.bottomLeft != [] ==> nb.bottomLeft == FirstRune(OrSpace(b.bottomLeft))
    ensures nb.bottomRight != [] ==> nb.bottomRight == FirstRune(OrSpace(b.bottomRight))
    // The corners of an edge that is not drawn are only cut to one rune.
    ensures !s.top ==> nb.topLeft == FirstRune(b.topLeft) && nb.topRight == FirstRune(b.topRight)
    ensures !s.bottom ==> nb.bottomLeft == FirstRune(b.bottomLeft) && nb.bottomRight == FirstRune(b.bottomRight)
    ensures nb.middleLeft == b.middleLeft && nb.middleRight == b.middleRight && nb.middle == b.middle
    ensures nb.middleTop == b.middleTop && nb.middleBottom == b.middleBottom
  {
    b.(left := if s.left then OrSpace(b.left) else b.left,
       right := if s.right then OrSpace(b.right) else b.right,
       topLeft := Corner(b.topLeft, s.top, s.left),
       topRight := Corner(b.topRight, s.top, s.right),
       bottomLeft := Corner(b.bottomLeft, s.bottom, s.left),
       bottomRight := Corner(b.bottomRight, s.bottom, s.right))
  }
}
