/** applyBorder: the content split into lines, the border normalised for the
    sides that are drawn, and the block assembled from the top edge, one row
    per line between the side columns, and the bottom edge. Colouring is a
    parameter: one painter per side stands for styleBorder with that side's
    colours. */
module Assembly {
  import opened Text
  import opened Geometry
  import opened Decoration
  import opened Horizontal
  import opened Vertical
  import opened Segmentation

  /** The content split at every line separator. */
  function SplitLines(t: Text): (ls: seq<Text>)
    ensures |ls| >= 1
    ensures forall k :: 0 <= k < |ls| ==> NL !in ls[k]
    decreases |t|
  {
    if t == [] then [[]]
    else
      var rest := SplitLines(t[1..]);
      if t[0] == NL then [[]] + rest
      else
        assert NL !in [t[0]] + rest[0];
        [[t[0]] + rest[0]] + rest[1..]
  }

  /** Lines joined with a line separator between each two. */
  function Join(ls: seq<Text>): Text
    requires |ls| >= 1
    decreases |ls|
  {
    if |ls| == 1 then ls[0] else ls[0] + [NL] + Join(ls[1..])
  }

  /** Joining the lines of a text gives the text back. */
  lemma {:induction false} JoinSplit(t: Text)
    ensures Join(SplitLines(t)) == t
    decreases |t|
  {
    if t != [] {
      var rest := SplitLines(t[1..]);
      JoinSplit(t[1..]);
      if t[0] == NL {
        assert ([[]] + rest)[1..] == rest;
      } else if |rest| > 1 {
        var ls := [[t[0]] + rest[0]] + rest[1..];
        assert ls[1..] == rest[1..];
        assert Join(rest) == rest[0] + [NL] + Join(rest[1..]);
      }
    }
  }

  lemma {:induction false} SplitNoBreak(a: Text, tail: Text)
    requires NL !in a
    ensures var s := SplitLines(tail);
            SplitLines(a + tail) == [a + s[0]] + s[1..]
    decreases |a|
  {
    var s := SplitLines(tail);
    if a != [] {
      assert (a + tail)[0] == a[0] && a[0] != NL;
      assert (a + tail)[1..] == a[1..] + tail;
      SplitNoBreak(a[1..], tail);
      var rest := SplitLines(a[1..] + tail);
      assert rest == [a[1..] + s[0]] + s[1..];
      assert rest[1..] == s[1..] by { assert ([a[1..] + s[0]] + s[1..])[1..] == s[1..]; }
      assert [a[0]] + (a[1..] + s[0]) == a + s[0];
    } else {
      assert a + tail == tail;
      assert a + s[0] == s[0];
      assert [s[0]] + s[1..] == s;
    }
  }

  /** Splitting joined lines that hold no separator gives the lines back. */
  lemma {:induction false} SplitJoin(ls: seq<Text>)
    requires |ls| >= 1
    requires forall k :: 0 <= k < |ls| ==> NL !in ls[k]
    ensures SplitLines(Join(ls)) == ls
    decreases |ls|
  {
    if |ls| == 1 {
      SplitNoBreak(ls[0], []);
      assert ls[0] + [] == ls[0];
    } else {
      var tail := Join(ls[1..]);
      SplitJoin(ls[1..]);
      assert ([NL] + tail)[1..] == tail;
      assert SplitLines([NL] + tail) == [[]] + ls[1..];
      assert ls[0] + [NL] + tail == ls[0] + ([NL] + tail);
      SplitNoBreak(ls[0], [NL] + tail);
      assert ls[0] + [] == ls[0];
    }
  }

  /** The width of the widest line. */
  function MaxWidth(ls: seq<Text>): (m: nat)
    ensures forall k :: 0 <= k < |ls| ==> Width(ls[k]) <= m
    ensures ls != [] ==> exists k :: 0 <= k < |ls| && Width(ls[k]) == m
    ensures ls == [] ==> m == 0
  {
    if ls == [] then 0
    else
      var rest := MaxWidth(ls[1..]);
      assert forall k :: 1 <= k < |ls| ==> ls[k] == ls[1..][k - 1];
      Max(Width(ls[0]), rest)
  }

  /** The decorations of each side. */
  datatype Decorations = Decorations(top: Slots, right: Slots, bottom: Slots, left: Slots)

  const NoDecorations := Decorations([], [], [], [])

  predicate DecorationsFit(d: Decorations)
  {
    |d.top| <= 3 && |d.right| <= 3 && |d.bottom| <= 3 && |d.left| <= 3
  }

  /** styleBorder with the colours of each side. */
  datatype Painters = Painters(top: Text -> Text, right: Text -> Text, bottom: Text -> Text, left: Text -> Text)

  /** A horizontal edge: decorated when it has decorations, plain otherwise.
      The two readings part only on decorated edges. */
  function EdgeText(v: Reading, left: seq<Rune>, middle: seq<Rune>, right: seq<Rune>, slots: Slots, width: int,
                    paint: Text -> Text): (e: Text)
    requires |slots| <= 3 && (slots == [] ==> Advancing(middle, width))
    ensures slots != [] ==> IsPrefix(paint(Plain(left)), e) && IsSuffix(paint(Plain(right)), e)
  {
    if slots != [] then Annotated(v, left, middle, right, slots, width, paint)
    else HorizontalEdge(left, middle, right, width)
  }

  /** The fill loops of the drawn horizontal edges make progress. */
  predicate EdgesAdvance(b: Border, s: Sides, d: Decorations, width: int)
  {
    && (s.top && d.top == [] ==> Advancing(b.top, width))
    && (s.bottom && d.bottom == [] ==> Advancing(b.bottom, width))
  }

  /** One side column of `n` rows, decorated when it has decorations. */
  function Column(v: Reading, glyph: seq<Rune>, n: nat, slots: Slots): (col: seq<Text>)
    requires glyph != [] && |slots| <= 3
    ensures |col| == n
    ensures slots == [] ==> col == SideColumn(glyph, n)
  {
    var c := SideColumn(glyph, n);
    if slots != [] then VerticalEdge(v, c, glyph, slots) else c
  }

  /** The column of a side, or empty rows when that side is not drawn. */
  function SideRows(v: Reading, drawn: bool, glyph: seq<Rune>, n: nat, slots: Slots): (col: seq<Text>)
    requires |slots| <= 3 && (drawn ==> glyph != [])
    ensures |col| == n
  {
    if drawn then Column(v, glyph, n, slots) else seq(n, _ => NoText)
  }

  /** One content row between its painted side pieces. */
  function Row(line: Text, l: Text, r: Text, s: Sides, p: Painters): Text
  {
    (if s.left then p.left(l) else []) + line + (if s.right then p.right(r) else [])
  }

  /** The content rows between the side columns. */
  function Rows(v: Reading, lines: seq<Text>, b: Border, s: Sides, d: Decorations, p: Painters): (rows: seq<Text>)
    requires DecorationsFit(d)
    requires s.left ==> b.left != []
    requires s.right ==> b.right != []
    ensures |rows| == |lines|
  {
    var n := |lines|;
    var lc, rc := SideRows(v, s.left, b.left, n, d.left), SideRows(v, s.right, b.right, n, d.right);
    seq(n, i requires 0 <= i < n => Row(lines[i], lc[i], rc[i], s, p))
  }

  function TopText(v: Reading, lines: seq<Text>, b: Border, d: Decorations, p: Painters): Text
    requires |d.top| <= 3 && (d.top == [] ==> Advancing(b.top, MaxWidth(lines)))
  {
    p.top(EdgeText(v, b.topLeft, b.top, b.topRight, d.top, MaxWidth(lines), p.top))
  }

  function BottomText(v: Reading, lines: seq<Text>, b: Border, d: Decorations, p: Painters): Text
    requires |d.bottom| <= 3 && (d.bottom == [] ==> Advancing(b.bottom, MaxWidth(lines)))
  {
    p.bottom(EdgeText(v, b.bottomLeft, b.bottom, b.bottomRight, d.bottom, MaxWidth(lines), p.bottom))
  }

  /** The lines of the block, from top to bottom: the top edge when drawn,
      one row per content line, the bottom edge when drawn. */
  function Block(v: Reading, lines: seq<Text>, b: Border, s: Sides, d: Decorations, p: Painters): (block: seq<Text>)
    requires DecorationsFit(d) && EdgesAdvance(b, s, d, MaxWidth(lines))
    requires s.left ==> b.left != []
    requires s.right ==> b.right != []
    ensures |block| == |lines| + (if s.top then 1 else 0) + (if s.bottom then 1 else 0)
  {
    (if s.top then [TopText(v, lines, b, d, p)] else [])
      + Rows(v, lines, b, s, d, p)
      + (if s.bottom then [BottomText(v, lines, b, d, p)] else [])
  }

  lemma {:induction false} JoinCons(a: Text, ls: seq<Text>)
    requires |ls| >= 1
    ensures Join([a] + ls) == a + [NL] + Join(ls)
  {
    assert ([a] + ls)[1..] == ls;
  }

  lemma {:induction false} JoinSnoc(ls: seq<Text>, z: Text)
    requires |ls| >= 1
    ensures Join(ls + [z]) == Join(ls) + [NL] + z
    decreases |ls|
  {
    if |ls| == 1 {
      assert ls + [z] == [ls[0], z];
      assert [ls[0], z][1..] == [z];
    } else {
      assert (ls + [z])[1..] == ls[1..] + [z];
      JoinSnoc(ls[1..], z);
    }
  }

  /** The output as applyBorder writes it: the top edge and a line break,
      the rows separated by line breaks, then a line break and the bottom
      edge. */
  function Assembled(v: Reading, lines: seq<Text>, b: Border, s: Sides, d: Decorations, p: Painters): Text
    requires |lines| >= 1 && DecorationsFit(d) && EdgesAdvance(b, s, d, MaxWidth(lines))
    requires s.left ==> b.left != []
    requires s.right ==> b.right != []
  {
    (if s.top then TopText(v, lines, b, d, p) + [NL] else [])
      + Join(Rows(v, lines, b, s, d, p))
      + (if s.bottom then [NL] + BottomText(v, lines, b, d, p) else [])
  }

  /** An optional first line and an optional last line around the rows,
      each set off by a line break, are the rows with those lines added,
      joined. */
  lemma {:induction false} JoinFramed(top: Text, rows: seq<Text>, bottom: Text, hasTop: bool, hasBottom: bool)
    requires |rows| >= 1
    ensures (if hasTop then top + [NL] else []) + Join(rows) + (if hasBottom then [NL] + bottom else []) ==
            Join((if hasTop then [top] else []) + rows + (if hasBottom then [bottom] else []))
  {
    var j := Join(rows);
    if hasTop && hasBottom {
      var mid := [top] + rows;
      JoinCons(top, rows);
      JoinSnoc(mid, bottom);
      assert Join(mid + [bottom]) == top + [NL] + j + [NL] + bottom;
      assert top + [NL] + j + ([NL] + bottom) == top + [NL] + j + [NL] + bottom;
    } else if hasTop {
      JoinCons(top, rows);
      assert [top] + rows + [] == [top] + rows;
      assert top + [NL] + j + [] == top + [NL] + j;
    } else if hasBottom {
      JoinSnoc(rows, bottom);
      assert [] + rows + [bottom] == rows + [bottom];
      assert [] + j + ([NL] + bottom) == j + [NL] + bottom;
    } else {
      assert [] + rows + [] == rows;
      assert [] + j + [] == j;
    }
  }

  /** What applyBorder writes is the lines of the block joined by line
      breaks. */
  lemma AssembledJoinsBlock(v: Reading, lines: seq<Text>, b: Border, s: Sides, d: Decorations, p: Painters)
    requires |lines| >= 1
    requires DecorationsFit(d) && EdgesAdvance(b, s, d, MaxWidth(lines))
    requires s.left ==> b.left != []
    requires s.right ==> b.right != []
    ensures Assembled(v, lines, b, s, d, p) == Join(Block(v, lines, b, s, d, p))
  {
    var top := if s.top then TopText(v, lines, b, d, p) else [];
    var bottom := if s.bottom then BottomText(v, lines, b, d, p) else [];
    var rows := Rows(v, lines, b, s, d, p);
    assert Assembled(v, lines, b, s, d, p) ==
           (if s.top then top + [NL] else []) + Join(rows) + (if s.bottom then [NL] + bottom else []);
    assert Block(v, lines, b, s, d, p) == (if s.top then [top] else []) + rows + (if s.bottom then [bottom] else []);
    JoinFramed(top, rows, bottom, s.top, s.bottom);
  }

  /** The drawn border after normalisation meets what assembly needs. */
  lemma NormalizeReady(border: Border, s: Sides, d: Decorations, width: int)
    requires EdgesAdvance(border, s, d, width)
    ensures var b := Normalize(border, s);
            EdgesAdvance(b, s, d, width) && (s.left ==> b.left != []) && (s.right ==> b.right != [])
  {
  }

  /** applyBorder: the content as it is when there is no border or no side is
      drawn; otherwise the lines of the block joined by line breaks. Read
      `AsWritten` it is the source's applyBorder, whose decorated edges come
      from renderAnnotatedHorizontalEdge as written and whose side
      decorations are cut by splitStyledString as written; read `Intended` it
      draws both as the test tables expect. */
  function ApplyBorder(v: Reading, str: Text, border: Border, s: Sides, d: Decorations, p: Painters): (r: Text)
    requires DecorationsFit(d) && EdgesAdvance(border, s, d, MaxWidth(SplitLines(str)))
    ensures border == NoBorder || !AnySide(s) ==> r == str
    ensures border != NoBorder && AnySide(s) ==> r == Join(Block(v, SplitLines(str), Normalize(border, s), s, d, p))
  {
    if border == NoBorder || !AnySide(s) then str
    else
      var lines, b := SplitLines(str), Normalize(border, s);
      NormalizeReady(border, s, d, MaxWidth(lines));
      AssembledJoinsBlock(v, lines, b, s, d, p);
      Assembled(v, lines, b, s, d, p)
  }

  /** Every side drawn. */
  const AllSides := Sides(true, true, true, true)

  /** Every rune of the glyph is one column wide. */
  predicate UnitGlyph(g: seq<Rune>) { forall k :: 0 <= k < |g| ==> g[k].w == 1 }

  /** The glyphs a box is drawn with are one column wide rune by rune. */
  predicate UnitBorder(b: Border)
  {
    && UnitGlyph(b.top) && UnitGlyph(b.bottom) && UnitGlyph(b.left) && UnitGlyph(b.right)
    && UnitGlyph(b.topLeft) && UnitGlyph(b.topRight) && UnitGlyph(b.bottomLeft) && UnitGlyph(b.bottomRight)
  }

  /** The decorations of an edge leave it as wide as the content: always
      for the intended edge once the content is two columns wide, and for the
      edge as written exactly when its texts fit where its loops put them. */
  predicate EdgeFits(v: Reading, slots: Slots, width: int, middle: seq<Rune>)
  {
    slots == [] || match v
                   case AsWritten => FitsAsWritten(slots, width, middle)
                   case Intended => width >= 2
  }

  /** A horizontal edge between one-rune corners, drawn with one-column
      glyphs and a painter that keeps widths, is two columns wider than the
      content when its decorations fit; as written, a decorated edge whose
      texts do not fit is wider. */
  lemma EdgeTextWidth(v: Reading, l: seq<Rune>, m: seq<Rune>, r: seq<Rune>, slots: Slots, width: int,
                      paint: Text -> Text)
    requires |slots| <= 3 && width >= 0
    requires |l| == 1 && |r| == 1 && UnitGlyph(l) && UnitGlyph(m) && UnitGlyph(r) && KeepsWidth(paint)
    ensures Advancing(m, width)
    ensures EdgeFits(v, slots, width, m) ==> Width(paint(EdgeText(v, l, m, r, slots, width, paint))) == width + 2
    ensures v == AsWritten && !EdgeFits(v, slots, width, m) ==>
              Width(paint(EdgeText(v, l, m, r, slots, width, paint))) > width + 2
  {
    UnitWidth(l);
    UnitWidth(r);
    if slots != [] {
      match v
      case AsWritten => AnnotatedAsWrittenWidth(l, m, r, slots, width, paint);
      case Intended =>
        if width >= 2 {
          AnnotatedEdgeFits(l, m, r, slots, width, paint);
        }
    } else {
      HorizontalEdgeWidth(l, m, r, width);
    }
  }

  /** A content row between one-column side pieces is two columns wider
      than the line. */
  lemma RowWidth(line: Text, l: Text, r: Text, p: Painters)
    requires Width(l) == 1 && Width(r) == 1 && KeepsWidth(p.left) && KeepsWidth(p.right)
    ensures Width(Row(line, l, r, AllSides, p)) == Width(line) + 2
  {
    WidthAppend(p.left(l) + line, p.right(r));
    WidthAppend(p.left(l), line);
  }

  /** A rune of a side column is one column wide. */
  lemma SideCellWidth(g: seq<Rune>, n: nat, i: int)
    requires g != [] && UnitGlyph(g) && 0 <= i < n
    ensures Width(SideColumn(g, n)[i]) == 1
  {
    UnitWidth([g[i % |g|]]);
  }

  /** Between undecorated one-column sides every row of lines `m` columns
      wide is `m + 2` columns wide. */
  lemma RowsWidth(v: Reading, lines: seq<Text>, m: int, b: Border, d: Decorations, p: Painters)
    requires forall k :: 0 <= k < |lines| ==> Width(lines[k]) == m
    requires UnitGlyph(b.left) && UnitGlyph(b.right) && b.left != [] && b.right != []
    requires DecorationsFit(d) && d.left == [] && d.right == []
    requires KeepsWidth(p.right) && KeepsWidth(p.left)
    ensures var rows := Rows(v, lines, b, AllSides, d, p);
            forall i :: 0 <= i < |rows| ==> Width(rows[i]) == m + 2
  {
    var n := |lines|;
    var rows := Rows(v, lines, b, AllSides, d, p);
    forall i | 0 <= i < n
      ensures Width(rows[i]) == m + 2
    {
      SideCellWidth(b.left, n, i);
      SideCellWidth(b.right, n, i);
      RowWidth(lines[i], SideColumn(b.left, n)[i], SideColumn(b.right, n)[i], p);
    }
  }

  /** A box on every side, with one-column glyphs, painters that keep
      widths, undecorated sides, lines all as wide as the widest and edge
      decorations that fit, is a rectangle: each line of the block is the
      content width plus two. */
  lemma BlockRectangular(v: Reading, lines: seq<Text>, b: Border, d: Decorations, p: Painters)
    requires |lines| >= 1 && forall k :: 0 <= k < |lines| ==> Width(lines[k]) == MaxWidth(lines)
    requires UnitBorder(b) && b.left != [] && b.right != []
    requires |b.topLeft| == 1 && |b.topRight| == 1 && |b.bottomLeft| == 1 && |b.bottomRight| == 1
    requires DecorationsFit(d) && d.left == [] && d.right == []
    requires EdgeFits(v, d.top, MaxWidth(lines), b.top) && EdgeFits(v, d.bottom, MaxWidth(lines), b.bottom)
    requires KeepsWidth(p.top) && KeepsWidth(p.right) && KeepsWidth(p.bottom) && KeepsWidth(p.left)
    requires EdgesAdvance(b, AllSides, d, MaxWidth(lines))
    ensures var block := Block(v, lines, b, AllSides, d, p);
            forall k :: 0 <= k < |block| ==> Width(block[k]) == MaxWidth(lines) + 2
  {
    BlockEdgesWidth(v, lines, b, d, p);
    BlockRowsWidth(v, lines, b, d, p);
  }

  /** The first and last lines of such a block, its edges, are two columns
      wider than the content. */
  lemma BlockEdgesWidth(v: Reading, lines: seq<Text>, b: Border, d: Decorations, p: Painters)
    requires UnitBorder(b) && b.left != [] && b.right != []
    requires |b.topLeft| == 1 && |b.topRight| == 1 && |b.bottomLeft| == 1 && |b.bottomRight| == 1
    requires DecorationsFit(d)
    requires EdgeFits(v, d.top, MaxWidth(lines), b.top) && EdgeFits(v, d.bottom, MaxWidth(lines), b.bottom)
    requires KeepsWidth(p.top) && KeepsWidth(p.bottom)
    requires EdgesAdvance(b, AllSides, d, MaxWidth(lines))
    ensures var block := Block(v, lines, b, AllSides, d, p);
            Width(block[0]) == MaxWidth(lines) + 2 && Width(block[|block| - 1]) == MaxWidth(lines) + 2
  {
    BlockAllSides(v, lines, b, d, p);
    EdgesWidth(v, lines, b, d, p);
  }

  /** The lines between them, its rows, are too. */
  lemma BlockRowsWidth(v: Reading, lines: seq<Text>, b: Border, d: Decorations, p: Painters)
    requires forall k :: 0 <= k < |lines| ==> Width(lines[k]) == MaxWidth(lines)
    requires UnitGlyph(b.left) && UnitGlyph(b.right) && b.left != [] && b.right != []
    requires DecorationsFit(d) && d.left == [] && d.right == []
    requires KeepsWidth(p.right) && KeepsWidth(p.left)
    requires EdgesAdvance(b, AllSides, d, MaxWidth(lines))
    ensures var block := Block(v, lines, b, AllSides, d, p);
            forall k :: 0 < k < |block| - 1 ==> Width(block[k]) == MaxWidth(lines) + 2
  {
    RowsWidth(v, lines, MaxWidth(lines), b, d, p);
    FramedRowsWidth(Block(v, lines, b, AllSides, d, p), TopText(v, lines, b, d, p), Rows(v, lines, b, AllSides, d, p),
                    BottomText(v, lines, b, d, p), MaxWidth(lines) + 2);
  }

  /** Between two edges, the lines of a block are its rows. */
  lemma FramedRowsWidth(block: seq<Text>, top: Text, rows: seq<Text>, bottom: Text, w: int)
    requires block == [top] + rows + [bottom]
    requires forall i :: 0 <= i < |rows| ==> Width(rows[i]) == w
    ensures forall k :: 0 < k < |block| - 1 ==> Width(block[k]) == w
  {
    forall k | 0 < k < |block| - 1
      ensures Width(block[k]) == w
    {
      assert block[k] == rows[k - 1];
    }
  }

  /** With every side drawn the block is the top edge, the rows and the
      bottom edge. */
  lemma BlockAllSides(v: Reading, lines: seq<Text>, b: Border, d: Decorations, p: Painters)
    requires DecorationsFit(d) && EdgesAdvance(b, AllSides, d, MaxWidth(lines))
    requires b.left != [] && b.right != []
    ensures Block(v, lines, b, AllSides, d, p) ==
            [TopText(v, lines, b, d, p)] + Rows(v, lines, b, AllSides, d, p) + [BottomText(v, lines, b, d, p)]
  {
  }

  /** Both edges of such a box are two columns wider than the content when
      their decorations fit. */
  lemma EdgesWidth(v: Reading, lines: seq<Text>, b: Border, d: Decorations, p: Painters)
    requires UnitBorder(b)
    requires |b.topLeft| == 1 && |b.topRight| == 1 && |b.bottomLeft| == 1 && |b.bottomRight| == 1
    requires DecorationsFit(d)
    requires EdgeFits(v, d.top, MaxWidth(lines), b.top) && EdgeFits(v, d.bottom, MaxWidth(lines), b.bottom)
    requires KeepsWidth(p.top) && KeepsWidth(p.bottom)
    requires EdgesAdvance(b, AllSides, d, MaxWidth(lines))
    ensures Width(TopText(v, lines, b, d, p)) == MaxWidth(lines) + 2
    ensures Width(BottomText(v, lines, b, d, p)) == MaxWidth(lines) + 2
  {
    EdgeTextWidth(v, b.topLeft, b.top, b.topRight, d.top, MaxWidth(lines), p.top);
    EdgeTextWidth(v, b.bottomLeft, b.bottom, b.bottomRight, d.bottom, MaxWidth(lines), p.bottom);
  }

  /** Normalising a one-column border for a box drawn on every side keeps
      it one column wide, gives every corner exactly one rune and both sides
      a glyph. */
  lemma NormalizeAllSides(border: Border)
    requires UnitBorder(border)
    ensures var b := Normalize(border, AllSides);
            && UnitBorder(b) && b.left != [] && b.right != [] && b.top == border.top && b.bottom == border.bottom
            && |b.topLeft| == 1 && |b.topRight| == 1 && |b.bottomLeft| == 1 && |b.bottomRight| == 1
  {
  }

  /** applyBorder on every side of content whose lines are equally wide
      yields a rectangle two columns wider than the content, provided the
      decorations of the top and bottom edges fit. */
  lemma ApplyBorderRectangular(v: Reading, str: Text, border: Border, d: Decorations, p: Painters)
    requires border != NoBorder && UnitBorder(border)
    requires forall k :: 0 <= k < |SplitLines(str)| ==> Width(SplitLines(str)[k]) == MaxWidth(SplitLines(str))
    requires DecorationsFit(d) && d.left == [] && d.right == []
    requires EdgeFits(v, d.top, MaxWidth(SplitLines(str)), border.top)
    requires EdgeFits(v, d.bottom, MaxWidth(SplitLines(str)), border.bottom)
    requires KeepsWidth(p.top) && KeepsWidth(p.right) && KeepsWidth(p.bottom) && KeepsWidth(p.left)
    ensures EdgesAdvance(border, AllSides, d, MaxWidth(SplitLines(str)))
    ensures var block := Block(v, SplitLines(str), Normalize(border, AllSides), AllSides, d, p);
            && ApplyBorder(v, str, border, AllSides, d, p) == Join(block)
            && |block| == |SplitLines(str)| + 2
            && forall k :: 0 <= k < |block| ==> Width(block[k]) == MaxWidth(SplitLines(str)) + 2
  {
    ApplyBorderBlock(v, str, border, d, p);
    NormalizedRectangular(v, SplitLines(str), border, d, p);
  }

  /** The block of a normalised one-column border is a rectangle. */
  lemma NormalizedRectangular(v: Reading, lines: seq<Text>, border: Border, d: Decorations, p: Painters)
    requires UnitBorder(border)
    requires |lines| >= 1 && forall k :: 0 <= k < |lines| ==> Width(lines[k]) == MaxWidth(lines)
    requires DecorationsFit(d) && d.left == [] && d.right == []
    requires EdgeFits(v, d.top, MaxWidth(lines), border.top) && EdgeFits(v, d.bottom, MaxWidth(lines), border.bottom)
    requires KeepsWidth(p.top) && KeepsWidth(p.right) && KeepsWidth(p.bottom) && KeepsWidth(p.left)
    requires EdgesAdvance(border, AllSides, d, MaxWidth(lines))
    ensures var block := Block(v, lines, Normalize(border, AllSides), AllSides, d, p);
            forall k :: 0 <= k < |block| ==> Width(block[k]) == MaxWidth(lines) + 2
  {
    NormalizeAllSides(border);
    BlockRectangular(v, lines, Normalize(border, AllSides), d, p);
  }

  /** applyBorder on every side joins a block of the content's lines and
      both edges. */
  lemma ApplyBorderBlock(v: Reading, str: Text, border: Border, d: Decorations, p: Painters)
    requires border != NoBorder && UnitBorder(border) && DecorationsFit(d)
    ensures EdgesAdvance(border, AllSides, d, MaxWidth(SplitLines(str)))
    ensures var block := Block(v, SplitLines(str), Normalize(border, AllSides), AllSides, d, p);
            && ApplyBorder(v, str, border, AllSides, d, p) == Join(block)
            && |block| == |SplitLines(str)| + 2
  {
    var lines := SplitLines(str);
    var b := Normalize(border, AllSides);
    assert EdgesAdvance(b, AllSides, d, MaxWidth(lines));
    BlockAllSides(v, lines, b, d, p);
  }

  /** As written, a box whose top edge has decorations that do not fit
      where the loops put them is not a rectangle: its top line is wider
      than its rows. */
  lemma ApplyBorderTopOverflows(str: Text, border: Border, d: Decorations, p: Painters)
    requires border != NoBorder && UnitBorder(border)
    requires DecorationsFit(d) && d.left == [] && d.right == []
    requires !EdgeFits(AsWritten, d.top, MaxWidth(SplitLines(str)), border.top)
    requires KeepsWidth(p.top)
    ensures EdgesAdvance(border, AllSides, d, MaxWidth(SplitLines(str)))
    ensures var block := Block(AsWritten, SplitLines(str), Normalize(border, AllSides), AllSides, d, p);
            && ApplyBorder(AsWritten, str, border, AllSides, d, p) == Join(block)
            && Width(block[0]) > MaxWidth(SplitLines(str)) + 2
  {
    ApplyBorderBlock(AsWritten, str, border, d, p);
    NormalizeAllSides(border);
    TopOverflows(SplitLines(str), Normalize(border, AllSides), d, p);
  }

  /** As written, a top edge whose decorations do not fit makes the first
      line of the block wider than the content plus two. */
  lemma TopOverflows(lines: seq<Text>, b: Border, d: Decorations, p: Painters)
    requires UnitBorder(b) && b.left != [] && b.right != [] && |b.topLeft| == 1 && |b.topRight| == 1
    requires DecorationsFit(d) && !EdgeFits(AsWritten, d.top, MaxWidth(lines), b.top)
    requires KeepsWidth(p.top)
    requires EdgesAdvance(b, AllSides, d, MaxWidth(lines))
    ensures Width(Block(AsWritten, lines, b, AllSides, d, p)[0]) > MaxWidth(lines) + 2
  {
    BlockAllSides(AsWritten, lines, b, d, p);
    EdgeTextWidth(AsWritten, b.topLeft, b.top, b.topRight, d.top, MaxWidth(lines), p.top);
  }
}
