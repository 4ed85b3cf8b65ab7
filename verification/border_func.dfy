/** The decorated-edge cases of the source's TestBorderFunc table, on the
    edge they decorate, drawn with the standard border and no colour. */
module BorderFunc {
  import opened Text
  import opened Allocation
  import opened Decoration
  import opened Geometry
  import opened Horizontal

  /** Styling with no colour set leaves the text as it is. */
  const NoColour: Text -> Text := t => t

  /** `n` pieces of the standard horizontal fill. */
  function Dashes(n: nat): Text { Repeat(Plain(Box('─')), n) }

  function Top(slots: Slots, width: int): Text
    requires |slots| <= 3
  {
    AnnotatedEdge(NormalBorder.topLeft, NormalBorder.top, NormalBorder.topRight, slots, width, NoColour)
  }

  function Bottom(slots: Slots, width: int): Text
    requires |slots| <= 3
  {
    AnnotatedEdge(NormalBorder.bottomLeft, NormalBorder.bottom, NormalBorder.bottomRight, slots, width, NoColour)
  }

  function TopAsWritten(slots: Slots, width: int): Text
    requires |slots| <= 3
  {
    AnnotatedAsWritten(NormalBorder.topLeft, NormalBorder.top, NormalBorder.topRight, slots, width, NoColour)
  }

  function BottomAsWritten(slots: Slots, width: int): Text
    requires |slots| <= 3
  {
    AnnotatedAsWritten(NormalBorder.bottomLeft, NormalBorder.bottom, NormalBorder.bottomRight, slots, width, NoColour)
  }

  /** An edge from its corners and the visible pieces between them. */
  function EdgeLine(left: seq<Rune>, right: seq<Rune>, body: Text): Text { Plain(left) + body + Plain(right) }

  /** A top edge from its visible pieces. */
  function TopLine(body: Text): Text { EdgeLine(NormalBorder.topLeft, NormalBorder.topRight, body) }

  /** A bottom edge from its visible pieces. */
  function BottomLine(body: Text): Text { EdgeLine(NormalBorder.bottomLeft, NormalBorder.bottomRight, body) }

  /** A decoration function that ignores its arguments. */
  function Const(d: Text): Option<Content> { Some(Sized((w, m) => d)) }

  /** A stringer: a function that produces the decoration. */
  function Stringer(d: Text): Option<Content> { Some(Lazy(() => d)) }

  /** Every kind of decoration yields its text in the slot it occupies, and
      nothing in the other slots. */
  lemma DecorKinds(d: Text, width: int, middle: seq<Rune>)
    ensures Decor([Some(Lit(d))], 0, width, middle) == d
    ensures Decor([Stringer(d)], 0, width, middle) == d
    ensures Decor([Const(d)], 0, width, middle) == d
    ensures Decor([None, Const(d)], 1, width, middle) == d
    ensures Decor([None, None, Const(d)], 2, width, middle) == d
    ensures Decor([None, Const(d)], 0, width, middle) == []
    ensures Decor([None, None, Const(d)], 0, width, middle) == []
    ensures Decor([None, None, Const(d)], 1, width, middle) == []
  {
  }

  /** Three strings fill the three slots in order. */
  lemma DecorLits(a: Text, b: Text, c: Text, width: int, middle: seq<Rune>)
    ensures var slots := [Some(Lit(a)), Some(Lit(b)), Some(Lit(c))];
            Decor(slots, 0, width, middle) == a && Decor(slots, 1, width, middle) == b &&
            Decor(slots, 2, width, middle) == c
  {
  }

  /** The standard fill on either edge. */
  predicate DashFill(middle: seq<Rune>) { middle == Box('─') }

  lemma LayDashes(left: seq<Rune>, middle: seq<Rune>, right: seq<Rune>,
                  d0: Text, n1: nat, d1: Text, n2: nat, d2: Text)
    requires DashFill(middle)
    ensures Lay(left, right, NoColour, FillPiece(middle, NoColour), d0, n1, d1, n2, d2) ==
            EdgeLine(left, right, Shown(d0) + Dashes(n1) + Shown(d1) + Dashes(n2) + Shown(d2))
  {
    assert FillPiece(middle, NoColour) == Plain(Box('─'));
    assert NoColour(Plain(left)) == Plain(left) && NoColour(Plain(right)) == Plain(right);
  }

  /** A visible text followed by fill. */
  lemma TextThenFill(d: Text, n: nat)
    requires Width(d) > 0
    ensures Shown(d) + Dashes(n) + Shown([]) + Dashes(0) + Shown([]) == d + Dashes(n)
  {
  }

  /** Fill followed by a visible text. */
  lemma FillThenText(n: nat, d: Text)
    requires Width(d) > 0
    ensures Shown([]) + Dashes(n) + Shown([]) + Dashes(0) + Shown(d) == Dashes(n) + d
  {
  }

  /** Fill, a visible text, fill. */
  lemma FillTextFill(n1: nat, d: Text, n2: nat)
    requires Width(d) > 0
    ensures Shown([]) + Dashes(n1) + Shown(d) + Dashes(n2) + Shown([]) == Dashes(n1) + d + Dashes(n2)
  {
  }

  /** An edge laid out as fill, one text, fill. */
  lemma LaidFillTextFill(e: Text, left: seq<Rune>, middle: seq<Rune>, right: seq<Rune>, n1: nat, d: Text, n2: nat)
    requires DashFill(middle) && Width(d) > 0
    requires e == Lay(left, right, NoColour, FillPiece(middle, NoColour), [], n1, d, n2, [])
    ensures e == EdgeLine(left, right, Dashes(n1) + d + Dashes(n2))
  {
    LayDashes(left, middle, right, [], n1, d, n2, []);
    FillTextFill(n1, d, n2);
  }

  /** The slots hold one visible text, in slot `k`, and nothing else. */
  predicate Alone(slots: Slots, k: nat, d: Text, width: int, middle: seq<Rune>)
  {
    && |slots| <= 3 && 0 < Width(d)
    && Decor(slots, 0, width, middle) == (if k == 0 then d else [])
    && Decor(slots, 1, width, middle) == (if k == 1 then d else [])
    && Decor(slots, 2, width, middle) == (if k == 2 then d else [])
  }

  /** The slots hold one visible text that fits the edge, in slot `k`. */
  predicate OnlyIn(slots: Slots, k: nat, d: Text, width: int, middle: seq<Rune>)
  {
    Alone(slots, k, d, width, middle) && Width(d) <= width
  }

  /** A left text that fits is followed by fill to the end of the edge. */
  lemma LeftOnly(left: seq<Rune>, middle: seq<Rune>, right: seq<Rune>, slots: Slots, d: Text, width: int)
    requires DashFill(middle) && OnlyIn(slots, 0, d, width, middle)
    ensures AnnotatedEdge(left, middle, right, slots, width, NoColour) ==
            EdgeLine(left, right, d + Dashes(width - Width(d)))
  {
    assert Decor(slots, 0, width, middle) == d && Decor(slots, 1, width, middle) == [] && Decor(slots, 2, width, middle) == [];
    assert Allocate(Width(d), 0, 0, width) == Widths(Width(d), 0, 0);
    var n := width - Width(d);
    assert Gaps(Width(d), 0, 0, width) == (n, 0);
    AnnotatedEdgeFrom(left, middle, right, slots, width, NoColour, Widths(Width(d), 0, 0), d, [], [], n, 0);
    assert A: AnnotatedEdge(left, middle, right, slots, width, NoColour) == Lay(left, right, NoColour, FillPiece(middle, NoColour), d, n, [], 0, []);
    LayDashes(left, middle, right, d, n, [], 0, []);
    TextThenFill(d, n);
    assert AnnotatedEdge(left, middle, right, slots, width, NoColour) == EdgeLine(left, right, d + Dashes(n));
  }

  /** As written, the fill after a left text of at least half the edge runs
      from the middle of the edge to its end, however long the text. */
  lemma LeftOnlyAsWritten(left: seq<Rune>, middle: seq<Rune>, right: seq<Rune>, slots: Slots, d: Text, width: int)
    requires DashFill(middle) && Alone(slots, 0, d, width, middle) && GoDiv(width, 2) <= Width(d)
    requires width >= 0
    ensures AnnotatedAsWritten(left, middle, right, slots, width, NoColour) ==
            EdgeLine(left, right, d + Dashes(width - GoDiv(width, 2)))
  {
    assert Decor(slots, 0, width, middle) == d && Decor(slots, 1, width, middle) == [] && Decor(slots, 2, width, middle) == [];
    var n2 := width - GoDiv(width, 2);
    assert Width([]) == 0;
    assert CountsAsWritten(Width(d), 0, 0, width) == (0, n2);
    AnnotatedAsWrittenFrom(left, middle, right, slots, width, NoColour, d, [], [], 0, n2);
    LayDashes(left, middle, right, d, 0, [], n2, []);
    assert Shown(d) + Dashes(0) + Shown([]) + Dashes(n2) + Shown([]) == d + Dashes(n2);
  }

  /** A left text wider than the edge is cut to the edge. */
  lemma LeftTooLong(left: seq<Rune>, middle: seq<Rune>, right: seq<Rune>, slots: Slots, d: Text, width: int, t: Text)
    requires |slots| <= 3 && DashFill(middle) && 0 < width < Width(d)
    requires Decor(slots, 0, width, middle) == d && Decor(slots, 1, width, middle) == [] && Decor(slots, 2, width, middle) == []
    requires Truncate(d, width) == t && Width(t) == width
    ensures AnnotatedEdge(left, middle, right, slots, width, NoColour) == EdgeLine(left, right, t)
  {
    assert Allocate(Width(d), 0, 0, width) == Widths(width, 0, 0);
    AnnotatedEdgeFrom(left, middle, right, slots, width, NoColour, Widths(width, 0, 0), t, [], [], 0, 0);
    LayDashes(left, middle, right, t, 0, [], 0, []);
    TextThenFill(t, 0);
  }

  /** A centre text alone starts at (width - c) / 2. */
  lemma CentreOnly(left: seq<Rune>, middle: seq<Rune>, right: seq<Rune>, slots: Slots, d: Text, width: int)
    requires DashFill(middle) && OnlyIn(slots, 1, d, width, middle)
    ensures var cs := GoDiv(width - Width(d), 2);
            AnnotatedEdge(left, middle, right, slots, width, NoColour) ==
            EdgeLine(left, right, Dashes(cs) + d + Dashes(width - cs - Width(d)))
  {
    var cw := Width(d);
    var cs := GoDiv(width - cw, 2);
    CentreOnlyLaid(left, middle, right, slots, d, width);
    LaidFillTextFill(AnnotatedEdge(left, middle, right, slots, width, NoColour), left, middle, right, cs, d, width - cs - cw);
  }

  lemma CentreOnlyLaid(left: seq<Rune>, middle: seq<Rune>, right: seq<Rune>, slots: Slots, d: Text, width: int)
    requires OnlyIn(slots, 1, d, width, middle)
    ensures var cs := GoDiv(width - Width(d), 2);
            0 <= cs <= width - Width(d) - cs &&
            AnnotatedEdge(left, middle, right, slots, width, NoColour) ==
            Lay(left, right, NoColour, FillPiece(middle, NoColour), [], cs, d, width - cs - Width(d), [])
  {
    assert Decor(slots, 0, width, middle) == [] && Decor(slots, 1, width, middle) == d && Decor(slots, 2, width, middle) == [];
    var cw := Width(d);
    var cs := GoDiv(width - cw, 2);
    assert Width([]) == 0;
    AllocateCentreOnly(0, cw, 0, width);
    assert Allocate(0, cw, 0, width) == Widths(0, cw, 0);
    assert Truncate(d, cw) == d && Truncate([], 0) == [];
    assert 0 <= cs <= width - cw - cs;
    assert Gaps(0, cw, 0, width) == (cs, width - cs - cw);
    AnnotatedEdgeFrom(left, middle, right, slots, width, NoColour, Widths(0, cw, 0), [], d, [], cs, width - cs - cw);
  }

  /** As written, a centre text alone is placed as intended. */
  lemma CentreOnlyAsWritten(left: seq<Rune>, middle: seq<Rune>, right: seq<Rune>, slots: Slots, d: Text, width: int)
    requires DashFill(middle) && OnlyIn(slots, 1, d, width, middle)
    ensures var cs := GoDiv(width - Width(d), 2);
            AnnotatedAsWritten(left, middle, right, slots, width, NoColour) ==
            EdgeLine(left, right, Dashes(cs) + d + Dashes(width - cs - Width(d)))
  {
    assert Decor(slots, 0, width, middle) == [] && Decor(slots, 1, width, middle) == d && Decor(slots, 2, width, middle) == [];
    var cw := Width(d);
    var cs := GoDiv(width - cw, 2);
    assert 0 <= cs <= width - cw - cs;
    assert Width([]) == 0;
    assert CountsAsWritten(0, cw, 0, width) == (cs, width - cs - cw);
    AnnotatedAsWrittenFrom(left, middle, right, slots, width, NoColour, [], d, [], cs, width - cs - cw);
    LayDashes(left, middle, right, [], cs, d, width - cs - cw, []);
    FillTextFill(cs, d, width - cs - cw);
  }

  /** A right text that fits is preceded by fill from the corner. */
  lemma RightOnly(left: seq<Rune>, middle: seq<Rune>, right: seq<Rune>, slots: Slots, d: Text, width: int)
    requires DashFill(middle) && OnlyIn(slots, 2, d, width, middle)
    ensures AnnotatedEdge(left, middle, right, slots, width, NoColour) ==
            EdgeLine(left, right, Dashes(width - Width(d)) + d)
  {
    assert Decor(slots, 0, width, middle) == [] && Decor(slots, 1, width, middle) == [] && Decor(slots, 2, width, middle) == d;
    assert Allocate(0, 0, Width(d), width) == Widths(0, 0, Width(d));
    AnnotatedEdgeFrom(left, middle, right, slots, width, NoColour, Widths(0, 0, Width(d)), [], [], d, width - Width(d), 0);
    LayDashes(left, middle, right, [], width - Width(d), [], 0, d);
    FillThenText(width - Width(d), d);
  }

  /** As written, the fill before a right text of at least half the edge
      runs from the corner to the middle of the edge, however long the text. */
  lemma RightOnlyAsWritten(left: seq<Rune>, middle: seq<Rune>, right: seq<Rune>, slots: Slots, d: Text, width: int)
    requires DashFill(middle) && Alone(slots, 2, d, width, middle) && 0 <= width - GoDiv(width, 2) <= Width(d)
    requires width >= 0
    ensures AnnotatedAsWritten(left, middle, right, slots, width, NoColour) ==
            EdgeLine(left, right, Dashes(GoDiv(width, 2)) + d)
  {
    assert Decor(slots, 0, width, middle) == [] && Decor(slots, 1, width, middle) == [] && Decor(slots, 2, width, middle) == d;
    var n1 := GoDiv(width, 2);
    assert Width([]) == 0;
    assert CountsAsWritten(0, 0, Width(d), width) == (n1, 0);
    AnnotatedAsWrittenFrom(left, middle, right, slots, width, NoColour, [], [], d, n1, 0);
    LayDashes(left, middle, right, [], n1, [], 0, d);
    FillThenText(n1, d);
  }

  /** The top-left cases for any five-column title: "top left title string",
      "…stringer" and "top left title". */
  lemma TopLeftFive(d: Text)
    requires Width(d) == 5
    ensures Top([Some(Lit(d))], 10) == TopLine(d + Dashes(5))
    ensures Top([Stringer(d)], 10) == TopLine(d + Dashes(5))
    ensures Top([Const(d)], 10) == TopLine(d + Dashes(5))
    ensures TopAsWritten([Some(Lit(d))], 10) == TopLine(d + Dashes(5))
    ensures TopAsWritten([Stringer(d)], 10) == TopLine(d + Dashes(5))
    ensures TopAsWritten([Const(d)], 10) == TopLine(d + Dashes(5))
  {
    DecorKinds(d, 10, NormalBorder.top);
    TopLeftFiveIn([Some(Lit(d))], d);
    TopLeftFiveIn([Stringer(d)], d);
    TopLeftFiveIn([Const(d)], d);
    TopLeftFiveAsWritten(d);
  }

  lemma TopLeftFiveIn(slots: Slots, d: Text)
    requires Width(d) == 5 && |slots| <= 3
    requires Decor(slots, 0, 10, NormalBorder.top) == d
    requires Decor(slots, 1, 10, NormalBorder.top) == [] && Decor(slots, 2, 10, NormalBorder.top) == []
    ensures Top(slots, 10) == TopLine(d + Dashes(5))
  {
    LeftOnly(NormalBorder.topLeft, NormalBorder.top, NormalBorder.topRight, slots, d, 10);
  }

  lemma TopLeftFiveAsWritten(d: Text)
    requires Width(d) == 5
    ensures TopAsWritten([Some(Lit(d))], 10) == TopLine(d + Dashes(5))
    ensures TopAsWritten([Stringer(d)], 10) == TopLine(d + Dashes(5))
    ensures TopAsWritten([Const(d)], 10) == TopLine(d + Dashes(5))
  {
    DecorKinds(d, 10, NormalBorder.top);
    LeftOnlyAsWritten(NormalBorder.topLeft, NormalBorder.top, NormalBorder.topRight, [Some(Lit(d))], d, 10);
    LeftOnlyAsWritten(NormalBorder.topLeft, NormalBorder.top, NormalBorder.topRight, [Stringer(d)], d, 10);
    LeftOnlyAsWritten(NormalBorder.topLeft, NormalBorder.top, NormalBorder.topRight, [Const(d)], d, 10);
  }

  /** TITLE after the corner, then five pieces of fill, for every kind of
      decoration. */
  lemma TopLeftTitle()
    ensures Top([Some(Lit(Ascii("TITLE")))], 10) == TopLine(Ascii("TITLE") + Dashes(5))
    ensures Top([Stringer(Ascii("TITLE"))], 10) == TopLine(Ascii("TITLE") + Dashes(5))
    ensures Top([Const(Ascii("TITLE"))], 10) == TopLine(Ascii("TITLE") + Dashes(5))
    ensures TopAsWritten([Some(Lit(Ascii("TITLE")))], 10) == TopLine(Ascii("TITLE") + Dashes(5))
    ensures TopAsWritten([Const(Ascii("TITLE"))], 10) == TopLine(Ascii("TITLE") + Dashes(5))
  {
    WidthPlainNarrow("TITLE");
    TopLeftFive(Ascii("TITLE"));
  }

  /** "top left very long title stringer": a title longer than the edge is
      cut to its ten columns. */
  lemma TopLeftLong(d: Text, t: Text)
    requires Width(d) > 10 && Truncate(d, 10) == t && Width(t) == 10
    ensures Top([Stringer(d)], 10) == TopLine(t)
  {
    var b := NormalBorder;
    DecorKinds(d, 10, b.top);
    LeftTooLong(b.topLeft, b.top, b.topRight, [Stringer(d)], d, 10, t);
  }

  lemma TopLeftLongTitle()
    ensures Top([Stringer(Ascii("TitleTitleTitle"))], 10) == TopLine(Ascii("TitleTitle"))
  {
    WidthPlainNarrow("TitleTitleTitle");
    WidthPlainNarrow("TitleTitle");
    TruncateAscii("TitleTitleTitle", 10);
    assert "TitleTitleTitle"[..10] == "TitleTitle";
    TopLeftLong(Ascii("TitleTitleTitle"), Ascii("TitleTitle"));
  }

  /** As written, a title wider than the edge is written whole and
      followed by the fill from the middle of the edge to its end. */
  lemma TopLeftLongAsWritten(d: Text)
    requires Width(d) > 10
    ensures TopAsWritten([Stringer(d)], 10) == TopLine(d + Dashes(5))
  {
    var b := NormalBorder;
    DecorKinds(d, 10, b.top);
    LeftOnlyAsWritten(b.topLeft, b.top, b.topRight, [Stringer(d)], d, 10);
  }

  /** "top left very long title stringer" as written: all fifteen columns
      of the title and five pieces of fill, twenty columns between the
      corners of a ten-column edge. */
  lemma TopLeftLongTitleAsWritten()
    ensures TopAsWritten([Stringer(Ascii("TitleTitleTitle"))], 10) == TopLine(Ascii("TitleTitleTitle") + Dashes(5))
    ensures Width(Ascii("TitleTitleTitle") + Dashes(5)) == 20
  {
    WidthPlainNarrow("TitleTitleTitle");
    TopLeftLongAsWritten(Ascii("TitleTitleTitle"));
    WidthAppend(Ascii("TitleTitleTitle"), Dashes(5));
    WidthRepeat(Plain(Box('─')), 5);
  }

  /** The centred cases for any five-column title: "top center title" on
      ten columns and "top center title even" on eleven. */
  lemma TopCentreFive(d: Text)
    requires Width(d) == 5
    ensures Top([None, Const(d)], 10) == TopLine(Dashes(2) + d + Dashes(3))
    ensures Top([None, Const(d)], 11) == TopLine(Dashes(3) + d + Dashes(3))
    ensures TopAsWritten([None, Const(d)], 10) == TopLine(Dashes(2) + d + Dashes(3))
    ensures TopAsWritten([None, Const(d)], 11) == TopLine(Dashes(3) + d + Dashes(3))
  {
    var b := NormalBorder;
    DecorKinds(d, 10, b.top);
    DecorKinds(d, 11, b.top);
    CentreOnly(b.topLeft, b.top, b.topRight, [None, Const(d)], d, 10);
    CentreOnly(b.topLeft, b.top, b.topRight, [None, Const(d)], d, 11);
    CentreOnlyAsWritten(b.topLeft, b.top, b.topRight, [None, Const(d)], d, 10);
    CentreOnlyAsWritten(b.topLeft, b.top, b.topRight, [None, Const(d)], d, 11);
  }

  lemma TopCentreTitle()
    ensures Top([None, Const(Ascii("TITLE"))], 10) == TopLine(Dashes(2) + Ascii("TITLE") + Dashes(3))
    ensures Top([None, Const(Ascii("TITLE"))], 11) == TopLine(Dashes(3) + Ascii("TITLE") + Dashes(3))
    ensures TopAsWritten([None, Const(Ascii("TITLE"))], 10) == TopLine(Dashes(2) + Ascii("TITLE") + Dashes(3))
    ensures TopAsWritten([None, Const(Ascii("TITLE"))], 11) == TopLine(Dashes(3) + Ascii("TITLE") + Dashes(3))
  {
    WidthPlainNarrow("TITLE");
    TopCentreFive(Ascii("TITLE"));
  }

  /** "top right title" for any five-column title: five pieces of fill, then
      the title before the corner. */
  lemma TopRightFive(d: Text)
    requires Width(d) == 5
    ensures Top([None, None, Const(d)], 10) == TopLine(Dashes(5) + d)
    ensures TopAsWritten([None, None, Const(d)], 10) == TopLine(Dashes(5) + d)
  {
    var b := NormalBorder;
    DecorKinds(d, 10, b.top);
    RightOnly(b.topLeft, b.top, b.topRight, [None, None, Const(d)], d, 10);
    RightOnlyAsWritten(b.topLeft, b.top, b.topRight, [None, None, Const(d)], d, 10);
  }

  lemma TopRightTitle()
    ensures Top([None, None, Const(Ascii("TITLE"))], 10) == TopLine(Dashes(5) + Ascii("TITLE"))
    ensures TopAsWritten([None, None, Const(Ascii("TITLE"))], 10) == TopLine(Dashes(5) + Ascii("TITLE"))
  {
    WidthPlainNarrow("TITLE");
    TopRightFive(Ascii("TITLE"));
  }

  /** A six-column status on the left of a ten-column bottom edge: the
      intended edge has four pieces of fill after it; as written it has five,
      one column too many. */
  lemma BottomLeftSix(d: Text)
    requires Width(d) == 6
    ensures Bottom([Const(d)], 10) == BottomLine(d + Dashes(4))
    ensures BottomAsWritten([Const(d)], 10) == BottomLine(d + Dashes(5))
  {
    var b := NormalBorder;
    DecorKinds(d, 10, b.bottom);
    LeftOnly(b.bottomLeft, b.bottom, b.bottomRight, [Const(d)], d, 10);
    LeftOnlyAsWritten(b.bottomLeft, b.bottom, b.bottomRight, [Const(d)], d, 10);
  }

  /** The same on the right: four pieces of fill before it as intended,
      five as written. */
  lemma BottomRightSix(d: Text)
    requires Width(d) == 6
    ensures Bottom([None, None, Const(d)], 10) == BottomLine(Dashes(4) + d)
    ensures BottomAsWritten([None, None, Const(d)], 10) == BottomLine(Dashes(5) + d)
  {
    var b := NormalBorder;
    DecorKinds(d, 10, b.bottom);
    RightOnly(b.bottomLeft, b.bottom, b.bottomRight, [None, None, Const(d)], d, 10);
    RightOnlyAsWritten(b.bottomLeft, b.bottom, b.bottomRight, [None, None, Const(d)], d, 10);
  }

  lemma BottomCentreSix(d: Text)
    requires Width(d) == 6
    ensures Bottom([None, Const(d)], 10) == BottomLine(Dashes(2) + d + Dashes(2))
    ensures Bottom([None, Const(d)], 11) == BottomLine(Dashes(2) + d + Dashes(3))
    ensures BottomAsWritten([None, Const(d)], 10) == BottomLine(Dashes(2) + d + Dashes(2))
    ensures BottomAsWritten([None, Const(d)], 11) == BottomLine(Dashes(2) + d + Dashes(3))
  {
    var b := NormalBorder;
    DecorKinds(d, 10, b.bottom);
    DecorKinds(d, 11, b.bottom);
    CentreOnly(b.bottomLeft, b.bottom, b.bottomRight, [None, Const(d)], d, 10);
    CentreOnly(b.bottomLeft, b.bottom, b.bottomRight, [None, Const(d)], d, 11);
    CentreOnlyAsWritten(b.bottomLeft, b.bottom, b.bottomRight, [None, Const(d)], d, 10);
    CentreOnlyAsWritten(b.bottomLeft, b.bottom, b.bottomRight, [None, Const(d)], d, 11);
  }

  /** "bottom left title" and "bottom right title". */
  lemma BottomStatus()
    ensures Bottom([Const(Ascii("STATUS"))], 10) == BottomLine(Ascii("STATUS") + Dashes(4))
    ensures BottomAsWritten([Const(Ascii("STATUS"))], 10) == BottomLine(Ascii("STATUS") + Dashes(5))
    ensures Bottom([None, None, Const(Ascii("STATUS"))], 10) == BottomLine(Dashes(4) + Ascii("STATUS"))
    ensures BottomAsWritten([None, None, Const(Ascii("STATUS"))], 10) == BottomLine(Dashes(5) + Ascii("STATUS"))
  {
    WidthPlainNarrow("STATUS");
    BottomLeftSix(Ascii("STATUS"));
    BottomRightSix(Ascii("STATUS"));
  }

  /** "bottom center title" and "bottom center title odd". */
  lemma BottomCentreStatus()
    ensures Bottom([None, Const(Ascii("STATUS"))], 10) == BottomLine(Dashes(2) + Ascii("STATUS") + Dashes(2))
    ensures Bottom([None, Const(Ascii("STATUS"))], 11) == BottomLine(Dashes(2) + Ascii("STATUS") + Dashes(3))
    ensures BottomAsWritten([None, Const(Ascii("STATUS"))], 10) == BottomLine(Dashes(2) + Ascii("STATUS") + Dashes(2))
    ensures BottomAsWritten([None, Const(Ascii("STATUS"))], 11) == BottomLine(Dashes(2) + Ascii("STATUS") + Dashes(3))
  {
    WidthPlainNarrow("STATUS");
    BottomCentreSix(Ascii("STATUS"));
  }

  /** The text of "bottom right padded title": the status between two
      vertical bars, followed by the fill glyph it is handed. */
  function Padded(status: Text, m: Text): Text { Plain(Box('│')) + status + Plain(Box('│')) + m }

  lemma PaddedWidth(status: Text, m: Text)
    ensures Width(Padded(status, m)) == Width(status) + 2 + Width(m)
  {
    WidthAppend(Plain(Box('│')) + status + Plain(Box('│')), m);
    WidthAppend(Plain(Box('│')) + status, Plain(Box('│')));
    WidthAppend(Plain(Box('│')), status);
  }

  /** The padded status as a decoration that uses the fill it is handed. */
  function PaddedSlot(status: Text): Option<Content> { Some(Sized((w, m) => Padded(status, m))) }

  lemma BottomRightPaddedSix(status: Text)
    requires Width(status) == 6
    ensures Bottom([None, None, PaddedSlot(status)], 12) == BottomLine(Dashes(3) + Padded(status, Plain(Box('─'))))
  {
    var b := NormalBorder;
    var slots := [None, None, PaddedSlot(status)];
    var d := Padded(status, Plain(Box('─')));
    PaddedWidth(status, Plain(Box('─')));
    assert OrSpace(b.bottom) == b.bottom;
    assert Decor(slots, 2, 12, b.bottom) == d;
    assert Decor(slots, 0, 12, b.bottom) == [] && Decor(slots, 1, 12, b.bottom) == [];
    RightOnly(b.bottomLeft, b.bottom, b.bottomRight, slots, d, 12);
  }

  /** "bottom right padded title": three pieces of fill, then the padded
      status, which ends in the fill glyph it was handed. */
  lemma BottomRightPadded()
    ensures Bottom([None, None, PaddedSlot(Ascii("STATUS"))], 12) ==
            BottomLine(Dashes(3) + Padded(Ascii("STATUS"), Plain(Box('─'))))
  {
    WidthPlainNarrow("STATUS");
    BottomRightPaddedSix(Ascii("STATUS"));
  }

  /** As written, the nine-column padded status is preceded by fill from
      the corner to the middle of the edge: six pieces. */
  lemma BottomRightPaddedSixAsWritten(status: Text)
    requires Width(status) == 6
    ensures BottomAsWritten([None, None, PaddedSlot(status)], 12) == BottomLine(Dashes(6) + Padded(status, Plain(Box('─'))))
  {
    var b := NormalBorder;
    var slots := [None, None, PaddedSlot(status)];
    var d := Padded(status, Plain(Box('─')));
    PaddedWidth(status, Plain(Box('─')));
    assert OrSpace(b.bottom) == b.bottom;
    assert Decor(slots, 2, 12, b.bottom) == d;
    assert Decor(slots, 0, 12, b.bottom) == [] && Decor(slots, 1, 12, b.bottom) == [];
    RightOnlyAsWritten(b.bottomLeft, b.bottom, b.bottomRight, slots, d, 12);
  }

  /** "bottom right padded title" as written: six pieces of fill before the
      padded status, fifteen columns between the corners of a twelve-column
      edge. */
  lemma BottomRightPaddedAsWritten()
    ensures BottomAsWritten([None, None, PaddedSlot(Ascii("STATUS"))], 12) ==
            BottomLine(Dashes(6) + Padded(Ascii("STATUS"), Plain(Box('─'))))
    ensures Width(Dashes(6) + Padded(Ascii("STATUS"), Plain(Box('─')))) == 15
  {
    WidthPlainNarrow("STATUS");
    BottomRightPaddedSixAsWritten(Ascii("STATUS"));
    PaddedWidth(Ascii("STATUS"), Plain(Box('─')));
    WidthAppend(Dashes(6), Padded(Ascii("STATUS"), Plain(Box('─'))));
    WidthRepeat(Plain(Box('─')), 6);
  }

  /** Three visible texts with fill between them. */
  lemma ThreeTexts(left: seq<Rune>, middle: seq<Rune>, right: seq<Rune>, slots: Slots, width: int,
                   w: Widths, t0: Text, t1: Text, t2: Text, n1: nat, n2: nat)
    requires |slots| <= 3 && DashFill(middle)
    requires Allocate(Width(Decor(slots, 0, width, middle)), Width(Decor(slots, 1, width, middle)),
                      Width(Decor(slots, 2, width, middle)), width) == w
    requires Truncate(Decor(slots, 0, width, middle), w.first) == t0
    requires Truncate(Decor(slots, 1, width, middle), w.centre) == t1
    requires Truncate(Decor(slots, 2, width, middle), w.last) == t2
    requires Width(t0) > 0 && Width(t1) > 0 && Width(t2) > 0
    requires Gaps(Width(t0), Width(t1), Width(t2), width) == (n1, n2)
    ensures AnnotatedEdge(left, middle, right, slots, width, NoColour) ==
            EdgeLine(left, right, t0 + Dashes(n1) + t1 + Dashes(n2) + t2)
  {
    AnnotatedEdgeFrom(left, middle, right, slots, width, NoColour, w, t0, t1, t2, n1, n2);
    LayDashes(left, middle, right, t0, n1, t1, n2, t2);
  }

  /** The "trunc all string" layout for texts of 16, 18 and 20 columns on a
      sixteen-column edge: cut to 5, 4 and 5 columns with one piece of fill
      on either side of the centre. */
  lemma TruncAllWidths(l: Text, c: Text, r: Text, l': Text, c': Text, r': Text)
    requires Width(l) == 16 && Width(c) == 18 && Width(r) == 20
    requires Truncate(l, 5) == l' && Truncate(c, 4) == c' && Truncate(r, 5) == r'
    requires Width(l') == 5 && Width(c') == 4 && Width(r') == 5
    ensures Top([Some(Lit(l)), Some(Lit(c)), Some(Lit(r))], 16) == TopLine(l' + Dashes(1) + c' + Dashes(1) + r')
  {
    var b := NormalBorder;
    var slots := [Some(Lit(l)), Some(Lit(c)), Some(Lit(r))];
    AllocateTruncAll();
    assert Gaps(5, 4, 5, 16) == (1, 1);
    DecorLits(l, c, r, 16, b.top);
    ThreeTexts(b.topLeft, b.top, b.topRight, slots, 16, Widths(5, 4, 5), l', c', r', 1, 1);
  }

  lemma CutToPrefix(s: string, n: nat, p: string)
    requires n < |s| && s[..n] == p
    ensures Width(Ascii(s)) == |s| && Truncate(Ascii(s), n) == Ascii(p) && Width(Ascii(p)) == n
  {
    WidthPlainNarrow(s);
    TruncateAscii(s, n);
    WidthPlainNarrow(p);
  }

  lemma CutLeft()
    ensures Width(Ascii("LeftLeftLeftLeft")) == 16 && Truncate(Ascii("LeftLeftLeftLeft"), 5) == Ascii("LeftL")
    ensures Width(Ascii("LeftL")) == 5
  {
    CutToPrefix("LeftLeftLeftLeft", 5, "LeftL");
  }

  lemma CutCentre()
    ensures Width(Ascii("CenterCenterCenter")) == 18 && Truncate(Ascii("CenterCenterCenter"), 4) == Ascii("Cent")
    ensures Width(Ascii("Cent")) == 4
  {
    CutToPrefix("CenterCenterCenter", 4, "Cent");
  }

  lemma CutRight()
    ensures Width(Ascii("RightRightRightRight")) == 20 && Truncate(Ascii("RightRightRightRight"), 5) == Ascii("Right")
    ensures Width(Ascii("Right")) == 5
  {
    CutToPrefix("RightRightRightRight", 5, "Right");
  }

  /** "trunc all string". */
  lemma TruncAll()
    ensures Top([Some(Lit(Ascii("LeftLeftLeftLeft"))), Some(Lit(Ascii("CenterCenterCenter"))),
                 Some(Lit(Ascii("RightRightRightRight")))], 16) ==
            TopLine(Ascii("LeftL") + Dashes(1) + Ascii("Cent") + Dashes(1) + Ascii("Right"))
  {
    CutLeft();
    CutCentre();
    CutRight();
    TruncAllWidths(Ascii("LeftLeftLeftLeft"), Ascii("CenterCenterCenter"), Ascii("RightRightRightRight"),
                   Ascii("LeftL"), Ascii("Cent"), Ascii("Right"));
  }

  /** As written, three texts too wide to be placed leave no room for fill
      and are written whole, one after the other. */
  lemma ThreeTextsAsWritten(left: seq<Rune>, middle: seq<Rune>, right: seq<Rune>, slots: Slots, width: int,
                            l: Text, c: Text, r: Text)
    requires |slots| <= 3 && DashFill(middle) && Width(l) > 0 && Width(c) > 0 && Width(r) > 0
    requires Decor(slots, 0, width, middle) == l
    requires Decor(slots, 1, width, middle) == c
    requires Decor(slots, 2, width, middle) == r
    requires CountsAsWritten(Width(l), Width(c), Width(r), width) == (0, 0)
    ensures AnnotatedAsWritten(left, middle, right, slots, width, NoColour) == EdgeLine(left, right, l + c + r)
  {
    AnnotatedAsWrittenFrom(left, middle, right, slots, width, NoColour, l, c, r, 0, 0);
    LayDashes(left, middle, right, l, 0, c, 0, r);
    TextsWithoutFill(l, c, r);
  }

  /** Three visible texts with no fill between them. */
  lemma TextsWithoutFill(l: Text, c: Text, r: Text)
    requires Width(l) > 0 && Width(c) > 0 && Width(r) > 0
    ensures Shown(l) + Dashes(0) + Shown(c) + Dashes(0) + Shown(r) == l + c + r
  {
  }

  /** "trunc all string" as written: nothing is cut, and the three texts fill
      54 columns of a sixteen-column edge. */
  lemma TruncAllAsWritten()
    ensures TopAsWritten([Some(Lit(Ascii("LeftLeftLeftLeft"))), Some(Lit(Ascii("CenterCenterCenter"))),
                          Some(Lit(Ascii("RightRightRightRight")))], 16) ==
            TopLine(Ascii("LeftLeftLeftLeft") + Ascii("CenterCenterCenter") + Ascii("RightRightRightRight"))
  {
    var l, c, r := Ascii("LeftLeftLeftLeft"), Ascii("CenterCenterCenter"), Ascii("RightRightRightRight");
    CutLeft();
    CutCentre();
    CutRight();
    DecorLits(l, c, r, 16, NormalBorder.top);
    assert CountsAsWritten(16, 18, 20, 16) == (0, 0);
    var b := NormalBorder;
    ThreeTextsAsWritten(b.topLeft, b.top, b.topRight, [Some(Lit(l)), Some(Lit(c)), Some(Lit(r))], 16, l, c, r);
  }
}
