/** Whole boxes: the cases of the source's TestBorders table and the full
    three-line expectations of TestBorderFunc, drawn by applyBorder with the
    standard border on every side and no colour, in both readings. The
    content is given as it reaches applyBorder, already padded to the width
    the style sets. */
module Boxes {
  import opened Text
  import opened Geometry
  import opened Decoration
  import opened Horizontal
  import opened Assembly
  import opened BorderFunc
  import opened Vertical

  /** No colour on any side. */
  const Plainly := Painters(NoColour, NoColour, NoColour, NoColour)

  lemma {:induction false} RepeatOne(x: Token, n: nat)
    ensures |Repeat([x], n)| == n
    ensures forall t :: 0 <= t < n ==> Repeat([x], n)[t] == x
  {
    if n > 0 {
      RepeatOne(x, n - 1);
      assert forall t :: 1 <= t < n ==> Repeat([x], n)[t] == Repeat([x], n - 1)[t - 1];
    }
  }

  /** The plain edge drawn with the standard fill is `width` dashes between
      its corners. */
  lemma DashEdge(l: seq<Rune>, r: seq<Rune>, width: nat)
    ensures Advancing(Box('─'), width)
    ensures HorizontalEdge(l, Box('─'), r, width) == EdgeLine(l, r, Dashes(width))
  {
    var fill := Box('─');
    var f := FillFrom(fill, 0, 0, width);
    FillUnitCount(fill, 0, 0, width);
    RepeatOne(Glyph(Rune('─', 1)), width);
    assert Plain(fill) == [Glyph(Rune('─', 1))];
    assert forall t :: 0 <= t < |f| ==> f[t] == Rune('─', 1);
    assert Plain(f) == Dashes(width);
    assert Plain(l + f + r) == Plain(l) + Plain(f) + Plain(r);
  }

  /** Text of one-column runes holds no line break. */
  lemma AsciiOneLine(s: string)
    ensures NL !in Ascii(s)
  {
    assert forall k :: 0 <= k < |s| ==> Ascii(s)[k].r.w == 1;
  }

  /** A line without line breaks is the only line of the content. */
  lemma OneLine(t: Text)
    requires NL !in t
    ensures SplitLines(t) == [t] && MaxWidth([t]) == Width(t)
  {
    SplitNoBreak(t, []);
    assert t + [] == t;
  }

  /** The row of a one-line box. */
  function Framed(t: Text): Text { Plain(Box('│')) + t + Plain(Box('│')) }

  /** The top edge of a box `n` columns wide with the given decorations. */
  function TopOf(v: Reading, slots: Slots, n: nat): Text
    requires |slots| <= 3
  {
    if slots == [] then TopLine(Dashes(n))
    else match v
      case AsWritten => TopAsWritten(slots, n)
      case Intended => Top(slots, n)
  }

  /** The bottom edge of a box `n` columns wide with the given decorations. */
  function BottomOf(v: Reading, slots: Slots, n: nat): Text
    requires |slots| <= 3
  {
    if slots == [] then BottomLine(Dashes(n))
    else match v
      case AsWritten => BottomAsWritten(slots, n)
      case Intended => Bottom(slots, n)
  }

  lemma TopTextOf(v: Reading, lines: seq<Text>, d: Decorations, n: nat)
    requires MaxWidth(lines) == n && |d.top| <= 3
    ensures Advancing(NormalBorder.top, n)
    ensures TopText(v, lines, NormalBorder, d, Plainly) == TopOf(v, d.top, n)
  {
    DashEdge(NormalBorder.topLeft, NormalBorder.topRight, n);
  }

  lemma BottomTextOf(v: Reading, lines: seq<Text>, d: Decorations, n: nat)
    requires MaxWidth(lines) == n && |d.bottom| <= 3
    ensures Advancing(NormalBorder.bottom, n)
    ensures BottomText(v, lines, NormalBorder, d, Plainly) == BottomOf(v, d.bottom, n)
  {
    DashEdge(NormalBorder.bottomLeft, NormalBorder.bottomRight, n);
  }

  /** With undecorated sides the only row is the line between two bars. */
  lemma OneRow(v: Reading, t: Text, d: Decorations)
    requires DecorationsFit(d) && d.left == [] && d.right == []
    ensures Rows(v, [t], NormalBorder, AllSides, d, Plainly) == [Framed(t)]
  {
    assert SideColumn(Box('│'), 1)[0] == Plain(Box('│'));
  }

  /** Every side drawn leaves the standard border as it is. */
  lemma NormalizeStandard()
    ensures Normalize(NormalBorder, AllSides) == NormalBorder
  {
  }

  /** The standard box on every side: the block of the content's lines. */
  lemma StandardBlock(v: Reading, str: Text, d: Decorations)
    requires DecorationsFit(d) && EdgesAdvance(NormalBorder, AllSides, d, MaxWidth(SplitLines(str)))
    ensures ApplyBorder(v, str, NormalBorder, AllSides, d, Plainly) ==
            Join(Block(v, SplitLines(str), NormalBorder, AllSides, d, Plainly))
  {
    NormalizeStandard();
  }

  /** A one-line content in a standard box on every side: the top edge, the
      line between two vertical bars, the bottom edge, each edge drawn as
      the reading draws it. */
  lemma OneLineBox(v: Reading, t: Text, top: Slots, bottom: Slots)
    requires NL !in t && |top| <= 3 && |bottom| <= 3
    ensures var d := Decorations(top, [], bottom, []);
            EdgesAdvance(NormalBorder, AllSides, d, Width(t)) &&
            ApplyBorder(v, t, NormalBorder, AllSides, d, Plainly) ==
            Join([TopOf(v, top, Width(t)), Framed(t), BottomOf(v, bottom, Width(t))])
  {
    var n := Width(t);
    var d := Decorations(top, [], bottom, []);
    OneLine(t);
    TopTextOf(v, [t], d, n);
    BottomTextOf(v, [t], d, n);
    StandardBlock(v, t, d);
    OneRow(v, t, d);
    BlockAllSides(v, [t], NormalBorder, d, Plainly);
    var tt, rows, bt := TopText(v, [t], NormalBorder, d, Plainly), Rows(v, [t], NormalBorder, AllSides, d, Plainly),
                        BottomText(v, [t], NormalBorder, d, Plainly);
    ThreeLines(tt, rows, bt, TopOf(v, top, n), Framed(t), BottomOf(v, bottom, n));
  }

  lemma ThreeLines(a: Text, rows: seq<Text>, c: Text, a': Text, row: Text, c': Text)
    requires a == a' && rows == [row] && c == c'
    ensures [a] + rows + [c] == [a', row, c']
  {
  }

  /** Content padded to `n` columns of spaces, as an empty string reaches
      applyBorder from a style of width `n`. */
  function Blank(n: nat): Text { Ascii(seq(n, _ => ' ')) }

  /** An empty content of width `n` in a standard box. */
  lemma BlankBox(v: Reading, n: nat, top: Slots, bottom: Slots)
    requires |top| <= 3 && |bottom| <= 3
    ensures var d := Decorations(top, [], bottom, []);
            EdgesAdvance(NormalBorder, AllSides, d, n) &&
            ApplyBorder(v, Blank(n), NormalBorder, AllSides, d, Plainly) ==
            Join([TopOf(v, top, n), Framed(Blank(n)), BottomOf(v, bottom, n)])
  {
    WidthPlainNarrow(seq(n, _ => ' '));
    AsciiOneLine(seq(n, _ => ' '));
    OneLineBox(v, Blank(n), top, bottom);
  }

  /** "border with width", in either reading. */
  lemma BorderWithWidth(v: Reading)
    ensures ApplyBorder(v, Blank(10), NormalBorder, AllSides, NoDecorations, Plainly) ==
            Join([TopLine(Dashes(10)), Framed(Blank(10)), BottomLine(Dashes(10))])
  {
    BlankBox(v, 10, [], []);
  }

  /** "top center title" of TestBorders: a five-letter line in a box five
      columns wide, in either reading. */
  lemma HelloBox(v: Reading)
    ensures ApplyBorder(v, Ascii("HELLO"), NormalBorder, AllSides, NoDecorations, Plainly) ==
            Join([TopLine(Dashes(5)), Framed(Ascii("HELLO")), BottomLine(Dashes(5))])
  {
    WidthPlainNarrow("HELLO");
    AsciiOneLine("HELLO");
    OneLineBox(v, Ascii("HELLO"), [], []);
  }

  /** "top left title string", the whole box: the title fits, so both
      readings draw it the same. */
  lemma TopLeftTitleBox(v: Reading)
    ensures ApplyBorder(v, Blank(10), NormalBorder, AllSides, Decorations([Some(Lit(Ascii("TITLE")))], [], [], []), Plainly) ==
            Join([TopLine(Ascii("TITLE") + Dashes(5)), Framed(Blank(10)), BottomLine(Dashes(10))])
  {
    BlankBox(v, 10, [Some(Lit(Ascii("TITLE")))], []);
    TopLeftTitle();
  }

  /** "bottom left title", the whole box: as written the bottom line has
      five pieces of fill and is 13 columns wide above 12-column rows; as
      intended it has four, and the box is a rectangle. */
  lemma BottomLeftStatusBox()
    ensures ApplyBorder(AsWritten, Blank(10), NormalBorder, AllSides, Decorations([], [], [Const(Ascii("STATUS"))], []), Plainly) ==
            Join([TopLine(Dashes(10)), Framed(Blank(10)), BottomLine(Ascii("STATUS") + Dashes(5))])
    ensures Width(BottomLine(Ascii("STATUS") + Dashes(5))) == 13 && Width(Framed(Blank(10))) == 12
    ensures ApplyBorder(Intended, Blank(10), NormalBorder, AllSides, Decorations([], [], [Const(Ascii("STATUS"))], []), Plainly) ==
            Join([TopLine(Dashes(10)), Framed(Blank(10)), BottomLine(Ascii("STATUS") + Dashes(4))])
  {
    StatusBox(AsWritten);
    StatusBox(Intended);
    StatusLineWidth();
    FramedWidth(Blank(10));
    WidthPlainNarrow(seq(10, _ => ' '));
  }

  lemma StatusBox(v: Reading)
    ensures ApplyBorder(v, Blank(10), NormalBorder, AllSides, Decorations([], [], [Const(Ascii("STATUS"))], []), Plainly) ==
            Join([TopLine(Dashes(10)), Framed(Blank(10)), BottomOf(v, [Const(Ascii("STATUS"))], 10)])
    ensures BottomOf(v, [Const(Ascii("STATUS"))], 10) ==
            BottomLine(Ascii("STATUS") + (if v == AsWritten then Dashes(5) else Dashes(4)))
  {
    BlankBox(v, 10, [], [Const(Ascii("STATUS"))]);
    BottomStatus();
  }

  lemma StatusLineWidth()
    ensures Width(BottomLine(Ascii("STATUS") + Dashes(5))) == 13
  {
    WidthPlainNarrow("STATUS");
    WidthRepeat(Plain(Box('─')), 5);
    var b := NormalBorder;
    WidthAppend(Plain(b.bottomLeft) + (Ascii("STATUS") + Dashes(5)), Plain(b.bottomRight));
    WidthAppend(Plain(b.bottomLeft), Ascii("STATUS") + Dashes(5));
    WidthAppend(Ascii("STATUS"), Dashes(5));
  }

  lemma FramedWidth(t: Text)
    ensures Width(Framed(t)) == Width(t) + 2
  {
    WidthAppend(Plain(Box('│')) + t, Plain(Box('│')));
    WidthAppend(Plain(Box('│')), t);
  }

  /** "trunc all string", the whole box: as written the three texts are
      written whole; as intended they are cut to 5, 4 and 5 columns. */
  lemma TruncAllBox()
    ensures ApplyBorder(AsWritten, Blank(16), NormalBorder, AllSides, Decorations(TruncSlots, [], [], []), Plainly) ==
            Join([TopLine(Ascii("LeftLeftLeftLeft") + Ascii("CenterCenterCenter") + Ascii("RightRightRightRight")),
                  Framed(Blank(16)), BottomLine(Dashes(16))])
    ensures ApplyBorder(Intended, Blank(16), NormalBorder, AllSides, Decorations(TruncSlots, [], [], []), Plainly) ==
            Join([TopLine(Ascii("LeftL") + Dashes(1) + Ascii("Cent") + Dashes(1) + Ascii("Right")),
                  Framed(Blank(16)), BottomLine(Dashes(16))])
  {
    TruncAllBoxAsWritten();
    TruncAllBoxIntended();
  }

  /** The three texts of "trunc all string". */
  const TruncSlots: Slots := [Some(Lit(Ascii("LeftLeftLeftLeft"))), Some(Lit(Ascii("CenterCenterCenter"))),
                              Some(Lit(Ascii("RightRightRightRight")))]

  lemma TruncAllBoxAsWritten()
    ensures ApplyBorder(AsWritten, Blank(16), NormalBorder, AllSides, Decorations(TruncSlots, [], [], []), Plainly) ==
            Join([TopLine(Ascii("LeftLeftLeftLeft") + Ascii("CenterCenterCenter") + Ascii("RightRightRightRight")),
                  Framed(Blank(16)), BottomLine(Dashes(16))])
  {
    BlankBox(AsWritten, 16, TruncSlots, []);
    TruncAllAsWritten();
  }

  lemma TruncAllBoxIntended()
    ensures ApplyBorder(Intended, Blank(16), NormalBorder, AllSides, Decorations(TruncSlots, [], [], []), Plainly) ==
            Join([TopLine(Ascii("LeftL") + Dashes(1) + Ascii("Cent") + Dashes(1) + Ascii("Right")),
                  Framed(Blank(16)), BottomLine(Dashes(16))])
  {
    BlankBox(Intended, 16, TruncSlots, []);
    TruncAll();
  }
}
