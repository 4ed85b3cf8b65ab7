/** Terminal text as the border code sees it: runes that occupy columns and
    escape sequences that occupy none. The display-width, strip and truncate
    primitives of the terminal library are modelled here by concrete
    definitions whose contracts carry the facts the border code relies on. */
module Text {

  /** One Unicode code point together with the number of terminal columns the
      width library assigns to it. */
  datatype Rune = Rune(ch: char, w: nat)

  /** A piece of terminal output: a visible rune or an escape sequence. */
  datatype Token = Glyph(r: Rune) | Esc(code: string)

  type Text = seq<Token>

  function Min(a: int, b: int): int { if a <= b then a else b }
  function Max(a: int, b: int): int { if a >= b then a else b }

  lemma MulAtLeast(d: int, g: int)
    requires g > 0 && d >= 1
    ensures d * g >= g
  {
  }

  lemma DiffAtLeast(q: int, q': int, g: int)
    requires g > 0 && q > q'
    ensures q * g - q' * g >= g
  {
    MulAtLeast(q - q', g);
    assert (q - q') * g == q * g - q' * g;
  }

  /** The remainder is determined by any quotient-remainder decomposition. */
  lemma ModUnique(a: int, g: int, q: int, r: int)
    requires g > 0 && 0 <= r < g && a == q * g + r
    ensures a % g == r
  {
    var q', r' := a / g, a % g;
    assert a == q' * g + r';
    if q > q' {
      DiffAtLeast(q, q', g);
      assert false;
    } else if q < q' {
      DiffAtLeast(q', q, g);
      assert false;
    }
  }

  lemma ModShift(k: int, g: int)
    requires 0 < g <= k
    ensures (k - g) % g == k % g
  {
    var q, r := (k - g) / g, (k - g) % g;
    assert k - g == q * g + r;
    assert k == (q + 1) * g + r;
    ModUnique(k, g, q + 1, r);
  }

  /** The single space used wherever an empty glyph must be shown. */
  const Space := Rune(' ', 1)

  /** The glyph, or a single space when it is empty: how the border code
      shows an empty glyph it must draw. */
  function OrSpace(g: seq<Rune>): (r: seq<Rune>)
    ensures r != []
  {
    if g == [] then [Space] else g
  }

  /** The line separator of a rendered block. */
  const NL := Glyph(Rune('\n', 0))

  /** Runes of width one, one per character: how ASCII text is measured. */
  function Narrow(s: string): (rs: seq<Rune>)
    ensures |rs| == |s|
    ensures forall k :: 0 <= k < |s| ==> rs[k] == Rune(s[k], 1)
  {
    seq(|s|, k requires 0 <= k < |s| => Rune(s[k], 1))
  }

  /** Lifts plain runes to text. */
  function Plain(rs: seq<Rune>): (t: Text)
    ensures |t| == |rs|
    ensures forall k :: 0 <= k < |rs| ==> t[k] == Glyph(rs[k])
  {
    seq(|rs|, k requires 0 <= k < |rs| => Glyph(rs[k]))
  }

  /** Narrow ASCII text. */
  function Ascii(s: string): Text { Plain(Narrow(s)) }

  /** A single narrow character. */
  function Letter(c: char): Text { [Glyph(Rune(c, 1))] }

  /** `t` repeated `n` times. */
  function Repeat(t: Text, n: nat): (r: Text)
  {
    if n == 0 then [] else t + Repeat(t, n - 1)
  }

  predicate IsPrefix<T(==)>(a: seq<T>, b: seq<T>) { |a| <= |b| && b[..|a|] == a }

  predicate IsSuffix<T(==)>(a: seq<T>, b: seq<T>) { |a| <= |b| && b[|b| - |a|..] == a }

  predicate IsEscape(t: Token) { t.Esc? }

  predicate EscapeFree(t: Text) { forall k :: 0 <= k < |t| ==> !IsEscape(t[k]) }

  function TokenWidth(t: Token): nat { if t.Glyph? then t.r.w else 0 }

  /** The number of terminal columns `t` occupies (ansi.StringWidth):
      escape sequences take none. */
  function Width(t: Text): nat
  {
    if t == [] then 0 else TokenWidth(t[0]) + Width(t[1..])
  }

  lemma {:induction false} WidthAppend(a: Text, b: Text)
    ensures Width(a + b) == Width(a) + Width(b)
  {
    if a == [] {
      assert a + b == b;
    } else {
      assert (a + b)[1..] == a[1..] + b;
      WidthAppend(a[1..], b);
    }
  }

  lemma {:induction false} WidthRepeat(t: Text, n: nat)
    ensures Width(Repeat(t, n)) == n * Width(t)
  {
    if n > 0 {
      WidthRepeat(t, n - 1);
      WidthAppend(t, Repeat(t, n - 1));
      assert n * Width(t) == Width(t) + (n - 1) * Width(t);
    }
  }

  lemma {:induction false} WidthPlainNarrow(s: string)
    ensures Width(Ascii(s)) == |s|
  {
    if s != [] {
      WidthPlainNarrow(s[1..]);
      assert Ascii(s)[1..] == Ascii(s[1..]);
    }
  }

  /** The visible text of `t` with every escape sequence removed (ansi.Strip). */
  function Strip(t: Text): (x: Text)
    ensures EscapeFree(x)
    ensures |x| <= |t|
    ensures Width(x) == Width(t)
    ensures x == t <==> EscapeFree(t)
  {
    if t == [] then []
    else if IsEscape(t[0]) then
      var x := Strip(t[1..]);
      assert |x| < |t|;
      x
    else
      var x := Strip(t[1..]);
      assert x == t[1..] <==> EscapeFree(t[1..]);
      assert EscapeFree(t) <==> EscapeFree(t[1..]) by {
        if EscapeFree(t[1..]) {
          forall k | 0 <= k < |t| ensures !IsEscape(t[k]) {
            if k > 0 { assert t[k] == t[1..][k - 1]; }
          }
        }
      }
      assert [t[0]] + x == t <==> x == t[1..] by {
        if [t[0]] + x == t { assert x == ([t[0]] + x)[1..]; }
      }
      [t[0]] + x
  }

  /** The visible runes of escape-free text. */
  function Runes(t: Text): (rs: seq<Rune>)
    requires EscapeFree(t)
    ensures |rs| == |t|
    ensures Plain(rs) == t
  {
    seq(|t|, k requires 0 <= k < |t| => t[k].r)
  }

  /** Keeps every escape sequence and the runes that fit into `room` columns,
      dropping every rune from the first one that does not fit. */
  function Cut(t: Text, room: int, dropping: bool): (r: Text)
    ensures Width(r) <= Max(room, 0)
    decreases |t|
  {
    if t == [] then []
    else if IsEscape(t[0]) then [t[0]] + Cut(t[1..], room, dropping)
    else if !dropping && TokenWidth(t[0]) <= room then
      var rest := Cut(t[1..], room - TokenWidth(t[0]), false);
      assert ([t[0]] + rest)[1..] == rest;
      [t[0]] + rest
    else
      Cut(t[1..], room, true)
  }

  /** Cutting keeps a prefix of the visible runes, and none once dropping. */
  lemma {:induction false} CutVisiblePrefix(t: Text, room: int, dropping: bool)
    ensures dropping ==> Strip(Cut(t, room, dropping)) == []
    ensures IsPrefix(Strip(Cut(t, room, dropping)), Strip(t))
    decreases |t|
  {
    if t == [] {
    } else if IsEscape(t[0]) {
      var rest := Cut(t[1..], room, dropping);
      CutVisiblePrefix(t[1..], room, dropping);
      assert Strip([t[0]] + rest) == Strip(rest) by { assert ([t[0]] + rest)[1..] == rest; }
    } else if !dropping && TokenWidth(t[0]) <= room {
      var rest := Cut(t[1..], room - TokenWidth(t[0]), false);
      CutVisiblePrefix(t[1..], room - TokenWidth(t[0]), false);
      assert ([t[0]] + rest)[1..] == rest;
      assert Strip([t[0]] + rest) == [t[0]] + Strip(rest);
    } else {
      CutVisiblePrefix(t[1..], room, true);
    }
  }

  /** ansi.Truncate with an empty tail: text that fits is returned as it is;
      otherwise the visible runes are cut to the first `n` columns while the
      escape sequences are kept. */
  function Truncate(t: Text, n: int): (r: Text)
    ensures Width(t) <= n ==> r == t
    ensures Width(r) <= Max(n, 0)
  {
    if Width(t) <= n then t
    else if n < 0 then []
    else Cut(t, n, false)
  }

  /** Truncation keeps a prefix of the visible runes. */
  lemma TruncateVisiblePrefix(t: Text, n: int)
    ensures IsPrefix(Strip(Truncate(t, n)), Strip(t))
  {
    if Width(t) > n && n >= 0 {
      CutVisiblePrefix(t, n, false);
    }
  }

  /** Text made of visible runes one column wide each. */
  predicate UnitGlyphs(t: Text) { forall k :: 0 <= k < |t| ==> t[k].Glyph? && t[k].r.w == 1 }

  lemma UnitGlyphsTail(t: Text)
    requires t != [] && UnitGlyphs(t)
    ensures UnitGlyphs(t[1..]) && !IsEscape(t[0]) && TokenWidth(t[0]) == 1
  {
    forall k | 0 <= k < |t| - 1 ensures t[1..][k].Glyph? && t[1..][k].r.w == 1 {
      assert t[1..][k] == t[k + 1];
    }
  }

  lemma PrefixStep<T>(c: seq<T>, t: seq<T>, rest: seq<T>, room: int)
    requires t != [] && room >= 1
    requires c == [t[0]] + rest && rest == t[1..][..Min(room - 1, |t| - 1)]
    ensures c == t[..Min(room, |t|)]
  {
    assert t[..Min(room, |t|)] == [t[0]] + t[1..][..Min(room - 1, |t| - 1)];
  }

  /** A visible rune that fits is kept. */
  lemma CutKeeps(t: Text, room: int)
    requires t != [] && !IsEscape(t[0]) && TokenWidth(t[0]) <= room
    ensures Cut(t, room, false) == [t[0]] + Cut(t[1..], room - TokenWidth(t[0]), false)
  {
  }

  /** A visible rune that does not fit, or comes after one, is dropped. */
  lemma CutDrops(t: Text, room: int, dropping: bool)
    requires t != [] && !IsEscape(t[0]) && (dropping || TokenWidth(t[0]) > room)
    ensures Cut(t, room, dropping) == Cut(t[1..], room, true)
  {
  }

  lemma {:induction false} CutDroppingUnits(t: Text, room: int)
    requires UnitGlyphs(t)
    ensures Cut(t, room, true) == []
  {
    if t != [] {
      UnitGlyphsTail(t);
      CutDrops(t, room, true);
      CutDroppingUnits(t[1..], room);
    }
  }

  lemma {:induction false} CutUnits(t: Text, room: int)
    requires 0 <= room && UnitGlyphs(t)
    ensures Cut(t, room, false) == t[..Min(room, |t|)]
  {
    if t != [] {
      UnitGlyphsTail(t);
      if room >= 1 {
        CutKeeps(t, room);
        CutUnits(t[1..], room - 1);
        PrefixStep(Cut(t, room, false), t, Cut(t[1..], room - 1, false), room);
      } else {
        CutDrops(t, room, false);
        CutDroppingUnits(t[1..], room);
      }
    }
  }

  /** Truncating ASCII text keeps its first `n` characters. */
  lemma TruncateAscii(s: string, n: int)
    requires 0 <= n
    ensures Truncate(Ascii(s), n) == Ascii(s[..Min(n, |s|)])
  {
    WidthPlainNarrow(s);
    if n < |s| {
      CutUnits(Ascii(s), n);
      assert Ascii(s)[..n] == Ascii(s[..n]);
    } else {
      assert s[..|s|] == s;
    }
  }
}
