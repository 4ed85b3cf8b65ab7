/** splitStyledString: cutting a decoration into one unit per row of a
    vertical edge, each unit carrying the escape sequences that wrap the
    decoration's visible text. */
module Segmentation {
  import opened Text
  import opened Utf8

  /** `x` occurs in `s` at position `i`. */
  predicate Occurs(s: Text, x: Text, i: int)
  {
    0 <= i && i + |x| <= |s| && s[i..i + |x|] == x
  }

  /** The first occurrence of `x` in `s` at or after `k`, or -1. */
  function IndexFrom(s: Text, x: Text, k: nat): (i: int)
    ensures i == -1 || (k <= i && Occurs(s, x, i))
    ensures forall j :: k <= j && (i == -1 || j < i) ==> !Occurs(s, x, j)
    decreases |s| - k
  {
    if k + |x| > |s| then -1
    else if s[k..k + |x|] == x then k
    else IndexFrom(s, x, k + 1)
  }

  /** strings.Index: the first position at which `x` occurs in `s`, or -1. */
  function IndexOf(s: Text, x: Text): (i: int)
    ensures i == -1 || Occurs(s, x, i)
    ensures forall j :: 0 <= j && (i == -1 || j < i) ==> !Occurs(s, x, j)
  {
    IndexFrom(s, x, 0)
  }

  /** Text made of escape sequences only. */
  predicate EscapesOnly(t: Text) { forall k :: 0 <= k < |t| ==> IsEscape(t[k]) }

  /** The empty unit. */
  const NoText: Text := []

  /** A rune encoded in a single UTF-8 byte. */
  predicate SingleByte(r: Rune) { RuneLen(r.ch) == 1 }

  /** The styled units of the runes `rs`: the loop `for i, r := range x`
      fills the slot at each rune's byte offset with the wrapped rune, and
      the slots at continuation bytes stay empty, so there is one unit per
      byte of the visible text. */
  function Spread(rs: seq<Rune>, prefix: Text, suffix: Text): (units: seq<Text>)
    ensures |units| == |Encode(rs)|
  {
    if rs == [] then []
    else
      [prefix + [Glyph(rs[0])] + suffix]
      + seq(RuneLen(rs[0].ch) - 1, _ => NoText)
      + Spread(rs[1..], prefix, suffix)
  }

  /** The slot at every continuation byte of the visible text stays empty,
      and only those slots do: each rune's first byte gets its unit. */
  lemma {:induction false} SpreadEmptySlots(rs: seq<Rune>, prefix: Text, suffix: Text)
    ensures var units := Spread(rs, prefix, suffix);
            forall i :: 0 <= i < |units| ==> (units[i] == NoText <==> IsContinuation(Encode(rs)[i]))
  {
    if rs != [] {
      var e := EncodeRune(rs[0].ch);
      var n := |e|;
      var units, tail := Spread(rs, prefix, suffix), Spread(rs[1..], prefix, suffix);
      var unit := prefix + [Glyph(rs[0])] + suffix;
      SpreadEmptySlots(rs[1..], prefix, suffix);
      EncodingShape(rs[0].ch);
      assert Encode(rs) == e + Encode(rs[1..]);
      assert units == [unit] + seq(n - 1, _ => NoText) + tail;
      forall i | 0 <= i < |units|
        ensures units[i] == NoText <==> IsContinuation(Encode(rs)[i])
      {
        if i == 0 {
          assert units[0] == unit && |unit| > 0;
        } else if i < n {
          assert units[i] == NoText && Encode(rs)[i] == e[i];
        } else {
          assert units[i] == tail[i - n] && Encode(rs)[i] == Encode(rs[1..])[i - n];
        }
      }
    }
  }

  /** The unit at the byte offset where rune `k` starts (the length of the
      encoding of the runes before it) is that rune wrapped in `prefix` and
      `suffix`. */
  lemma {:induction false} SpreadAt(rs: seq<Rune>, prefix: Text, suffix: Text, k: int)
    requires 0 <= k < |rs|
    ensures |Encode(rs[..k])| < |Spread(rs, prefix, suffix)|
    ensures Spread(rs, prefix, suffix)[|Encode(rs[..k])|] == prefix + [Glyph(rs[k])] + suffix
  {
    var e := EncodeRune(rs[0].ch);
    var n := |e|;
    var units, tail := Spread(rs, prefix, suffix), Spread(rs[1..], prefix, suffix);
    assert units == [prefix + [Glyph(rs[0])] + suffix] + seq(n - 1, _ => NoText) + tail;
    if k == 0 {
      assert rs[..0] == [];
    } else {
      var before := rs[1..][..k - 1];
      SpreadAt(rs[1..], prefix, suffix, k - 1);
      assert rs[..k] == [rs[0]] + before;
      assert ([rs[0]] + before)[1..] == before;
      assert Encode(rs[..k]) == e + Encode(before);
      assert units[n + |Encode(before)|] == tail[|Encode(before)|];
    }
  }

  /** Unstyled text splits into one unit per rune (strings.Split(s, "")). */
  function Singles(t: Text): (units: seq<Text>)
    ensures |units| == |t|
    ensures forall k :: 0 <= k < |t| ==> units[k] == [t[k]]
  {
    seq(|t|, k requires 0 <= k < |t| => [t[k]])
  }

  /** The escape sequences before the first occurrence of the visible text,
      cut off when it occurs past the start (`strings.Index(s, x) > 0`). */
  function PrefixOf(s: Text): (p: Text)
  {
    var i := IndexOf(s, Strip(s));
    if i > 0 then s[..i] else []
  }

  /** The suffix as written: it is searched for in what is left once the
      prefix is cut off, and taken only when found past the start. */
  function SuffixAsWritten(s: Text): (q: Text)
  {
    var x := Strip(s);
    var i := IndexOf(s, x);
    var rest := if i > 0 then s[i..] else s;
    var j := IndexOf(rest, x);
    if j > 0 then rest[j..] else []
  }

  /** The suffix as intended: what follows the visible text. */
  function SuffixOf(s: Text): (q: Text)
  {
    var x := Strip(s);
    var i := IndexOf(s, x);
    if i >= 0 then s[i + |x|..] else []
  }

  /** splitStyledString as written. The prefix is cut off at the first
      occurrence of the visible text; the suffix is searched for in what is
      left, which then starts with the visible text, so it is never found. */
  function SplitAsWritten(s: Text): (units: seq<Text>)
    ensures s == [] ==> units == []
    ensures s != [] && Strip(s) == s ==> units == Singles(s)
    ensures Strip(s) != s ==> |units| == |Encode(Runes(Strip(s)))|
  {
    if s == [] then []
    else if Strip(s) == s then Singles(s)
    else Spread(Runes(Strip(s)), PrefixOf(s), SuffixAsWritten(s))
  }

  /** splitStyledString as intended: every unit carries the escape sequences
      before the visible text and those after it. */
  function SplitStyled(s: Text): (units: seq<Text>)
    ensures s == [] ==> units == []
    ensures s != [] && Strip(s) == s ==> units == Singles(s)
    ensures Strip(s) != s ==> |units| == |Encode(Runes(Strip(s)))|
  {
    if s == [] then []
    else if Strip(s) == s then Singles(s)
    else Spread(Runes(Strip(s)), PrefixOf(s), SuffixOf(s))
  }

  lemma {:induction false} StripAppend(a: Text, b: Text)
    ensures Strip(a + b) == Strip(a) + Strip(b)
  {
    if a != [] {
      assert (a + b)[1..] == a[1..] + b;
      StripAppend(a[1..], b);
    } else {
      assert a + b == b;
    }
  }

  lemma {:induction false} StripEscapesOnly(t: Text)
    requires EscapesOnly(t)
    ensures Strip(t) == []
  {
    if t != [] {
      assert EscapesOnly(t[1..]) by {
        forall k | 0 <= k < |t[1..]| ensures IsEscape(t[1..][k]) { assert t[1..][k] == t[k + 1]; }
      }
      StripEscapesOnly(t[1..]);
    }
  }

  /** Escape sequences cannot contain the start of visible text, so the
      visible text of a wrapped decoration is found right after its opening
      escape sequences. */
  lemma IndexAfterEscapes(p: Text, x: Text, q: Text)
    requires EscapesOnly(p) && x != [] && !IsEscape(x[0])
    ensures IndexOf(p + x + q, x) == |p|
  {
    var s := p + x + q;
    assert s[|p|..|p| + |x|] == x;
    assert Occurs(s, x, |p|);
    var i := IndexOf(s, x);
    if i < |p| {
      assert false;
    }
  }

  /** Wrapping single-byte runes in `prefix`/`suffix` gives one unit per rune. */
  lemma {:induction false} SpreadSingleBytes(rs: seq<Rune>, prefix: Text, suffix: Text)
    requires forall k :: 0 <= k < |rs| ==> SingleByte(rs[k])
    ensures Spread(rs, prefix, suffix) == seq(|rs|, k requires 0 <= k < |rs| => prefix + [Glyph(rs[k])] + suffix)
  {
    if rs != [] {
      SpreadSingleBytes(rs[1..], prefix, suffix);
      assert seq(RuneLen(rs[0].ch) - 1, _ => NoText) == [];
    }
  }

  /** The decoration `p + rs + q`: visible runes wrapped in escape sequences. */
  function Wrapped(p: Text, rs: seq<Rune>, q: Text): Text { p + Plain(rs) + q }

  lemma StripWrapped(p: Text, rs: seq<Rune>, q: Text)
    requires EscapesOnly(p) && EscapesOnly(q)
    ensures Strip(Wrapped(p, rs, q)) == Plain(rs)
  {
    var x := Plain(rs);
    StripAppend(p + x, q);
    StripAppend(p, x);
    StripEscapesOnly(p);
    StripEscapesOnly(q);
    assert EscapeFree(x);
    assert Strip(x) == x;
    assert Strip(p + x) == x by { assert [] + x == x; }
    assert Strip(p + x) + [] == x;
  }

  /** The intended split: each single-byte rune of a wrapped decoration
      becomes a unit wrapped in the same escape sequences, before and after. */
  lemma SplitStyledWrapped(p: Text, rs: seq<Rune>, q: Text)
    requires EscapesOnly(p) && EscapesOnly(q)
    requires forall k :: 0 <= k < |rs| ==> SingleByte(rs[k])
    ensures var units := SplitStyled(Wrapped(p, rs, q));
            |units| == |rs| &&
            forall k :: 0 <= k < |rs| ==> units[k] == p + [Glyph(rs[k])] + q
  {
    var s := Wrapped(p, rs, q);
    var x := Plain(rs);
    StripWrapped(p, rs, q);
    SpreadSingleBytes(rs, p, q);
    assert EscapeFree(x);
    if s == [] {
    } else if x == s {
      if p != [] { assert false; }
      if q != [] { assert false; }
      assert s == x;
    } else if rs == [] {
      assert Runes(x) == [];
    } else {
      WrappedParts(p, rs, q);
    }
  }

  /** The parts of a wrapped decoration are found where they were put. */
  lemma WrappedParts(p: Text, rs: seq<Rune>, q: Text)
    requires EscapesOnly(p) && EscapesOnly(q) && rs != []
    ensures PrefixOf(Wrapped(p, rs, q)) == p
    ensures SuffixOf(Wrapped(p, rs, q)) == q
    ensures Runes(Strip(Wrapped(p, rs, q))) == rs
  {
    var s := Wrapped(p, rs, q);
    var x := Plain(rs);
    StripWrapped(p, rs, q);
    IndexAfterEscapes(p, x, q);
    assert s[..|p|] == p;
    assert s[|p| + |x|..] == q;
    assert Plain(Runes(x)) == x;
    PlainInjective(Runes(x), rs);
  }

  lemma {:induction false} PlainInjective(a: seq<Rune>, b: seq<Rune>)
    requires Plain(a) == Plain(b)
    ensures a == b
  {
    assert |a| == |b|;
    forall k | 0 <= k < |a| ensures a[k] == b[k] {
      assert Plain(a)[k] == Glyph(a[k]);
    }
  }

  /** As written the suffix search always fails: what remains after the
      prefix is cut starts with the visible text, so the search finds it at
      position 0 (or not at all when the visible text never occurs). */
  lemma SuffixAsWrittenEmpty(s: Text)
    ensures SuffixAsWritten(s) == []
  {
    var x := Strip(s);
    var i := IndexOf(s, x);
    var rest := if i > 0 then s[i..] else s;
    if i > 0 {
      assert rest[0..|x|] == s[i..i + |x|];
      assert Occurs(rest, x, 0);
    }
    assert IndexOf(rest, x) <= 0;
  }

  /** Hence the split as written is the intended one without the suffix. */
  lemma SplitAsWrittenDropsSuffix(s: Text)
    requires s != [] && Strip(s) != s
    ensures SplitAsWritten(s) == Spread(Runes(Strip(s)), PrefixOf(s), [])
  {
    SuffixAsWrittenEmpty(s);
  }

  /** As written, the units of a wrapped decoration keep only the escape
      sequences before the visible text: the closing sequences are lost. */
  lemma SplitAsWrittenWrapped(p: Text, rs: seq<Rune>, q: Text)
    requires EscapesOnly(p) && EscapesOnly(q)
    requires forall k :: 0 <= k < |rs| ==> SingleByte(rs[k])
    ensures var units := SplitAsWritten(Wrapped(p, rs, q));
            |units| == |rs| &&
            forall k :: 0 <= k < |rs| ==> units[k] == p + [Glyph(rs[k])]
  {
    var s := Wrapped(p, rs, q);
    var x := Plain(rs);
    StripWrapped(p, rs, q);
    SpreadSingleBytes(rs, p, []);
    assert EscapeFree(x);
    if s == [] {
    } else if x == s {
      if p != [] { assert false; }
      if q != [] { assert false; }
    } else if rs == [] {
      assert Runes(x) == [];
      SplitAsWrittenDropsSuffix(s);
    } else {
      SplitAsWrittenDropsSuffix(s);
      WrappedParts(p, rs, q);
    }
  }

  /** Every unit of an unstyled string is one of its runes, in order. */
  lemma SplitUnstyled(t: Text)
    requires EscapeFree(t)
    ensures SplitStyled(t) == Singles(t)
    ensures SplitAsWritten(t) == Singles(t)
  {
  }

  const Esc41: Token := Esc("\U{1B}[41m")
  const Esc0: Token := Esc("\U{1B}[0m")

  /** ASCII text splits into its one-letter strings, as written and as
      intended. */
  lemma SplitAscii(s: string)
    ensures SplitStyled(Ascii(s)) == seq(|s|, k requires 0 <= k < |s| => Letter(s[k]))
    ensures SplitAsWritten(Ascii(s)) == seq(|s|, k requires 0 <= k < |s| => Letter(s[k]))
  {
    assert EscapeFree(Ascii(s));
    SplitUnstyled(Ascii(s));
  }

  /** The empty string has no units. */
  lemma SplitEmpty()
    ensures SplitStyled([]) == [] && SplitAsWritten([]) == []
  {
  }

  /** "abc" splits into its three letters. */
  lemma SplitAbc()
    ensures SplitStyled(Ascii("abc")) == [Letter('a'), Letter('b'), Letter('c')]
  {
    SplitAscii("abc");
  }

  /** Three one-column letters wrapped in an opening and a closing escape
      sequence. */
  function StyledThree(p: Token, a: char, b: char, c: char, q: Token): Text
  {
    [p] + Ascii([a, b, c]) + [q]
  }

  /** The styled case of the source's table test, for any three one-byte
      letters: the intended split wraps every letter in both escape
      sequences. */
  lemma SplitStyledLetters(p: Token, a: char, b: char, c: char, q: Token)
    requires IsEscape(p) && IsEscape(q) && RuneLen(a) == 1 && RuneLen(b) == 1 && RuneLen(c) == 1
    ensures SplitStyled(StyledThree(p, a, b, c, q)) ==
            [[p] + Letter(a) + [q], [p] + Letter(b) + [q], [p] + Letter(c) + [q]]
  {
    var rs := [Rune(a, 1), Rune(b, 1), Rune(c, 1)];
    assert Narrow([a, b, c]) == rs;
    SplitStyledWrapped([p], rs, [q]);
    assert StyledThree(p, a, b, c, q) == Wrapped([p], rs, [q]);
    var u := SplitStyled(StyledThree(p, a, b, c, q));
    assert |u| == 3;
    assert u[0] == [p] + Letter(a) + [q];
    assert u[1] == [p] + Letter(b) + [q];
    assert u[2] == [p] + Letter(c) + [q];
    assert u == [u[0], u[1], u[2]];
  }

  /** As written the closing escape sequence is lost from every letter. */
  lemma SplitAsWrittenLetters(p: Token, a: char, b: char, c: char, q: Token)
    requires IsEscape(p) && IsEscape(q) && RuneLen(a) == 1 && RuneLen(b) == 1 && RuneLen(c) == 1
    ensures SplitAsWritten(StyledThree(p, a, b, c, q)) ==
            [[p] + Letter(a), [p] + Letter(b), [p] + Letter(c)]
  {
    var rs := [Rune(a, 1), Rune(b, 1), Rune(c, 1)];
    assert Narrow([a, b, c]) == rs;
    SplitAsWrittenWrapped([p], rs, [q]);
    assert StyledThree(p, a, b, c, q) == Wrapped([p], rs, [q]);
    var u := SplitAsWritten(StyledThree(p, a, b, c, q));
    assert |u| == 3;
    assert u[0] == [p] + Letter(a);
    assert u[1] == [p] + Letter(b);
    assert u[2] == [p] + Letter(c);
    assert u == [u[0], u[1], u[2]];
  }

  /** "\x1b[41mabc\x1b[0m": every letter between the red background and
      the reset. */
  lemma SplitStyledFixture()
    ensures SplitStyled(StyledThree(Esc41, 'a', 'b', 'c', Esc0)) ==
            [[Esc41] + Letter('a') + [Esc0], [Esc41] + Letter('b') + [Esc0], [Esc41] + Letter('c') + [Esc0]]
  {
    SplitStyledLetters(Esc41, 'a', 'b', 'c', Esc0);
  }

  /** As written the same string yields units that never reset the style. */
  lemma SplitAsWrittenFixture()
    ensures SplitAsWritten(StyledThree(Esc41, 'a', 'b', 'c', Esc0)) ==
            [[Esc41] + Letter('a'), [Esc41] + Letter('b'), [Esc41] + Letter('c')]
    ensures SplitAsWritten(StyledThree(Esc41, 'a', 'b', 'c', Esc0)) != SplitStyled(StyledThree(Esc41, 'a', 'b', 'c', Esc0))
  {
    SplitAsWrittenLetters(Esc41, 'a', 'b', 'c', Esc0);
    SplitStyledLetters(Esc41, 'a', 'b', 'c', Esc0);
    assert |[Esc41] + Letter('a')| == 2;
    assert |[Esc41] + Letter('a') + [Esc0]| == 3;
  }
}
