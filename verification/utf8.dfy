/** The UTF-8 byte view of strings, for the two places where the border code
    works on bytes: taking a corner's first rune by decoding its leading
    sequence, and sizing the units of a styled decoration by byte length. */
module Utf8 {
  import opened Text

  type Byte = b: int | 0 <= b < 256

  /** The number of bytes UTF-8 uses for `c`. */
  function RuneLen(c: char): (n: nat)
    ensures 1 <= n <= 4
  {
    var cp := c as int;
    if cp < 0x80 then 1 else if cp < 0x800 then 2 else if cp < 0x10000 then 3 else 4
  }

  /** The UTF-8 encoding of one code point. */
  function EncodeRune(c: char): (bs: seq<Byte>)
    ensures |bs| == RuneLen(c)
  {
    var cp := c as int;
    if cp < 0x80 then [cp]
    else if cp < 0x800 then [0xC0 + cp / 64, 0x80 + cp % 64]
    else if cp < 0x10000 then [0xE0 + cp / 4096, 0x80 + (cp / 64) % 64, 0x80 + cp % 64]
    else [0xF0 + cp / 262144, 0x80 + (cp / 4096) % 64, 0x80 + (cp / 64) % 64, 0x80 + cp % 64]
  }

  /** The bytes of a Go string holding the runes `rs`. */
  function Encode(rs: seq<Rune>): (bs: seq<Byte>)
  {
    if rs == [] then [] else EncodeRune(rs[0].ch) + Encode(rs[1..])
  }

  /** The length of the sequence a leading byte announces, as
      utf8.DecodeRuneInString's first-byte table reads it: C2-DF lead two
      bytes, E0-EF three and F0-F4 four; ASCII and every byte that cannot
      lead a sequence (80-C1, F5-FF) count as one. */
  function SequenceLen(b: Byte): (n: nat)
    ensures 1 <= n <= 4
    ensures n > 1 <==> 0xC2 <= b <= 0xF4
  {
    if b < 0x80 then 1
    else if 0xC2 <= b < 0xE0 then 2
    else if 0xE0 <= b < 0xF0 then 3
    else if 0xF0 <= b <= 0xF4 then 4
    else 1
  }

  /** The range the byte after lead `b` must fall in: narrower after E0
      (no overlong forms), ED (no surrogates), F0 (no overlong forms) and F4
      (nothing above U+10FFFF). */
  function SecondLow(b: Byte): Byte { if b == 0xE0 then 0xA0 else if b == 0xF0 then 0x90 else 0x80 }
  function SecondHigh(b: Byte): Byte { if b == 0xED then 0x9F else if b == 0xF4 then 0x8F else 0xBF }

  predicate IsContinuation(b: Byte) { 0x80 <= b <= 0xBF }

  /** The sequence `s` opens with: `SequenceLen` of its first byte, when
      that many bytes are present, the second lies in its lead's range and
      the others are continuation bytes. */
  predicate Accepted(s: seq<Byte>)
  {
    s != [] && 1 < SequenceLen(s[0]) <= |s| &&
    SecondLow(s[0]) <= s[1] <= SecondHigh(s[0]) &&
    (SequenceLen(s[0]) >= 3 ==> IsContinuation(s[2])) &&
    (SequenceLen(s[0]) == 4 ==> IsContinuation(s[3]))
  }

  /** The size utf8.DecodeRuneInString reports for a non-empty string: the
      length of an accepted opening sequence, and 1 for anything else (an
      ASCII byte, or the single byte it turns into RuneError). */
  function DecodedSize(s: seq<Byte>): (n: nat)
    requires s != []
    ensures 1 <= n <= 4 && n <= |s|
    ensures n > 1 <==> Accepted(s)
    ensures Accepted(s) ==> n == SequenceLen(s[0])
  {
    var n := SequenceLen(s[0]);
    if n == 1 || |s| < n then 1
    else if !(SecondLow(s[0]) <= s[1] <= SecondHigh(s[0])) then 1
    else if n == 2 then 2
    else if !IsContinuation(s[2]) then 1
    else if n == 3 then 3
    else if !IsContinuation(s[3]) then 1
    else 4
  }

  /** The encoding of every multi-byte character is accepted in full,
      whatever follows it, and an ASCII character decodes as one byte: its
      lead announces its length, its second byte lies in the lead's
      range and the rest are continuation bytes. */
  lemma EncodingAccepted(c: char, rest: seq<Byte>)
    ensures RuneLen(c) > 1 ==> Accepted(EncodeRune(c) + rest)
    ensures DecodedSize(EncodeRune(c) + rest) == RuneLen(c)
  {
    var cp := c as int;
    var s := EncodeRune(c) + rest;
    if cp < 0x80 {
    } else if cp < 0x800 {
      assert s[0] == 0xC0 + cp / 64 && s[1] == 0x80 + cp % 64;
    } else if cp < 0x10000 {
      assert s[0] == 0xE0 + cp / 4096 && s[1] == 0x80 + (cp / 64) % 64 && s[2] == 0x80 + cp % 64;
      assert cp < 0xD800 || 0xE000 <= cp;
    } else {
      assert s[0] == 0xF0 + cp / 262144 && s[1] == 0x80 + (cp / 4096) % 64;
      assert s[2] == 0x80 + (cp / 64) % 64 && s[3] == 0x80 + cp % 64;
      assert cp < 0x110000;
    }
  }

  /** A rune's encoding opens with a byte that is not a continuation byte
      and goes on with continuation bytes only. */
  lemma EncodingShape(c: char)
    ensures !IsContinuation(EncodeRune(c)[0])
    ensures forall j :: 1 <= j < |EncodeRune(c)| ==> IsContinuation(EncodeRune(c)[j])
  {
  }

  /** The leading byte of a rune's encoding announces the rune's length. */
  lemma LeadAnnouncesLength(c: char)
    ensures SequenceLen(EncodeRune(c)[0]) == RuneLen(c)
  {
  }

  /** getFirstRuneAsString: an empty string is returned as it is; otherwise
      the string is cut after the size utf8.DecodeRuneInString reports. */
  function FirstRuneBytes(s: seq<Byte>): (r: seq<Byte>)
    ensures IsPrefix(r, s)
    ensures s == [] ==> r == []
    ensures s != [] ==> 1 <= |r| <= 4
    ensures s != [] && Accepted(s) ==> |r| == SequenceLen(s[0])
    ensures s != [] && !Accepted(s) ==> r == s[..1]
  {
    if s == [] then s else s[..DecodedSize(s)]
  }

  /** getFirstRuneAsStringOld, the reference the source's test compares
      against: the first element of the string's rune slice. */
  function FirstRuneOld(rs: seq<Rune>): (r: seq<Rune>)
  {
    if rs == [] then [] else [rs[0]]
  }

  /** Cutting the bytes after the first sequence yields exactly the bytes of
      the first rune, so the byte-slicing implementation agrees with the
      rune-slice reference on every valid UTF-8 string (every string that is
      the encoding of some runes). */
  lemma FirstRuneMatchesOld(rs: seq<Rune>)
    ensures FirstRuneBytes(Encode(rs)) == Encode(FirstRuneOld(rs))
  {
    if rs != [] {
      var head := EncodeRune(rs[0].ch);
      EncodingAccepted(rs[0].ch, Encode(rs[1..]));
      assert Encode(rs) == head + Encode(rs[1..]);
      assert Encode(rs)[..|head|] == head;
      assert Encode([rs[0]]) == head + Encode([]);
    }
  }

  /** On bytes that are not valid UTF-8 the two functions part: the byte
      that opens no accepted sequence is kept on its own, where the
      rune-slice reference yields U+FFFD, three bytes. The cases are a lead
      followed by ASCII, an overlong lead, a lead above F4 and an encoded
      surrogate. */
  lemma FirstRuneInvalid()
    ensures FirstRuneBytes([0xC3, 0x41]) == [0xC3]
    ensures FirstRuneBytes([0xC0, 0x80]) == [0xC0]
    ensures FirstRuneBytes([0xF5, 0x80, 0x80, 0x80]) == [0xF5]
    ensures FirstRuneBytes([0xED, 0xA0, 0x80]) == [0xED]
    ensures EncodeRune('\U{FFFD}') == [0xEF, 0xBF, 0xBD]
  {
  }

  /** Runes of width one for the characters of `s`, widths playing no part
      in the byte view. */
  function Chars(s: string): seq<Rune> { Narrow(s) }

  /** The ASCII-led cases of the source's table test. */
  lemma FirstRuneFixturesAscii()
    ensures FirstRuneBytes(Encode(Chars(""))) == Encode(Chars(""))
    ensures FirstRuneBytes(Encode(Chars("A"))) == Encode(Chars("A"))
    ensures FirstRuneBytes(Encode(Chars("Hello"))) == Encode(Chars("H"))
    ensures FirstRuneBytes(Encode(Chars("Hello\U{4E16}\U{754C}"))) == Encode(Chars("H"))
  {
    FirstRuneMatchesOld(Chars("A"));
    FirstRuneMatchesOld(Chars("Hello"));
    FirstRuneMatchesOld(Chars("Hello\U{4E16}\U{754C}"));
  }

  /** The long-string case of the source's table test. */
  lemma FirstRuneFixtureLong()
    ensures FirstRuneBytes(Encode(Chars("The quick brown fox jumps over the lazy dog"))) == Encode(Chars("T"))
  {
    var str := "The quick brown fox jumps over the lazy dog";
    var rs := Chars(str);
    FirstRuneMatchesOld(rs);
    assert str[0] == 'T';
    assert rs[0] == Rune('T', 1);
    assert FirstRuneOld(rs) == Chars("T");
  }

  /** The first rune of a single three-byte rune. */
  lemma FirstRuneWorld()
    ensures FirstRuneBytes(Encode(Chars("\U{4E16}"))) == Encode(Chars("\U{4E16}"))
  {
    FirstRuneMatchesOld(Chars("\U{4E16}"));
  }

  /** The first rune of four three-byte runes. */
  lemma FirstRuneNihao()
    ensures FirstRuneBytes(Encode(Chars("\U{4F60}\U{597D}\U{4E16}\U{754C}"))) == Encode(Chars("\U{4F60}"))
  {
    FirstRuneMatchesOld(Chars("\U{4F60}\U{597D}\U{4E16}\U{754C}"));
  }

  /** The first rune of three-byte runes followed by ASCII. */
  lemma FirstRuneWorldHello()
    ensures FirstRuneBytes(Encode(Chars("\U{4E16}\U{754C}Hello"))) == Encode(Chars("\U{4E16}"))
  {
    FirstRuneMatchesOld(Chars("\U{4E16}\U{754C}Hello"));
  }

  /** The first rune of a four-byte rune followed by ASCII. */
  lemma FirstRuneSmiley()
    ensures FirstRuneBytes(Encode(Chars("\U{1F600}Happy"))) == Encode(Chars("\U{1F600}"))
  {
    FirstRuneMatchesOld(Chars("\U{1F600}Happy"));
  }

  /** The first rune of two-byte runes between ASCII. */
  lemma FirstRuneEnye()
    ensures FirstRuneBytes(Encode(Chars("\U{00F1}o\U{00F1}o"))) == Encode(Chars("\U{00F1}"))
  {
    FirstRuneMatchesOld(Chars("\U{00F1}o\U{00F1}o"));
  }
}
