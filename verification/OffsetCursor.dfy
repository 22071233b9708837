/** The opaque pagination cursor: a prefix followed by the unpadded base64url (section 5 of RFC 4648)
    of a decimal offset (internal/ceochat/cursor.go). The decoder is the lenient one the source uses:
    it skips carriage returns and line feeds and ignores the unused bits of a final partial group. */
module OffsetCursor {
  import opened Prelude
  import opened Decimal

  type byte = x: int | 0 <= x < 256
  type sextet = x: int | 0 <= x < 64

  const CURSOR_PREFIX := "ceochat-cursor-v1:"

  // ---------------------------------------------------------------------------------------------
  // Bytes and six-bit groups

  // Two numbers side by side in one register: the high part of the second follows the low part of the first.

  function Sextet1(b0: byte, b1: int): (x: sextet)
    requires 0 <= b1 < 256
    ensures x / 16 == b0 % 4 && x % 16 == b1 / 16
  {
    b0 % 4 * 16 + b1 / 16
  }

  function Sextet2(b1: byte, b2: int): (x: sextet)
    requires 0 <= b2 < 256
    ensures x / 4 == b1 % 16 && x % 4 == b2 / 64
  {
    b1 % 16 * 4 + b2 / 64
  }

  function Byte0(x0: int, x1: int): (b: byte)
    requires 0 <= x0 < 64 && 0 <= x1 < 64
    ensures b / 4 == x0 && b % 4 == x1 / 16
  {
    x0 * 4 + x1 / 16
  }

  function Byte1(x1: int, x2: int): (b: byte)
    requires 0 <= x1 < 64 && 0 <= x2 < 64
    ensures b / 16 == x1 % 16 && b % 16 == x2 / 4
  {
    x1 % 16 * 16 + x2 / 4
  }

  function Byte2(x2: int, x3: int): (b: byte)
    requires 0 <= x2 < 64 && 0 <= x3 < 64
    ensures b / 64 == x2 % 4 && b % 64 == x3
  {
    x2 % 4 * 64 + x3
  }

  function Sextets(b: seq<byte>): seq<sextet> {
    if |b| == 0 then []
    else if |b| == 1 then [b[0] / 4, Sextet1(b[0], 0)]
    else if |b| == 2 then [b[0] / 4, Sextet1(b[0], b[1]), Sextet2(b[1], 0)]
    else [b[0] / 4, Sextet1(b[0], b[1]), Sextet2(b[1], b[2]), b[2] % 64] + Sextets(b[3..])
  }

  function Bytes(v: seq<sextet>): Option<seq<byte>> {
    if |v| == 0 then Some([])
    else if |v| == 1 then None
    else if |v| == 2 then Some([Byte0(v[0], v[1])])
    else if |v| == 3 then Some([Byte0(v[0], v[1]), Byte1(v[1], v[2])])
    else
      var rest := Bytes(v[4..]);
      if rest.None? then None
      else Some([Byte0(v[0], v[1]), Byte1(v[1], v[2]), Byte2(v[2], v[3])] + rest.value)
  }

  /** The bits of the last group that carry no data are zero. */
  predicate CleanTail(v: seq<sextet>) {
    && (|v| % 4 == 2 ==> v[|v| - 1] % 16 == 0)
    && (|v| % 4 == 3 ==> v[|v| - 1] % 4 == 0)
  }

  lemma GroupRoundTrip(b0: byte, b1: byte, b2: byte)
    ensures Byte0(b0 / 4, Sextet1(b0, b1)) == b0
    ensures Byte1(Sextet1(b0, b1), Sextet2(b1, b2)) == b1
    ensures Byte2(Sextet2(b1, b2), b2 % 64) == b2
  {
  }

  lemma OneByte(b0: byte)
    ensures Bytes(Sextets([b0])) == Some([b0])
  {
    GroupRoundTrip(b0, 0, 0);
  }

  lemma TwoBytes(b0: byte, b1: byte)
    ensures Bytes(Sextets([b0, b1])) == Some([b0, b1])
  {
    GroupRoundTrip(b0, b1, 0);
  }

  lemma {:induction false} GroupsRoundTrip(b: seq<byte>)
    ensures Bytes(Sextets(b)) == Some(b)
  {
    if |b| == 1 {
      OneByte(b[0]);
      assert b == [b[0]];
    } else if |b| == 2 {
      TwoBytes(b[0], b[1]);
      assert b == [b[0], b[1]];
    } else if |b| >= 3 {
      GroupRoundTrip(b[0], b[1], b[2]);
      GroupsRoundTrip(b[3..]);
      assert Sextets(b)[4..] == Sextets(b[3..]);
      assert b == [b[0], b[1], b[2]] + b[3..];
    }
  }

  lemma {:induction false} GroupsClean(b: seq<byte>)
    ensures CleanTail(Sextets(b)) && (b != [] ==> Sextets(b) != [])
  {
    if |b| >= 3 {
      GroupsClean(b[3..]);
      var v := Sextets(b);
      assert v[4..] == Sextets(b[3..]);
      assert |b| > 3 ==> v[|v| - 1] == v[4..][|v| - 5];
    }
  }

  lemma GroupBack(x0: sextet, x1: sextet, x2: sextet, x3: sextet)
    ensures var b0, b1, b2 := Byte0(x0, x1), Byte1(x1, x2), Byte2(x2, x3);
            b0 / 4 == x0 && Sextet1(b0, b1) == x1 && Sextet2(b1, b2) == x2 && b2 % 64 == x3
  {
  }

  lemma TwoSextets(x0: sextet, x1: sextet)
    requires x1 % 16 == 0
    ensures Sextets([Byte0(x0, x1)]) == [x0, x1]
  {
  }

  lemma ThreeSextets(x0: sextet, x1: sextet, x2: sextet)
    requires x2 % 4 == 0
    ensures Sextets([Byte0(x0, x1), Byte1(x1, x2)]) == [x0, x1, x2]
  {
  }

  lemma OneGroupBack(v: seq<sextet>)
    requires |v| >= 4 && Bytes(v).Some? && Bytes(v[4..]).Some? && Sextets(Bytes(v[4..]).value) == v[4..]
    ensures Sextets(Bytes(v).value) == v
  {
    var b, rest := Bytes(v).value, Bytes(v[4..]).value;
    GroupBack(v[0], v[1], v[2], v[3]);
    assert b[3..] == rest;
    assert Sextets(b) == [v[0], v[1], v[2], v[3]] + Sextets(rest);
    assert v == [v[0], v[1], v[2], v[3]] + v[4..];
  }

  lemma {:induction false} GroupsBack(v: seq<sextet>)
    requires Bytes(v).Some? && CleanTail(v)
    ensures Sextets(Bytes(v).value) == v
  {
    if |v| == 2 {
      TwoSextets(v[0], v[1]);
      assert v == [v[0], v[1]];
    } else if |v| == 3 {
      ThreeSextets(v[0], v[1], v[2]);
      assert v == [v[0], v[1], v[2]];
    } else if |v| >= 4 {
      assert |v| > 4 ==> v[4..][|v| - 5] == v[|v| - 1];
      GroupsBack(v[4..]);
      OneGroupBack(v);
    }
  }

  // ---------------------------------------------------------------------------------------------
  // Six-bit groups and letters

  function Letter(x: sextet): char {
    if x < 26 then ('A' as int + x) as char
    else if x < 52 then ('a' as int + x - 26) as char
    else if x < 62 then ('0' as int + x - 52) as char
    else if x == 62 then '-' else '_'
  }

  function Index(c: char): (r: Option<sextet>)
    ensures r.Some? ==> Letter(r.value) == c
    ensures forall x: sextet :: Letter(x) == c ==> r == Some(x)
  {
    if 'A' <= c <= 'Z' then Some(c as int - 'A' as int)
    else if 'a' <= c <= 'z' then Some(c as int - 'a' as int + 26)
    else if '0' <= c <= '9' then Some(c as int - '0' as int + 52)
    else if c == '-' then Some(62)
    else if c == '_' then Some(63)
    else None
  }

  predicate Newline(c: char) { c == '\r' || c == '\n' }

  function Letters(v: seq<sextet>): string {
    if v == [] then "" else [Letter(v[0])] + Letters(v[1..])
  }

  function Parse(s: string): Option<seq<sextet>> {
    if s == "" then Some([])
    else if Newline(s[0]) then Parse(s[1..])
    else
      var x, rest := Index(s[0]), Parse(s[1..]);
      if x.None? || rest.None? then None else Some([x.value] + rest.value)
  }

  lemma {:induction false} LettersParse(v: seq<sextet>)
    ensures Parse(Letters(v)) == Some(v)
    ensures forall i | 0 <= i < |Letters(v)| :: !Newline(Letters(v)[i])
  {
    if v != [] {
      LettersParse(v[1..]);
      assert Letters(v)[1..] == Letters(v[1..]);
      assert v == [v[0]] + v[1..];
    }
  }

  lemma {:induction false} ParseLetters(s: string)
    requires Parse(s).Some? && forall i | 0 <= i < |s| :: !Newline(s[i])
    ensures Letters(Parse(s).value) == s
  {
    if s != "" {
      ParseLetters(s[1..]);
      var v := Parse(s).value;
      assert v[1..] == Parse(s[1..]).value;
    }
  }

  // ---------------------------------------------------------------------------------------------
  // The cursor

  function AsBytes(s: string): seq<byte>
    requires forall i | 0 <= i < |s| :: s[i] as int < 256
  {
    seq(|s|, i requires 0 <= i < |s| => s[i] as int)
  }

  function AsText(b: seq<byte>): string {
    seq(|b|, i requires 0 <= i < |b| => b[i] as char)
  }

  function EncodeOffset(next: int64): string {
    if next <= 0 then "" else CURSOR_PREFIX + Letters(Sextets(AsBytes(Itoa(next))))
  }

  /** The decimal text a cursor carries, if it is one of ours and decodes at all. */
  function Payload(cursor: string): Option<string> {
    if |cursor| <= |CURSOR_PREFIX| || cursor[..|CURSOR_PREFIX|] != CURSOR_PREFIX then None
    else
      var v := Parse(cursor[|CURSOR_PREFIX|..]);
      if v.None? || Bytes(v.value).None? then None else Some(AsText(Bytes(v.value).value))
  }

  function DecodeOffset(cursor: string): Option<int64> {
    if cursor == "" then Some(0)
    else
      var text := Payload(cursor);
      if text.None? || Atoi(text.value).None? || Atoi(text.value).value < 0 then None else Atoi(text.value)
  }

  lemma Carries(text: string)
    requires |text| > 0 && forall i | 0 <= i < |text| :: text[i] as int < 256
    ensures Payload(CURSOR_PREFIX + Letters(Sextets(AsBytes(text)))) == Some(text)
  {
    var v := Sextets(AsBytes(text));
    var cursor := CURSOR_PREFIX + Letters(v);
    GroupsRoundTrip(AsBytes(text));
    LettersParse(v);
    assert cursor[..|CURSOR_PREFIX|] == CURSOR_PREFIX && cursor[|CURSOR_PREFIX|..] == Letters(v);
    assert AsText(AsBytes(text)) == text;
  }

  /** Decoding an encoded offset gives it back; what is not positive comes back as zero. */
  lemma OffsetRoundTrip(next: int64)
    ensures DecodeOffset(EncodeOffset(next)) == Some(if next <= 0 then 0 else next)
  {
    if next > 0 {
      Carries(Itoa(next));
      PrintedValue(next);
      assert EncodeOffset(next) != "";
      assert IsDigit(Itoa(next)[0]);
    }
  }

  function WithoutBreaks(s: string): string {
    if s == "" then ""
    else if s[0] in "\r\n" then WithoutBreaks(s[1..]) else [s[0]] + WithoutBreaks(s[1..])
  }

  lemma {:induction false} BreaksSkipped(s: string)
    ensures Parse(s) == Parse(WithoutBreaks(s))
  {
    if s != "" {
      BreaksSkipped(s[1..]);
      var t := WithoutBreaks(s);
      assert "\r\n"[0] == '\r' && "\r\n"[1] == '\n';
      if s[0] !in "\r\n" { assert t[1..] == WithoutBreaks(s[1..]); }
    }
  }

  /** Line breaks anywhere in a cursor's letters make no difference. */
  lemma LineBreaksIgnored(letters: string)
    ensures DecodeOffset(CURSOR_PREFIX + letters) == DecodeOffset(CURSOR_PREFIX + WithoutBreaks(letters))
  {
    BreaksSkipped(letters);
    var a, b := CURSOR_PREFIX + letters, CURSOR_PREFIX + WithoutBreaks(letters);
    assert a[|CURSOR_PREFIX|..] == letters && b[|CURSOR_PREFIX|..] == WithoutBreaks(letters);
    assert a[..|CURSOR_PREFIX|] == b[..|CURSOR_PREFIX|] == CURSOR_PREFIX;
    if WithoutBreaks(letters) == "" && letters != "" { assert Payload(a) == Some(""); }
  }

  /** A cursor written the one way the encoder writes it. */
  predicate Canonical(cursor: string)
    requires Payload(cursor).Some?
  {
    var letters := cursor[|CURSOR_PREFIX|..];
    && (forall i | 0 <= i < |letters| :: !Newline(letters[i]))
    && CleanTail(Parse(letters).value)
    && AllDigits(Payload(cursor).value) && NoLeadingZero(Payload(cursor).value)
  }

  lemma PositiveIsEncodedIffCanonical(cursor: string)
    requires DecodeOffset(cursor).Some? && DecodeOffset(cursor).value > 0
    ensures EncodeOffset(DecodeOffset(cursor).value) == cursor <==> Canonical(cursor)
  {
    var n := DecodeOffset(cursor).value;
    var letters := cursor[|CURSOR_PREFIX|..];
    var v := Parse(letters).value;
    var text := Payload(cursor).value;
    assert cursor == CURSOR_PREFIX + letters;
    if Canonical(cursor) {
      CanonicalText(text);
      assert Itoa(n) == text;
      assert AsBytes(text) == Bytes(v).value;
      GroupsBack(v);
      ParseLetters(letters);
    } else if EncodeOffset(n) == cursor {
      var w := Sextets(AsBytes(Itoa(n)));
      assert cursor[|CURSOR_PREFIX|..] == Letters(w);
      LettersParse(w);
      GroupsRoundTrip(AsBytes(Itoa(n)));
      GroupsClean(AsBytes(Itoa(n)));
      Carries(Itoa(n));
      PrintedValue(n);
      assert false;
    }
  }

  /** A tampered cursor is not always refused. An accepted cursor is the one the encoder would have produced
      exactly when it is empty, or is for a positive offset and canonical: no line breaks, no stray bits, no sign
      and no leading zero. */
  lemma AcceptedIsEncodedIffCanonical(cursor: string)
    requires DecodeOffset(cursor).Some?
    ensures EncodeOffset(DecodeOffset(cursor).value) == cursor
            <==> cursor == "" || (DecodeOffset(cursor).value > 0 && Canonical(cursor))
  {
    if DecodeOffset(cursor).value > 0 { PositiveIsEncodedIffCanonical(cursor); }
  }

  /** Every positive offset has a second accepted cursor: the same number with a plus sign. */
  lemma SecondCursor(next: int64)
    requires next > 0
    ensures var forged := CURSOR_PREFIX + Letters(Sextets(AsBytes("+" + Itoa(next))));
            DecodeOffset(forged) == Some(next) && forged != EncodeOffset(next)
  {
    var text := "+" + Itoa(next);
    Carries(text);
    SignedValue(next);
    Distinguished(text, Itoa(next));
  }

  lemma SignedValue(next: int64)
    requires next > 0
    ensures Atoi("+" + Itoa(next)) == Some(next)
  {
    PrintedValue(next);
    assert ("+" + Itoa(next))[1..] == Itoa(next);
  }

  /** Different payloads have different cursors. */
  lemma Distinguished(a: string, b: string)
    requires |a| > 0 && |b| > 0 && |a| != |b|
    requires (forall i | 0 <= i < |a| :: a[i] as int < 256) && (forall i | 0 <= i < |b| :: b[i] as int < 256)
    ensures CURSOR_PREFIX + Letters(Sextets(AsBytes(a))) != CURSOR_PREFIX + Letters(Sextets(AsBytes(b)))
  {
    Carries(a);
    Carries(b);
  }

  // ---------------------------------------------------------------------------------------------
  // The encoding is the standard one

  /** The letters are the URL and filename safe alphabet, in its order: A to Z, a to z, 0 to 9, dash, underscore. */
  lemma LetterExact(x: sextet)
    ensures Letter(0) == 'A' && Letter(25) == 'Z' && Letter(26) == 'a' && Letter(51) == 'z'
    ensures Letter(52) == '0' && Letter(61) == '9' && Letter(62) == '-' && Letter(63) == '_'
    ensures x < 25 || 26 <= x < 51 || 52 <= x < 61 ==> Letter(x + 1) as int == Letter(x) as int + 1
  {
  }

  /** Three bytes and their four six-bit groups are one number, the most significant part first. */
  lemma GroupIsOneNumber(b0: byte, b1: byte, b2: byte)
    ensures var v := Sextets([b0, b1, b2]);
            && |v| == 4
            && (((v[0] as int * 64 + v[1] as int) * 64 + v[2] as int) * 64 + v[3] as int
                == (b0 as int * 256 + b1 as int) * 256 + b2 as int)
  {
    assert [b0, b1, b2][3..] == [];
    SplitGroup(b0, b1, b2);
  }

  lemma SplitGroup(b0: byte, b1: byte, b2: byte)
    ensures (((b0 as int / 4 * 64 + Sextet1(b0, b1) as int) * 64 + Sextet2(b1, b2) as int) * 64 + b2 as int % 64
             == (b0 as int * 256 + b1 as int) * 256 + b2 as int)
  {
    assert b0 == b0 / 4 * 4 + b0 % 4 && b1 == b1 / 16 * 16 + b1 % 16 && b2 == b2 / 64 * 64 + b2 % 64;
    assert Sextet1(b0, b1) == b0 % 4 * 16 + b1 / 16 && Sextet2(b1, b2) == b1 % 16 * 4 + b2 / 64;
  }

  /** One or two bytes left over are the two or three leading groups of the same number, the missing bytes zero. */
  lemma PartialGroups(b0: byte, b1: byte)
    ensures Sextets([b0]) == Sextets([b0, 0, 0])[..2] && Sextets([b0, b1]) == Sextets([b0, b1, 0])[..3]
  {
    assert [b0, 0, 0][3..] == [] && [b0, b1, 0][3..] == [];
  }

  /** Groups follow one another. */
  lemma GroupsInOrder(b: seq<byte>)
    requires |b| >= 3
    ensures Sextets(b) == Sextets([b[0], b[1], b[2]]) + Sextets(b[3..])
  {
    var group := [b[0] / 4, Sextet1(b[0], b[1]), Sextet2(b[1], b[2]), b[2] % 64];
    assert [b[0], b[1], b[2]][3..] == [];
    assert Sextets([b[0], b[1], b[2]]) == group + Sextets([]) == group;
    assert Sextets(b) == group + Sextets(b[3..]);
  }

  lemma {:induction false} LettersInOrder(v: seq<sextet>)
    ensures |Letters(v)| == |v| && forall i | 0 <= i < |v| :: Letters(v)[i] == Letter(v[i])
  {
    if v != [] {
      LettersInOrder(v[1..]);
      assert Letters(v)[1..] == Letters(v[1..]);
    }
  }

  /** A cursor made of any text decodes to the number the text is, and is refused if it is none or negative; the prefix
      alone, or any other beginning, is refused. */
  lemma DecodesAnyText(text: string)
    requires |text| > 0 && forall i | 0 <= i < |text| :: text[i] as int < 256
    ensures DecodeOffset("ceochat-cursor-v1:" + Letters(Sextets(AsBytes(text))))
            == if Atoi(text).Some? && Atoi(text).value >= 0 then Atoi(text) else None
  {
    Carries(text);
  }

  lemma OtherBeginningsRefused(cursor: string)
    requires cursor != "" && (|cursor| <= 18 || cursor[..18] != "ceochat-cursor-v1:")
    ensures DecodeOffset(cursor) == None
  {
  }
}
