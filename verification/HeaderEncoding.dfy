/**
 How an argument becomes a header value (`encoded` in src/mcp/headers.rs): plain
 if it is safe, else wrapped base64 (section 4 of RFC 4648). Values are the
 UTF-8 bytes of the program's strings.
 */
module HeaderEncoding {
  import opened Common

  const PREFIX: bytes := [61, 63, 98, 97, 115, 101, 54, 52, 63]  // =?base64?
  const SUFFIX: bytes := [63, 61]                                // ?=
  const PAD: byte := 61

  // ------------------------------------------------------------------ base64

  type sextet = k: int | 0 <= k < 64

  function Letter(k: sextet): byte {
    if k < 26 then 65 + k else if k < 52 then 71 + k else if k < 62 then k - 4 else if k == 62 then 43 else 47
  }

  function Code(b: byte): Option<sextet> {
    if 65 <= b <= 90 then Some(b - 65)
    else if 97 <= b <= 122 then Some(b - 71)
    else if 48 <= b <= 57 then Some(b + 4)
    else if b == 43 then Some(62)
    else if b == 47 then Some(63)
    else None
  }

  /** Three bytes, the missing ones zero, as four letters. */
  function Quad(b0: byte, b1: byte, b2: byte): (letters: bytes)
    ensures |letters| == 4
  {
    [Letter(b0 / 4), Letter((b0 % 4) * 16 + b1 / 16), Letter((b1 % 16) * 4 + b2 / 64), Letter(b2 % 64)]
  }

  function Encode(b: bytes): bytes {
    if |b| >= 3 then Quad(b[0], b[1], b[2]) + Encode(b[3..])
    else if |b| == 2 then Quad(b[0], b[1], 0)[..3] + [PAD]
    else if |b| == 1 then Quad(b[0], 0, 0)[..2] + [PAD, PAD]
    else []
  }

  /** The bytes of a group of four letters, of which the last `pads` are padding. */
  function Triple(c0: byte, c1: byte, c2: byte, c3: byte): Option<bytes> {
    var k0, k1, k2, k3 := Code(c0), Code(c1), Code(c2), Code(c3);
    if k0.None? || k1.None? then None
    else
      var b0 := k0.value * 4 + k1.value / 16;
      if c2 == PAD && c3 == PAD then Some([b0])
      else if k2.None? then None
      else
        var b1 := (k1.value % 16) * 16 + k2.value / 4;
        if c3 == PAD then Some([b0, b1])
        else if k3.None? then None
        else Some([b0, b1, (k2.value % 4) * 64 + k3.value])
  }

  /** Padding may only end the text. */
  function Decode(s: bytes): Option<bytes> {
    if s == [] then Some([])
    else if |s| < 4 then None
    else
      var head, tail := Triple(s[0], s[1], s[2], s[3]), Decode(s[4..]);
      if head.None? || tail.None? || (|head.value| < 3 && |s| > 4) then None else Some(head.value + tail.value)
  }

  lemma CodeOfLetter(k: sextet)
    ensures Code(Letter(k)) == Some(k) && Letter(k) != PAD && 33 <= Letter(k) <= 126
  {
  }

  /** A group of letters gives its bytes back, padded or not. */
  lemma TripleOfQuad(b0: byte, b1: byte, b2: byte)
    ensures var q := Quad(b0, b1, b2);
            && Triple(q[0], q[1], q[2], q[3]) == Some([b0, b1, b2])
            && (b2 == 0 ==> Triple(q[0], q[1], q[2], PAD) == Some([b0, b1]))
            && (b1 == b2 == 0 ==> Triple(q[0], q[1], PAD, PAD) == Some([b0]))
  {
    hide Quad, Code;
    LettersOf(b0, b1, b2);
  }

  lemma DecodeLast(s: bytes)
    requires |s| == 4 && Triple(s[0], s[1], s[2], s[3]).Some?
    ensures Decode(s) == Triple(s[0], s[1], s[2], s[3])
  {
    assert s[4..] == [];
    assert Decode(s[4..]) == Some([]);
    var head := Triple(s[0], s[1], s[2], s[3]).value;
    assert head + [] == head;
  }

  lemma {:induction false} DecodeOfEncode(b: bytes)
    ensures Decode(Encode(b)) == Some(b)
  {
    hide Quad, Triple;
    var e := Encode(b);
    if |b| >= 3 {
      TripleOfQuad(b[0], b[1], b[2]);
      DecodeOfEncode(b[3..]);
      assert e[4..] == Encode(b[3..]);
      assert b == [b[0], b[1], b[2]] + b[3..];
    } else if |b| == 2 {
      TripleOfQuad(b[0], b[1], 0);
      DecodeLast(e);
      assert b == [b[0], b[1]];
    } else if |b| == 1 {
      TripleOfQuad(b[0], 0, 0);
      DecodeLast(e);
      assert b == [b[0]];
    }
  }

  lemma LettersOf(b0: byte, b1: byte, b2: byte)
    ensures Code(Quad(b0, b1, b2)[0]) == Some(b0 / 4)
    ensures Code(Quad(b0, b1, b2)[1]) == Some((b0 % 4) * 16 + b1 / 16)
    ensures Code(Quad(b0, b1, b2)[2]) == Some((b1 % 16) * 4 + b2 / 64)
    ensures Code(Quad(b0, b1, b2)[3]) == Some(b2 % 64)
    ensures forall i :: 0 <= i < 4 ==> Quad(b0, b1, b2)[i] != PAD && 33 <= Quad(b0, b1, b2)[i] <= 126
  {
    CodeOfLetter(b0 / 4);
    CodeOfLetter((b0 % 4) * 16 + b1 / 16);
    CodeOfLetter((b1 % 16) * 4 + b2 / 64);
    CodeOfLetter(b2 % 64);
  }

  lemma {:induction false} EncodeIsVisible(b: bytes)
    ensures forall i :: 0 <= i < |Encode(b)| ==> 33 <= Encode(b)[i] <= 126
  {
    if |b| >= 3 {
      LettersOf(b[0], b[1], b[2]);
      EncodeIsVisible(b[3..]);
    } else if |b| == 2 {
      LettersOf(b[0], b[1], 0);
    } else if |b| == 1 {
      LettersOf(b[0], 0, 0);
    }
  }

  // ------------------------------------------------------------ header values

  predicate IsSpace(b: byte) {
    9 <= b <= 13 || b == 32
  }

  /** `trim` would leave the value alone. */
  predicate Trimmed(v: bytes) {
    v != [] ==> !IsSpace(v[0]) && !IsSpace(v[|v| - 1])
  }

  predicate Visible(v: bytes) {
    forall i :: 0 <= i < |v| ==> 0x20 <= v[i] <= 0x7E || v[i] == 9
  }

  predicate EndsWith(v: bytes, tail: bytes) {
    |tail| <= |v| && v[|v| - |tail|..] == tail
  }

  predicate Wrapped(v: bytes) {
    PREFIX <= v && EndsWith(v, SUFFIX)
  }

  function Encoded(v: bytes): bytes {
    if Trimmed(v) && Visible(v) && !Wrapped(v) then v else PREFIX + Encode(v) + SUFFIX
  }

  /** What the receiver does with a header value. */
  function Unwrapped(h: bytes): Option<bytes> {
    if Wrapped(h) && |h| >= |PREFIX| + |SUFFIX| then Decode(h[|PREFIX|..|h| - |SUFFIX|]) else Some(h)
  }

  /** The receiver gets back every value, wrapped or plain. */
  lemma UnwrapUndoesEncode(v: bytes)
    ensures Unwrapped(Encoded(v)) == Some(v)
  {
    var h := PREFIX + Encode(v) + SUFFIX;
    assert h[|PREFIX|..|h| - |SUFFIX|] == Encode(v);
    assert h[|h| - |SUFFIX|..] == SUFFIX;
    assert PREFIX <= h;
    DecodeOfEncode(v);
  }

  /** Different values never share a header value. */
  lemma EncodedIsInjective(v: bytes, w: bytes)
    requires Encoded(v) == Encoded(w)
    ensures v == w
  {
    UnwrapUndoesEncode(v);
    UnwrapUndoesEncode(w);
  }

  /**
   Every header value is visible text without surrounding spaces, and it is of
   the wrapped form exactly when the value did not go through plain.
   */
  lemma EncodedIsHeaderText(v: bytes)
    ensures Visible(Encoded(v)) && Trimmed(Encoded(v))
    ensures Wrapped(Encoded(v)) <==> Encoded(v) != v
  {
    hide Encode;
    EncodeIsVisible(v);
    LongerThan(v);
    var h := PREFIX + Encode(v) + SUFFIX;
    assert h[|h| - |SUFFIX|..] == SUFFIX && PREFIX <= h;
    assert |h| > |v|;
  }

  lemma {:induction false} LongerThan(b: bytes)
    ensures |Encode(b)| >= |b|
  {
    if |b| >= 3 {
      LongerThan(b[3..]);
    }
  }

  // ----------------------------------------------- against the standard's text

  /** The letters are those of table 1 of RFC 4648: capitals, small letters, digits, plus and slash. */
  lemma LettersAreStandard(k: sextet)
    ensures Letter(k) as char ==
            if k < 26 then 'A' + k as char
            else if k < 52 then 'a' + (k - 26) as char
            else if k < 62 then '0' + (k - 52) as char
            else if k == 62 then '+' else '/'
  {
  }

  /** Four letters carry the 24 bits of three bytes, most significant first. */
  lemma QuadIsBigEndian(b0: byte, b1: byte, b2: byte)
    ensures var q := Quad(b0, b1, b2);
            && Code(q[0]).Some? && Code(q[1]).Some? && Code(q[2]).Some? && Code(q[3]).Some?
            && Code(q[0]).value * 0x4_0000 + Code(q[1]).value * 0x1000 + Code(q[2]).value * 0x40 + Code(q[3]).value
               == b0 * 0x1_0000 + b1 * 0x100 + b2
  {
    hide Quad, Code;
    LettersOf(b0, b1, b2);
  }

  function Ascii(text: string): bytes {
    seq(|text|, i requires 0 <= i < |text| => (text[i] as int % 128) as byte)
  }

  /** The first test vectors of section 10 of RFC 4648, with each number of pads. */
  lemma StandardVectors()
    ensures Encode([]) == []
    ensures Encode(Ascii("f")) == Ascii("Zg==")
    ensures Encode(Ascii("fo")) == Ascii("Zm8=")
    ensures Encode(Ascii("foo")) == Ascii("Zm9v")
  {
    assert Ascii("foo")[3..] == [];
  }

  /** Longer ones follow group by group. */
  lemma EncodeGroups(a: bytes, b: bytes)
    requires |a| == 3
    ensures Encode(a + b) == Encode(a) + Encode(b)
  {
    hide Quad;
    assert a[3..] == [] && (a + b)[3..] == b;
    assert Quad(a[0], a[1], a[2]) + [] == Quad(a[0], a[1], a[2]);
  }

  /** Four letters for each three bytes begun. */
  lemma {:induction false} EncodeSize(b: bytes)
    ensures |Encode(b)| == (|b| + 2) / 3 * 4
  {
    if |b| >= 3 {
      EncodeSize(b[3..]);
    }
  }

  /** What the wrapper reads. */
  lemma WrapperText()
    ensures PREFIX == Ascii("=?base64?") && SUFFIX == Ascii("?=")
  {
  }

  /**
   A value goes through unchanged exactly when it has no space at either end, holds
   only visible characters, spaces and tabs, and does not look wrapped itself.
   */
  lemma PlainIff(v: bytes)
    ensures Encoded(v) == v <==>
            && (v == [] || (v[0] !in {9, 10, 11, 12, 13, 32} && v[|v| - 1] !in {9, 10, 11, 12, 13, 32}))
            && (forall i :: 0 <= i < |v| ==> v[i] == 9 || 32 <= v[i] < 127)
            && !(Ascii("=?base64?") <= v && |v| >= 2 && v[|v| - 2..] == Ascii("?="))
    ensures Encoded(v) != v ==> Encoded(v) == Ascii("=?base64?") + Encode(v) + Ascii("?=")
  {
    hide Encode;
    WrapperText();
    LongerThan(v);
  }
}
