/**
 Which file names are text: the byte strings the receiver takes for UTF-8 are the
 encodings of sequences of Unicode scalar values, and it refuses those with a
 control character among them.
 */
module Text {
  import opened Wire
  import opened InitPacket

  type Scalar = n: int | 0 <= n < 0x11_0000 && !(0xD800 <= n < 0xE000)

  // The encoding of one character, as RFC 3629 section 3 defines it.
  function EncodeChar(c: Scalar): (bs: Bytes)
    ensures 1 <= |bs| <= 4
  {
    if c < 0x80 then [c]
    else if c < 0x800 then [0xC0 + c / 0x40, 0x80 + c % 0x40]
    else if c < 0x1_0000 then [0xE0 + c / 0x40 / 0x40, 0x80 + c / 0x40 % 0x40, 0x80 + c % 0x40]
    else [0xF0 + c / 0x40 / 0x40 / 0x40, 0x80 + c / 0x40 / 0x40 % 0x40, 0x80 + c / 0x40 % 0x40, 0x80 + c % 0x40]
  }

  function Encode(text: seq<Scalar>): Bytes {
    if text == [] then [] else EncodeChar(text[0]) + Encode(text[1..])
  }

  lemma Width3(bs: Bytes, c: Scalar, a: nat, b: nat, d: nat)
    requires 0x800 <= c < 0x1_0000 && c == 0x1000 * a + 0x40 * b + d && b < 0x40 && d < 0x40
    requires |bs| >= 3 && bs[0] == 0xE0 + a && bs[1] == 0x80 + b && bs[2] == 0x80 + d
    ensures Utf8Width(bs) == 3
  {}

  lemma Width4(bs: Bytes, c: Scalar, a: nat, b: nat, d: nat, e: nat)
    requires c >= 0x1_0000 && c == 0x4_0000 * a + 0x1000 * b + 0x40 * d + e && b < 0x40 && d < 0x40 && e < 0x40
    requires |bs| >= 4 && bs[0] == 0xF0 + a && bs[1] == 0x80 + b && bs[2] == 0x80 + d && bs[3] == 0x80 + e
    ensures Utf8Width(bs) == 4
  {}

  lemma CharWidth(c: Scalar, rest: Bytes)
    ensures Utf8Width(EncodeChar(c) + rest) == |EncodeChar(c)|
  {
    var bs := EncodeChar(c) + rest;
    var q := c / 0x40;
    if c >= 0x1_0000 {
      Width4(bs, c, q / 0x40 / 0x40, q / 0x40 % 0x40, q % 0x40, c % 0x40);
    } else if c >= 0x800 {
      Width3(bs, c, q / 0x40, q % 0x40, c % 0x40);
    }
  }

  lemma Front2(bs: Bytes) returns (c: Scalar)
    requires |bs| > 0 && Utf8Width(bs) == 2
    ensures EncodeChar(c) == bs[..2]
  {
    c := 0x40 * (bs[0] as int - 0xC0) + (bs[1] as int - 0x80);
  }

  lemma Front3(bs: Bytes) returns (c: Scalar)
    requires |bs| > 0 && Utf8Width(bs) == 3
    ensures EncodeChar(c) == bs[..3]
  {
    var q := 0x40 * (bs[0] as int - 0xE0) + (bs[1] as int - 0x80);
    c := 0x40 * q + (bs[2] as int - 0x80);
    assert c / 0x40 == q;
  }

  lemma Front4(bs: Bytes) returns (c: Scalar)
    requires |bs| > 0 && Utf8Width(bs) == 4
    ensures EncodeChar(c) == bs[..4]
  {
    var p := 0x40 * (bs[0] as int - 0xF0) + (bs[1] as int - 0x80);
    var q := 0x40 * p + (bs[2] as int - 0x80);
    c := 0x40 * q + (bs[3] as int - 0x80);
    assert c / 0x40 == q && q / 0x40 == p;
  }

  lemma FrontEncodes(bs: Bytes) returns (c: Scalar)
    requires |bs| > 0 && Utf8Width(bs) > 0
    ensures EncodeChar(c) == bs[..Utf8Width(bs)]
  {
    match Utf8Width(bs)
    case 1 => c := bs[0];
    case 2 => c := Front2(bs);
    case 3 => c := Front3(bs);
    case _ => c := Front4(bs);
  }

  lemma {:induction false} EncodedIsUtf8(text: seq<Scalar>)
    ensures Utf8(Encode(text))
  {
    if text != [] {
      EncodedIsUtf8(text[1..]);
      CharWidth(text[0], Encode(text[1..]));
      assert Encode(text)[|EncodeChar(text[0])|..] == Encode(text[1..]);
    }
  }

  lemma {:induction false} Utf8IsEncoded(bs: Bytes) returns (text: seq<Scalar>)
    requires Utf8(bs)
    ensures Encode(text) == bs
    decreases |bs|
  {
    if bs == [] {
      return [];
    }
    var n := Utf8Width(bs);
    var c := FrontEncodes(bs);
    var rest := Utf8IsEncoded(bs[n..]);
    text := [c] + rest;
    assert text[1..] == rest && bs == bs[..n] + bs[n..];
  }

  // The receiver takes for text exactly what is text.
  lemma Utf8Exactly(bs: Bytes)
    ensures Utf8(bs) <==> exists text: seq<Scalar> :: Encode(text) == bs
  {
    if Utf8(bs) {
      var text := Utf8IsEncoded(bs);
    }
    if exists text: seq<Scalar> :: Encode(text) == bs {
      var text: seq<Scalar> :| Encode(text) == bs;
      EncodedIsUtf8(text);
    }
  }

  // ---------- Control characters ----------

  // Unicode's general category Cc.
  predicate IsControl(c: Scalar) {
    c < 0x20 || 0x7F <= c < 0xA0
  }

  lemma CharControl(c: Scalar, rest: Bytes)
    ensures var bs := EncodeChar(c) + rest;
            ControlAt(bs, 0) == IsControl(c) && forall i | 0 < i < |EncodeChar(c)| :: !ControlAt(bs, i)
  {
    var bs := EncodeChar(c) + rest;
    assert forall i | 0 <= i < |EncodeChar(c)| :: bs[i] == EncodeChar(c)[i];
  }

  lemma ControlInRest(front: Bytes, rest: Bytes)
    ensures HasControl(front + rest) <==>
      (exists i | 0 <= i < |front| :: ControlAt(front + rest, i)) || HasControl(rest)
  {
    var bs := front + rest;
    forall i | 0 <= i < |rest| ensures ControlAt(bs, |front| + i) == ControlAt(rest, i) {
      assert bs[|front| + i] == rest[i];
    }
    if HasControl(rest) {
      var i :| 0 <= i < |rest| && ControlAt(rest, i);
      assert ControlAt(bs, |front| + i);
    }
    if HasControl(bs) {
      var i :| 0 <= i < |bs| && ControlAt(bs, i);
      if i >= |front| {
        assert ControlAt(rest, i - |front|);
      }
    }
  }

  lemma {:induction false} ControlsExactly(text: seq<Scalar>)
    ensures HasControl(Encode(text)) <==> exists c | c in text :: IsControl(c)
  {
    if text != [] {
      var c, rest := text[0], Encode(text[1..]);
      ControlsExactly(text[1..]);
      CharControl(c, rest);
      ControlInRest(EncodeChar(c), rest);
      assert text == [c] + text[1..];
      if IsControl(c) {
        assert ControlAt(EncodeChar(c) + rest, 0);
      }
    }
  }
}
