/**
 * Standard Base64 with padding, as defined in section 4 of RFC 4648.
 * Both the key records and the payment payload are stored or sent in this form.
 */
module Base64 {
  import opened Common

  const PAD: char := '='

  /** The character that encodes a 6-bit value (Table 1 of RFC 4648). */
  function Alphabet(i: int): (c: char)
    requires 0 <= i < 64
    ensures c != PAD
  {
    if i < 26 then (65 + i) as char
    else if i < 52 then (97 + i - 26) as char
    else if i < 62 then (48 + i - 52) as char
    else if i == 62 then '+'
    else '/'
  }

  /** The 6-bit value a character encodes, or None for a character outside the alphabet. */
  function IndexOf(c: char): (r: Option<int>)
    ensures r.Some? ==> 0 <= r.value < 64 && Alphabet(r.value) == c
    ensures c == PAD ==> r.None?
  {
    if 'A' <= c <= 'Z' then Some(c as int - 65)
    else if 'a' <= c <= 'z' then Some(c as int - 97 + 26)
    else if '0' <= c <= '9' then Some(c as int - 48 + 52)
    else if c == '+' then Some(62)
    else if c == '/' then Some(63)
    else None
  }

  lemma IndexOfAlphabet(i: int)
    requires 0 <= i < 64
    ensures IndexOf(Alphabet(i)) == Some(i)
  {
  }

  predicate IsAlphabetChar(c: char) {
    IndexOf(c).Some?
  }

  // ---------------------------------------------------------------- encoding

  /** Three octets become four characters. */
  function EncodeTriple(b0: byte, b1: byte, b2: byte): string {
    [Alphabet(b0 / 4), Alphabet((b0 % 4) * 16 + b1 / 16), Alphabet((b1 % 16) * 4 + b2 / 64), Alphabet(b2 % 64)]
  }

  /** A final group of two octets: three characters and one pad. */
  function EncodePair(b0: byte, b1: byte): string {
    [Alphabet(b0 / 4), Alphabet((b0 % 4) * 16 + b1 / 16), Alphabet((b1 % 16) * 4), PAD]
  }

  /** A final group of one octet: two characters and two pads. */
  function EncodeSingle(b0: byte): string {
    [Alphabet(b0 / 4), Alphabet((b0 % 4) * 16), PAD, PAD]
  }

  /** The padded Base64 text of `data`, three octets at a time from the front. */
  function Encode(data: seq<byte>): (s: string)
    decreases |data|
  {
    if |data| == 0 then []
    else if |data| == 1 then EncodeSingle(data[0])
    else if |data| == 2 then EncodePair(data[0], data[1])
    else EncodeTriple(data[0], data[1], data[2]) + Encode(data[3..])
  }

  // ---------------------------------------------------------------- decoding

  /** Four alphabet characters back to three octets. */
  function DecodeQuad(c0: char, c1: char, c2: char, c3: char): Option<seq<byte>> {
    var i0, i1, i2, i3 := IndexOf(c0), IndexOf(c1), IndexOf(c2), IndexOf(c3);
    if i0.Some? && i1.Some? && i2.Some? && i3.Some? then
      Some([i0.value * 4 + i1.value / 16, (i1.value % 16) * 16 + i2.value / 4, (i2.value % 4) * 64 + i3.value])
    else None
  }

  /** The last group, which may carry one or two pads. */
  function DecodeFinalQuad(c0: char, c1: char, c2: char, c3: char): Option<seq<byte>> {
    var i0, i1, i2 := IndexOf(c0), IndexOf(c1), IndexOf(c2);
    if c2 == PAD && c3 == PAD then
      if i0.Some? && i1.Some? then Some([i0.value * 4 + i1.value / 16]) else None
    else if c3 == PAD then
      if i0.Some? && i1.Some? && i2.Some? then
        Some([i0.value * 4 + i1.value / 16, (i1.value % 16) * 16 + i2.value / 4])
      else None
    else DecodeQuad(c0, c1, c2, c3)
  }

  /**
   * Decodes padded Base64 text; None for text that is not a whole number of
   * four-character groups, holds a character outside the alphabet, or pads
   * anywhere but the end.
   */
  function Decode(s: string): Option<seq<byte>>
    decreases |s|
  {
    if |s| == 0 then Some([])
    else if |s| % 4 != 0 then None
    else if |s| == 4 then DecodeFinalQuad(s[0], s[1], s[2], s[3])
    else
      var head, tail := DecodeQuad(s[0], s[1], s[2], s[3]), Decode(s[4..]);
      if head.Some? && tail.Some? then Some(head.value + tail.value) else None
  }

  // ---------------------------------------------------------------- properties

  /** A value built from a high part and a low hex digit splits back into those parts. */
  lemma SplitBy16(hi: int, lo: int)
    requires 0 <= hi && 0 <= lo < 16
    ensures (hi * 16 + lo) / 16 == hi && (hi * 16 + lo) % 16 == lo
  {
  }

  /** A value built from a high part and a low 2-bit part splits back into those parts. */
  lemma SplitBy4(hi: int, lo: int)
    requires 0 <= hi && 0 <= lo < 4
    ensures (hi * 4 + lo) / 4 == hi && (hi * 4 + lo) % 4 == lo
  {
  }

  lemma TripleRoundTrip(b0: byte, b1: byte, b2: byte)
    ensures var e := EncodeTriple(b0, b1, b2);
            DecodeQuad(e[0], e[1], e[2], e[3]) == Some([b0, b1, b2])
  {
    var i0, i1, i2, i3 := b0 / 4, (b0 % 4) * 16 + b1 / 16, (b1 % 16) * 4 + b2 / 64, b2 % 64;
    IndexOfAlphabet(i0);
    IndexOfAlphabet(i1);
    IndexOfAlphabet(i2);
    IndexOfAlphabet(i3);
    SplitBy16(b0 % 4, b1 / 16);
    SplitBy4(b1 % 16, b2 / 64);
    assert i0 * 4 + i1 / 16 == b0;
    assert (i1 % 16) * 16 + i2 / 4 == b1;
    assert (i2 % 4) * 64 + i3 == b2;
  }

  lemma PairRoundTrip(b0: byte, b1: byte)
    ensures var e := EncodePair(b0, b1);
            DecodeFinalQuad(e[0], e[1], e[2], e[3]) == Some([b0, b1])
  {
    IndexOfAlphabet(b0 / 4);
    IndexOfAlphabet((b0 % 4) * 16 + b1 / 16);
    IndexOfAlphabet((b1 % 16) * 4);
  }

  lemma SingleRoundTrip(b0: byte)
    ensures var e := EncodeSingle(b0);
            DecodeFinalQuad(e[0], e[1], e[2], e[3]) == Some([b0])
  {
    IndexOfAlphabet(b0 / 4);
    IndexOfAlphabet((b0 % 4) * 16);
  }

  lemma TripleAlphabet(b0: byte, b1: byte, b2: byte)
    ensures forall i | 0 <= i < 4 :: IsAlphabetChar(EncodeTriple(b0, b1, b2)[i])
  {
    IndexOfAlphabet(b0 / 4);
    IndexOfAlphabet((b0 % 4) * 16 + b1 / 16);
    IndexOfAlphabet((b1 % 16) * 4 + b2 / 64);
    IndexOfAlphabet(b2 % 64);
  }

  /** A full group in front of further groups decodes to its three octets followed by theirs. */
  lemma DecodeFront(q: string, t: string)
    requires |q| == 4 && |t| > 0 && |t| % 4 == 0
    requires DecodeQuad(q[0], q[1], q[2], q[3]).Some?
    ensures Decode(t).None? ==> Decode(q + t).None?
    ensures Decode(t).Some? ==> Decode(q + t) == Some(DecodeQuad(q[0], q[1], q[2], q[3]).value + Decode(t).value)
  {
    var s := q + t;
    assert s[0] == q[0] && s[1] == q[1] && s[2] == q[2] && s[3] == q[3];
    assert s[4..] == t;
    assert |s| % 4 == 0 && |s| > 4;
    assert DecodeQuad(s[0], s[1], s[2], s[3]) == DecodeQuad(q[0], q[1], q[2], q[3]);
  }

  /** The encoded text has 4 * ceil(n / 3) characters. */
  lemma {:induction false} EncodeLength(data: seq<byte>)
    ensures |Encode(data)| == 4 * ((|data| + 2) / 3)
    decreases |data|
  {
    if |data| > 2 {
      EncodeLength(data[3..]);
      assert |Encode(data)| == 4 + |Encode(data[3..])|;
      assert (|data| + 2) / 3 == 1 + (|data[3..]| + 2) / 3;
    }
  }

  /**
   * Every character of the encoded text is in the alphabet, except pads,
   * which only stand in the last two positions.
   */
  lemma {:induction false} EncodeAlphabet(data: seq<byte>)
    ensures forall i | 0 <= i < |Encode(data)| ::
              IsAlphabetChar(Encode(data)[i]) || (Encode(data)[i] == PAD && i >= |Encode(data)| - 2)
    decreases |data|
  {
    var s := Encode(data);
    if |data| == 1 {
      IndexOfAlphabet(data[0] / 4);
      IndexOfAlphabet((data[0] % 4) * 16);
    } else if |data| == 2 {
      IndexOfAlphabet(data[0] / 4);
      IndexOfAlphabet((data[0] % 4) * 16 + data[1] / 16);
      IndexOfAlphabet((data[1] % 16) * 4);
    } else if |data| > 2 {
      var head := EncodeTriple(data[0], data[1], data[2]);
      var tail := Encode(data[3..]);
      EncodeAlphabet(data[3..]);
      assert forall j | 0 <= j < |tail| :: IsAlphabetChar(tail[j]) || (tail[j] == PAD && j >= |tail| - 2);
      TripleAlphabet(data[0], data[1], data[2]);
      assert s == head + tail;
      forall i | 0 <= i < |s|
        ensures IsAlphabetChar(s[i]) || (s[i] == PAD && i >= |s| - 2)
      {
        if i >= 4 {
          assert s[i] == tail[i - 4];
          assert IsAlphabetChar(tail[i - 4]) || (tail[i - 4] == PAD && i - 4 >= |tail| - 2);
        } else {
          assert s[i] == head[i];
          assert IsAlphabetChar(head[i]);
        }
      }
    }
  }

  /** Decoding the encoded text gives back exactly the original octets. */
  lemma {:induction false} DecodeEncode(data: seq<byte>)
    ensures Decode(Encode(data)) == Some(data)
    decreases |data|
  {
    var s := Encode(data);
    if |data| == 1 {
      SingleRoundTrip(data[0]);
      assert data == [data[0]];
    } else if |data| == 2 {
      PairRoundTrip(data[0], data[1]);
      assert data == [data[0], data[1]];
    } else if |data| > 2 {
      var rest := data[3..];
      var head := EncodeTriple(data[0], data[1], data[2]);
      var tail := Encode(rest);
      assert s == head + tail;
      TripleRoundTrip(data[0], data[1], data[2]);
      if |rest| == 0 {
        assert s == head;
        assert data == [data[0], data[1], data[2]];
      } else {
        EncodeLength(rest);
        DecodeEncode(rest);
        DecodeFront(head, tail);
        assert data == [data[0], data[1], data[2]] + rest;
      }
    }
  }
}
