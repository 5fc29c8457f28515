/**
 * The Base64 alphabet and padding of section 4 of RFC 4648, as the pipeline
 * uses it: `base64.b64encode` on the producer side and `base64.b64decode`
 * (CPython's non-strict decoder) on the consumer side.
 */
module Base64 {
  import opened Wrappers

  /** One octet of a file. */
  type byte = x: int | 0 <= x < 256

  /** One 6-bit group, the value a Base64 character stands for. */
  type sextet = x: int | 0 <= x < 64

  /** The character that encodes `v` (RFC 4648, Table 1). */
  function CharOf(v: sextet): char {
    if v < 26 then ('A' as int + v) as char
    else if v < 52 then ('a' as int + (v - 26)) as char
    else if v < 62 then ('0' as int + (v - 52)) as char
    else if v == 62 then '+'
    else '/'
  }

  /** `c` is one of the 64 alphabet characters. */
  predicate IsAlphabet(c: char) {
    ('A' <= c <= 'Z') || ('a' <= c <= 'z') || ('0' <= c <= '9') || c == '+' || c == '/'
  }

  /** The value of an alphabet character; inverse of `CharOf`. */
  function ValueOf(c: char): sextet
    requires IsAlphabet(c)
  {
    if 'A' <= c <= 'Z' then c as int - 'A' as int
    else if 'a' <= c <= 'z' then c as int - 'a' as int + 26
    else if '0' <= c <= '9' then c as int - '0' as int + 52
    else if c == '+' then 62
    else 63
  }

  lemma CharOfValue(v: sextet)
    ensures IsAlphabet(CharOf(v)) && ValueOf(CharOf(v)) == v
  {
  }

  /** The four 6-bit groups of three octets, most significant first. */
  function Sextet0(b0: byte): sextet { b0 / 4 }
  function Sextet1(b0: byte, b1: byte): sextet { (b0 % 4) * 16 + b1 / 16 }
  function Sextet2(b1: byte, b2: byte): sextet { (b1 % 16) * 4 + b2 / 64 }
  function Sextet3(b2: byte): sextet { b2 % 64 }

  /** Four characters for three octets. */
  function EncodeGroup(b0: byte, b1: byte, b2: byte): (s: string)
    ensures |s| == 4
  {
    [CharOf(Sextet0(b0)), CharOf(Sextet1(b0, b1)), CharOf(Sextet2(b1, b2)), CharOf(Sextet3(b2))]
  }

  /** `base64.b64encode(data)`, padded with `=` to a multiple of four characters. */
  function Encode(data: seq<byte>): (s: string)
    ensures |s| == 4 * ((|data| + 2) / 3)
    ensures forall i :: 0 <= i < |s| ==> IsAlphabet(s[i]) || s[i] == '='
    decreases |data|
  {
    if |data| == 0 then ""
    else if |data| == 1 then
      [CharOf(Sextet0(data[0])), CharOf(Sextet1(data[0], 0)), '=', '=']
    else if |data| == 2 then
      [CharOf(Sextet0(data[0])), CharOf(Sextet1(data[0], data[1])), CharOf(Sextet2(data[1], 0)), '=']
    else
      EncodeGroup(data[0], data[1], data[2]) + Encode(data[3..])
  }

  /**
   * The decoder's registers: the position inside the current group of four,
   * the number of pad characters seen since the last data character, and the
   * bits of the previous character still to be emitted.
   */
  datatype Decoder = Decoder(quadPos: nat, pads: nat, left: nat)

  const Start := Decoder(0, 0, 0)

  /**
   * One data character with value `v`: a group's first character only
   * fills the register; each later one emits the octet it completes.
   */
  function Feed(d: Decoder, v: sextet): (Decoder, seq<byte>)
    requires d.quadPos < 4 && d.left < 64
  {
    if d.quadPos == 0 then (Decoder(1, 0, v), [])
    else if d.quadPos == 1 then (Decoder(2, 0, v % 16), [(d.left * 4) % 256 + v / 16])
    else if d.quadPos == 2 then (Decoder(3, 0, v % 4), [(d.left * 16) % 256 + v / 4])
    else (Decoder(0, 0, 0), [(d.left * 64) % 256 + v])
  }

  /**
   * CPython's non-strict `a2b_base64` over the remaining input: characters
   * outside the alphabet are skipped, a pad that completes a group ends the
   * decoding (whatever follows is ignored), and input that stops in the
   * middle of a group is an error.
   */
  function Run(s: string, d: Decoder, acc: seq<byte>): Option<seq<byte>>
    requires d.quadPos < 4 && d.left < 64
    decreases |s|
  {
    if |s| == 0 then
      if d.quadPos == 0 then Some(acc) else None
    else if s[0] == '=' then
      if d.quadPos >= 2 then
        if d.quadPos + d.pads + 1 >= 4 then Some(acc)
        else Run(s[1..], d.(pads := d.pads + 1), acc)
      else Run(s[1..], d, acc)
    else if !IsAlphabet(s[0]) then
      Run(s[1..], d, acc)
    else
      var (next, out) := Feed(d, ValueOf(s[0]));
      Run(s[1..], next, acc + out)
  }

  /** A data character in front of the input is fed to the registers. */
  lemma RunData(c: char, rest: string, d: Decoder, acc: seq<byte>, next: Decoder, out: seq<byte>)
    requires IsAlphabet(c) && d.quadPos < 4 && d.left < 64
    requires Feed(d, ValueOf(c)) == (next, out)
    ensures next.quadPos < 4 && next.left < 64
    ensures Run([c] + rest, d, acc) == Run(rest, next, acc + out)
  {
    assert ([c] + rest)[1..] == rest;
  }

  /** A pad in front of the input, once two data characters of the group are in. */
  lemma RunPad(rest: string, d: Decoder, acc: seq<byte>)
    requires 2 <= d.quadPos < 4 && d.left < 64
    ensures Run(['='] + rest, d, acc) ==
      if d.quadPos + d.pads + 1 >= 4 then Some(acc) else Run(rest, d.(pads := d.pads + 1), acc)
  {
    assert (['='] + rest)[1..] == rest;
  }

  /** Only ASCII text is accepted by `b64decode` for a `str` argument. */
  predicate IsAscii(s: string) {
    forall i :: 0 <= i < |s| ==> s[i] as int < 128
  }

  /** `base64.b64decode(s)`: `None` where Python raises. */
  function Decode(s: string): Option<seq<byte>> {
    if IsAscii(s) then Run(s, Start, []) else None
  }

  /** The octet completed at the second character of a group is the first octet. */
  lemma FirstOctet(b0: byte, b1: byte)
    ensures (Sextet0(b0) * 4) % 256 + Sextet1(b0, b1) / 16 == b0
  {
    var q, r, t := b0 / 4, b0 % 4, b1 / 16;
    assert 0 <= t < 16;
    assert (r * 16 + t) / 16 == r;
    assert (q * 4) % 256 == q * 4;
  }

  /** The octet completed at the third character of a group is the second octet. */
  lemma SecondOctet(b0: byte, b1: byte, b2: byte)
    ensures ((Sextet1(b0, b1) % 16) * 16) % 256 + Sextet2(b1, b2) / 4 == b1
  {
    var r, t, u, w := b0 % 4, b1 / 16, b1 % 16, b2 / 64;
    assert 0 <= t < 16 && 0 <= w < 4;
    assert (r * 16 + t) % 16 == t;
    assert (t * 16) % 256 == t * 16;
    assert (u * 4 + w) / 4 == u;
  }

  /** The octet completed at the fourth character of a group is the third octet. */
  lemma ThirdOctet(b1: byte, b2: byte)
    ensures ((Sextet2(b1, b2) % 4) * 64) % 256 + Sextet3(b2) == b2
  {
    var u, w := b1 % 16, b2 / 64;
    assert 0 <= w < 4;
    assert (u * 4 + w) % 4 == w;
    assert (w * 64) % 256 == w * 64;
  }

  /** The first two data characters of a group complete its first octet. */
  lemma RunFirstPair(v0: sextet, v1: sextet, rest: string, acc: seq<byte>, o0: byte)
    requires (v0 * 4) % 256 + v1 / 16 == o0
    ensures Run([CharOf(v0), CharOf(v1)] + rest, Start, acc) == Run(rest, Decoder(2, 0, v1 % 16), acc + [o0])
  {
    CharOfValue(v0); CharOfValue(v1);
    var t1 := [CharOf(v1)] + rest;
    assert [CharOf(v0), CharOf(v1)] + rest == [CharOf(v0)] + t1;
    RunData(CharOf(v0), t1, Start, acc, Decoder(1, 0, v0), []);
    RunData(CharOf(v1), rest, Decoder(1, 0, v0), acc, Decoder(2, 0, v1 % 16), [o0]);
    assert acc + [] == acc;
  }

  /** The last two data characters of a group complete its other two octets and reset the registers. */
  lemma RunSecondPair(v1: sextet, v2: sextet, v3: sextet, rest: string, acc: seq<byte>, o1: byte, o2: byte)
    requires ((v1 % 16) * 16) % 256 + v2 / 4 == o1
    requires ((v2 % 4) * 64) % 256 + v3 == o2
    ensures Run([CharOf(v2), CharOf(v3)] + rest, Decoder(2, 0, v1 % 16), acc) == Run(rest, Start, acc + [o1, o2])
  {
    CharOfValue(v2); CharOfValue(v3);
    var t3 := [CharOf(v3)] + rest;
    assert [CharOf(v2), CharOf(v3)] + rest == [CharOf(v2)] + t3;
    RunData(CharOf(v2), t3, Decoder(2, 0, v1 % 16), acc, Decoder(3, 0, v2 % 4), [o1]);
    RunData(CharOf(v3), rest, Decoder(3, 0, v2 % 4), acc + [o1], Start, [o2]);
    assert acc + [o1] + [o2] == acc + [o1, o2];
  }

  /**
   * Four data characters from the start state: each of the last three
   * completes one octet, and the registers are back at the start.
   */
  lemma RunQuad(v0: sextet, v1: sextet, v2: sextet, v3: sextet, rest: string, acc: seq<byte>, o0: byte, o1: byte, o2: byte)
    requires (v0 * 4) % 256 + v1 / 16 == o0
    requires ((v1 % 16) * 16) % 256 + v2 / 4 == o1
    requires ((v2 % 4) * 64) % 256 + v3 == o2
    ensures Run([CharOf(v0), CharOf(v1), CharOf(v2), CharOf(v3)] + rest, Start, acc) == Run(rest, Start, acc + [o0, o1, o2])
  {
    var back := [CharOf(v2), CharOf(v3)] + rest;
    assert [CharOf(v0), CharOf(v1), CharOf(v2), CharOf(v3)] + rest == [CharOf(v0), CharOf(v1)] + back;
    RunFirstPair(v0, v1, back, acc, o0);
    RunSecondPair(v1, v2, v3, rest, acc + [o0], o1, o2);
    assert acc + [o0] + [o1, o2] == acc + [o0, o1, o2];
  }

  /** Decoding one full group from the start state emits its three octets. */
  lemma RunGroup(b0: byte, b1: byte, b2: byte, rest: string, acc: seq<byte>)
    ensures Run(EncodeGroup(b0, b1, b2) + rest, Start, acc) == Run(rest, Start, acc + [b0, b1, b2])
  {
    FirstOctet(b0, b1);
    SecondOctet(b0, b1, b2);
    ThirdOctet(b1, b2);
    RunQuad(Sextet0(b0), Sextet1(b0, b1), Sextet2(b1, b2), Sextet3(b2), rest, acc, b0, b1, b2);
  }

  /** A final group holding one octet: two data characters and two pads. */
  lemma RunTail1(v0: sextet, v1: sextet, acc: seq<byte>, o0: byte)
    requires (v0 * 4) % 256 + v1 / 16 == o0
    ensures Run([CharOf(v0), CharOf(v1), '=', '='], Start, acc) == Some(acc + [o0])
  {
    CharOfValue(v0); CharOfValue(v1);
    var t1 := [CharOf(v1)] + (['='] + (['='] + []));
    assert [CharOf(v0), CharOf(v1), '=', '='] == [CharOf(v0)] + t1;
    RunData(CharOf(v0), t1, Start, acc, Decoder(1, 0, v0), []);
    RunData(CharOf(v1), ['='] + (['='] + []), Decoder(1, 0, v0), acc, Decoder(2, 0, v1 % 16), [o0]);
    RunPad(['='] + [], Decoder(2, 0, v1 % 16), acc + [o0]);
    RunPad([], Decoder(2, 1, v1 % 16), acc + [o0]);
    assert acc + [] == acc;
  }

  /** A final group holding two octets: three data characters and one pad. */
  lemma RunTail2(v0: sextet, v1: sextet, v2: sextet, acc: seq<byte>, o0: byte, o1: byte)
    requires (v0 * 4) % 256 + v1 / 16 == o0
    requires ((v1 % 16) * 16) % 256 + v2 / 4 == o1
    ensures Run([CharOf(v0), CharOf(v1), CharOf(v2), '='], Start, acc) == Some(acc + [o0, o1])
  {
    CharOfValue(v0); CharOfValue(v1); CharOfValue(v2);
    var t2 := [CharOf(v2)] + (['='] + []);
    var t1 := [CharOf(v1)] + t2;
    assert [CharOf(v0), CharOf(v1), CharOf(v2), '='] == [CharOf(v0)] + t1;
    RunData(CharOf(v0), t1, Start, acc, Decoder(1, 0, v0), []);
    RunData(CharOf(v1), t2, Decoder(1, 0, v0), acc, Decoder(2, 0, v1 % 16), [o0]);
    RunData(CharOf(v2), ['='] + [], Decoder(2, 0, v1 % 16), acc + [o0], Decoder(3, 0, v2 % 4), [o1]);
    RunPad([], Decoder(3, 0, v2 % 4), acc + [o0] + [o1]);
    assert acc + [] == acc;
    assert acc + [o0] + [o1] == acc + [o0, o1];
  }

  /** Decoding the padded encoding of one or two octets appends them. */
  lemma RunEncodeShort(data: seq<byte>, acc: seq<byte>)
    requires 1 <= |data| <= 2
    ensures Run(Encode(data), Start, acc) == Some(acc + data)
  {
    if |data| == 1 {
      assert Encode(data) == [CharOf(Sextet0(data[0])), CharOf(Sextet1(data[0], 0)), '=', '='];
      FirstOctet(data[0], 0);
      RunTail1(Sextet0(data[0]), Sextet1(data[0], 0), acc, data[0]);
      assert [data[0]] == data;
    } else {
      assert Encode(data) == [CharOf(Sextet0(data[0])), CharOf(Sextet1(data[0], data[1])), CharOf(Sextet2(data[1], 0)), '='];
      FirstOctet(data[0], data[1]);
      SecondOctet(data[0], data[1], 0);
      RunTail2(Sextet0(data[0]), Sextet1(data[0], data[1]), Sextet2(data[1], 0), acc, data[0], data[1]);
      assert [data[0], data[1]] == data;
    }
  }

  /** Decoding an encoding continues with the accumulated octets. */
  lemma {:induction false} RunEncode(data: seq<byte>, acc: seq<byte>)
    ensures Run(Encode(data), Start, acc) == Some(acc + data)
    decreases |data|
  {
    if |data| == 0 {
      assert acc + data == acc;
    } else if |data| <= 2 {
      RunEncodeShort(data, acc);
    } else {
      var head, tail := [data[0], data[1], data[2]], data[3..];
      assert Encode(data) == EncodeGroup(data[0], data[1], data[2]) + Encode(tail);
      RunGroup(data[0], data[1], data[2], Encode(tail), acc);
      RunEncode(tail, acc + head);
      assert data == head + tail;
      assert acc + head + tail == acc + (head + tail);
    }
  }

  /** Round trip (RFC 4648 section 4): decoding an encoding gives the octets back. */
  lemma DecodeEncode(data: seq<byte>)
    ensures Decode(Encode(data)) == Some(data)
  {
    var s := Encode(data);
    forall i | 0 <= i < |s| ensures s[i] as int < 128 {
      if s[i] != '=' {
        assert IsAlphabet(s[i]);
      }
    }
    RunEncode(data, []);
    assert [] + data == data;
  }
}
