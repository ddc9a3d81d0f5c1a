/** Base64 with the standard alphabet of section 4 of RFC 4648, as Python's
    `base64.b64encode` writes it and as `base64.b64decode` (with its default
    `validate=False`) reads it: the decoder skips characters outside the
    alphabet, stops at the padding that completes a quantum, and fails on a
    non-ASCII string or a final incomplete quantum. */
module Base64 {
  import opened Optional
  import opened Utf8
  import Text

  /** The alphabet character of a 6-bit value. */
  function Char(v: int): (c: char)
    requires 0 <= v < 64
    ensures c as int < 0x80
  {
    if v < 26 then ('A' as int + v) as char
    else if v < 52 then ('a' as int + v - 26) as char
    else if v < 62 then ('0' as int + v - 52) as char
    else if v == 62 then '+'
    else '/'
  }

  /** The 6-bit value of an alphabet character, 64 for any other character. */
  function Value(c: char): (v: int)
    ensures 0 <= v <= 64
  {
    if 'A' <= c <= 'Z' then c as int - 'A' as int
    else if 'a' <= c <= 'z' then c as int - 'a' as int + 26
    else if '0' <= c <= '9' then c as int - '0' as int + 52
    else if c == '+' then 62
    else if c == '/' then 63
    else 64
  }

  predicate InAlphabet(c: char) {
    Value(c) < 64
  }

  lemma ValueOfChar(v: int)
    requires 0 <= v < 64
    ensures Value(Char(v)) == v
  {
  }

  /** The four characters of a full 3-byte quantum. */
  function Quad(x: Byte, y: Byte, z: Byte): (r: string)
    ensures |r| == 4 && forall i :: 0 <= i < 4 ==> InAlphabet(r[i]) && r[i] as int < 0x80
  {
    ValueOfChar(x / 4);
    ValueOfChar((x % 4) * 16 + y / 16);
    ValueOfChar((y % 16) * 4 + z / 64);
    ValueOfChar(z % 64);
    [Char(x / 4), Char((x % 4) * 16 + y / 16), Char((y % 16) * 4 + z / 64), Char(z % 64)]
  }

  /** `base64.b64encode(b).decode()`: a final quantum of one or two bytes is
      written as if zero-extended, with '=' for each missing byte. */
  function Encode(b: seq<Byte>): (r: string)
    ensures |r| == (|b| + 2) / 3 * 4
    ensures forall i :: 0 <= i < |r| ==> InAlphabet(r[i]) || r[i] == '='
    ensures forall i :: 0 <= i < |r| ==> r[i] as int < 0x80
  {
    if |b| == 0 then ""
    else if |b| == 1 then Quad(b[0], 0, 0)[..2] + "=="
    else if |b| == 2 then Quad(b[0], b[1], 0)[..3] + "="
    else Quad(b[0], b[1], b[2]) + Encode(b[3..])
  }

  /** The decoder's position inside the current 4-character quantum, the bits
      carried over from the previous character, and the run of '=' seen. */
  datatype State = State(quad: int, left: int, pads: int)

  predicate Valid(st: State) {
    && 0 <= st.quad < 4 && 0 <= st.pads
    && 0 <= st.left
    && (st.quad == 1 ==> st.left < 64)
    && (st.quad == 2 ==> st.left < 16)
    && (st.quad == 3 ==> st.left < 4)
  }

  const Start := State(0, 0, 0)

  /** The lenient decoding loop of `binascii.a2b_base64`: `out` holds the
      bytes produced so far, `None` is binascii.Error. */
  function Run(s: string, st: State, out: seq<Byte>): Option<seq<Byte>>
    requires Valid(st)
    decreases |s|
  {
    if s == [] then
      if st.quad == 0 then Some(out) else None
    else if s[0] == '=' then
      if st.quad >= 2 && st.quad + st.pads + 1 >= 4 then Some(out)
      else Run(s[1..], if st.quad >= 2 then st.(pads := st.pads + 1) else st, out)
    else
      var v := Value(s[0]);
      if v >= 64 then Run(s[1..], st, out)
      else if st.quad == 0 then Run(s[1..], State(1, v, 0), out)
      else if st.quad == 1 then Run(s[1..], State(2, v % 16, 0), out + [st.left * 4 + v / 16])
      else if st.quad == 2 then Run(s[1..], State(3, v % 4, 0), out + [st.left * 16 + v / 4])
      else Run(s[1..], Start, out + [st.left * 64 + v])
  }

  predicate IsAscii(s: string) {
    forall i :: 0 <= i < |s| ==> s[i] as int < 0x80
  }

  /** `base64.b64decode(s)` on a `str`; `None` where it raises (a non-ASCII
      character, or an incomplete final quantum). */
  function Decode(s: string): Option<seq<Byte>> {
    if IsAscii(s) then Run(s, Start, []) else None
  }

  /** The re-padding every decoder of the pipeline applies first: when the
      length is not a multiple of 4, append the '=' that make it one. */
  function Repad(s: string): (r: string)
    ensures |r| % 4 == 0 && |s| <= |r| < |s| + 4 && r[..|s|] == s
    ensures forall i :: |s| <= i < |r| ==> r[i] == '='
    ensures |s| % 4 == 0 ==> r == s
  {
    var padding := 4 - |s| % 4;
    if padding != 4 then s + Text.Repeat('=', padding) else s
  }

  /** `b64decode` after re-padding. */
  function DecodePadded(s: string): Option<seq<Byte>> {
    Decode(Repad(s))
  }

  lemma QuadValues(x: Byte, y: Byte, z: Byte)
    ensures var q := Quad(x, y, z);
      && Value(q[0]) * 4 + Value(q[1]) / 16 == x
      && (Value(q[1]) % 16) * 16 + Value(q[2]) / 4 == y
      && (Value(q[2]) % 4) * 64 + Value(q[3]) == z
  {
    ValueOfChar(x / 4);
    ValueOfChar((x % 4) * 16 + y / 16);
    ValueOfChar((y % 16) * 4 + z / 64);
    ValueOfChar(z % 64);
  }

  /** The decoder consumes the first character of a non-empty string. */
  lemma RunCons(c: char, rest: string, st: State, out: seq<Byte>)
    requires Valid(st) && InAlphabet(c)
    ensures var v := Value(c);
      Run([c] + rest, st, out) ==
        if st.quad == 0 then Run(rest, State(1, v, 0), out)
        else if st.quad == 1 then Run(rest, State(2, v % 16, 0), out + [st.left * 4 + v / 16])
        else if st.quad == 2 then Run(rest, State(3, v % 4, 0), out + [st.left * 16 + v / 4])
        else Run(rest, Start, out + [st.left * 64 + v])
  {
    assert ([c] + rest)[1..] == rest;
  }

  /** One full quantum decodes to its three bytes. */
  lemma DecodeQuad(x: Byte, y: Byte, z: Byte, rest: string, out: seq<Byte>)
    ensures Run(Quad(x, y, z) + rest, Start, out) == Run(rest, Start, out + [x, y, z])
  {
    var q := Quad(x, y, z);
    QuadValues(x, y, z);
    var v0, v1, v2 := Value(q[0]), Value(q[1]), Value(q[2]);
    assert q + rest == [q[0]] + ([q[1]] + ([q[2]] + ([q[3]] + rest)));
    RunCons(q[0], [q[1]] + ([q[2]] + ([q[3]] + rest)), Start, out);
    RunCons(q[1], [q[2]] + ([q[3]] + rest), State(1, v0, 0), out);
    RunCons(q[2], [q[3]] + rest, State(2, v1 % 16, 0), out + [x]);
    RunCons(q[3], rest, State(3, v2 % 4, 0), out + [x] + [y]);
    assert out + [x] + [y] + [z] == out + [x, y, z];
  }

  /** The decoder stops at the padding of a final quantum. */
  lemma RunPadding(st: State, out: seq<Byte>, n: nat)
    requires Valid(st) && st.quad >= 2 && st.pads == 0 && st.quad + n == 4
    ensures Run(Text.Repeat('=', n), st, out) == Some(out)
  {
    var p := Text.Repeat('=', n);
    if n == 2 {
      assert p[1..] == "=";
    }
  }

  /** A final quantum of one byte: two characters and "==". */
  lemma RunEncodeOne(x: Byte, out: seq<Byte>)
    ensures Run(Encode([x]), Start, out) == Some(out + [x])
  {
    var q := Quad(x, 0, 0);
    QuadValues(x, 0, 0);
    var e := Encode([x]);
    assert e == [q[0]] + ([q[1]] + Text.Repeat('=', 2));
    RunCons(q[0], [q[1]] + Text.Repeat('=', 2), Start, out);
    RunCons(q[1], Text.Repeat('=', 2), State(1, Value(q[0]), 0), out);
    RunPadding(State(2, Value(q[1]) % 16, 0), out + [x], 2);
  }

  /** A final quantum of two bytes: three characters and "=". */
  lemma RunEncodeTwo(x: Byte, y: Byte, out: seq<Byte>)
    ensures Run(Encode([x, y]), Start, out) == Some(out + [x, y])
  {
    var q := Quad(x, y, 0);
    QuadValues(x, y, 0);
    var e := Encode([x, y]);
    assert e == [q[0]] + ([q[1]] + ([q[2]] + Text.Repeat('=', 1)));
    RunCons(q[0], [q[1]] + ([q[2]] + Text.Repeat('=', 1)), Start, out);
    RunCons(q[1], [q[2]] + Text.Repeat('=', 1), State(1, Value(q[0]), 0), out);
    RunCons(q[2], Text.Repeat('=', 1), State(2, Value(q[1]) % 16, 0), out + [x]);
    RunPadding(State(3, Value(q[2]) % 4, 0), out + [x] + [y], 1);
    assert out + [x] + [y] == out + [x, y];
  }

  lemma {:induction false} RunEncode(b: seq<Byte>, out: seq<Byte>)
    ensures Run(Encode(b), Start, out) == Some(out + b)
    decreases |b|
  {
    if |b| == 0 {
      assert out + b == out;
    } else if |b| == 1 {
      assert b == [b[0]];
      RunEncodeOne(b[0], out);
    } else if |b| == 2 {
      assert b == [b[0], b[1]];
      RunEncodeTwo(b[0], b[1], out);
    } else if |b| >= 3 {
      DecodeQuad(b[0], b[1], b[2], Encode(b[3..]), out);
      RunEncode(b[3..], out + [b[0], b[1], b[2]]);
      assert Encode(b) == Quad(b[0], b[1], b[2]) + Encode(b[3..]);
      assert b == [b[0], b[1], b[2]] + b[3..];
      assert out + [b[0], b[1], b[2]] + b[3..] == out + b;
    }
  }

  /** Decoding the encoding gives the bytes back, with or without re-padding. */
  lemma DecodeEncode(b: seq<Byte>)
    ensures Decode(Encode(b)) == Some(b)
    ensures DecodePadded(Encode(b)) == Some(b)
  {
    var e := Encode(b);
    RunEncode(b, []);
    assert [] + b == b;
    assert Decode(e) == Some(b);
    WholeQuanta((|b| + 2) / 3);
    assert Repad(e) == e;
  }

  lemma WholeQuanta(k: int)
    ensures (k * 4) % 4 == 0
  {
  }
}
