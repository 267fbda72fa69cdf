/** UTF-8 as RFC 3629 defines it: what a Rust `String` holds and `String::from_utf8` accepts. */
module Utf8 {
  import opened Wrappers

  type byte = x: int | 0 <= x < 256

  /** The octets of one character (RFC 3629, section 3). */
  function EncodeChar(c: char): (b: seq<byte>)
    ensures 1 <= |b| <= 4
  {
    var v := c as int;
    if v < 0x80 then [v]
    else if v < 0x800 then [0xC0 + v / 64, 0x80 + v % 64]
    else if v < 0x10000 then [0xE0 + v / 64 / 64, 0x80 + v / 64 % 64, 0x80 + v % 64]
    else [0xF0 + v / 64 / 64 / 64, 0x80 + v / 64 / 64 % 64, 0x80 + v / 64 % 64, 0x80 + v % 64]
  }

  function Encode(s: string): (b: seq<byte>)
  {
    if s == "" then [] else EncodeChar(s[0]) + Encode(s[1..])
  }

  predicate IsContinuation(b: byte) {
    0x80 <= b < 0xC0
  }

  /** Six more bits, from a continuation octet. */
  function Append(bits: int, b: byte): int {
    64 * bits + (b as int - 0x80)
  }

  datatype Scalar = Scalar(c: char, size: nat)

  /**
    * The character at the front of `b` and the number of octets it takes. Overlong forms,
    * surrogates and values above U+10FFFF are refused, as are stray and missing continuations.
    */
  function DecodeFirst(b: seq<byte>): (r: Option<Scalar>)
    ensures r.Some? ==> 1 <= r.value.size <= |b|
  {
    if |b| == 0 then None
    else if b[0] < 0x80 then Some(Scalar(b[0] as char, 1))
    else if 0xC2 <= b[0] < 0xE0 then
      if |b| >= 2 && IsContinuation(b[1])
      then Some(Scalar(Append(b[0] as int - 0xC0, b[1]) as char, 2)) else None
    else if 0xE0 <= b[0] < 0xF0 then
      if |b| >= 3 && IsContinuation(b[1]) && IsContinuation(b[2]) then
        var v := Append(Append(b[0] as int - 0xE0, b[1]), b[2]);
        if v >= 0x800 && !(0xD800 <= v < 0xE000) then Some(Scalar(v as char, 3)) else None
      else None
    else if 0xF0 <= b[0] < 0xF5 then
      if |b| >= 4 && IsContinuation(b[1]) && IsContinuation(b[2]) && IsContinuation(b[3]) then
        var v := Append(Append(Append(b[0] as int - 0xF0, b[1]), b[2]), b[3]);
        if 0x10000 <= v < 0x110000 then Some(Scalar(v as char, 4)) else None
      else None
    else None
  }

  function Decode(b: seq<byte>): (s: Option<string>)
  {
    if b == [] then Some("")
    else
      match DecodeFirst(b)
      case None => None
      case Some(first) =>
        match Decode(b[first.size..])
        case None => None
        case Some(rest) => Some([first.c] + rest)
  }

  /** One character's octets are read back, whatever follows them. */
  lemma DecodeFirstOfEncodeChar(c: char, rest: seq<byte>)
    ensures DecodeFirst(EncodeChar(c) + rest) == Some(Scalar(c, |EncodeChar(c)|))
  {
  }

  lemma LastBits(bits: nat, b: byte)
    requires IsContinuation(b)
    ensures Append(bits, b) >= 0 && Append(bits, b) / 64 == bits && Append(bits, b) % 64 == b - 0x80
  {
  }

  /** Only a character's own octets are read as that character. */
  lemma EncodeCharOfDecodeFirst(b: seq<byte>)
    requires DecodeFirst(b).Some?
    ensures b[..DecodeFirst(b).value.size] == EncodeChar(DecodeFirst(b).value.c)
  {
    if 0xC2 <= b[0] < 0xE0 {
      LastBits(b[0] - 0xC0, b[1]);
    } else if 0xE0 <= b[0] < 0xF0 {
      ThreeOctets(b);
    } else if 0xF0 <= b[0] {
      FourOctets(b);
    }
  }

  lemma ThreeOctets(b: seq<byte>)
    requires DecodeFirst(b).Some? && 0xE0 <= b[0] < 0xF0
    ensures b[..3] == EncodeChar(DecodeFirst(b).value.c)
  {
    hide Append;
    LastBits(b[0] as int - 0xE0, b[1]);
    LastBits(Append(b[0] as int - 0xE0, b[1]), b[2]);
  }

  lemma FourOctets(b: seq<byte>)
    requires DecodeFirst(b).Some? && 0xF0 <= b[0]
    ensures b[..4] == EncodeChar(DecodeFirst(b).value.c)
  {
    hide Append;
    var bits := Append(b[0] as int - 0xF0, b[1]);
    LastBits(b[0] as int - 0xF0, b[1]);
    LastBits(bits, b[2]);
    LastBits(Append(bits, b[2]), b[3]);
  }

  lemma {:induction false} DecodeEncode(s: string)
    ensures Decode(Encode(s)) == Some(s)
  {
    if s != "" {
      DecodeFirstOfEncodeChar(s[0], Encode(s[1..]));
      assert Encode(s)[|EncodeChar(s[0])|..] == Encode(s[1..]);
      DecodeEncode(s[1..]);
      assert [s[0]] + s[1..] == s;
    }
  }

  /** Decoding is exactly the inverse of encoding: no second octet string means the same text. */
  lemma {:induction false} DecodeIffEncode(b: seq<byte>, s: string)
    ensures Decode(b) == Some(s) <==> Encode(s) == b
    decreases |b|
  {
    DecodeEncode(s);
    if b != [] && Decode(b) == Some(s) {
      var first := DecodeFirst(b).value;
      EncodeCharOfDecodeFirst(b);
      DecodeIffEncode(b[first.size..], s[1..]);
      assert b == b[..first.size] + b[first.size..];
    }
  }

  // ---------- the format ----------

  /** The bits of a character, six from each octet behind the first. */
  function Payload(b: seq<byte>, lead: int): int
    requires |b| >= 1
  {
    if |b| == 1 then b[0] as int - lead else 64 * Payload(b[..|b| - 1], lead) + (b[|b| - 1] as int - 0x80)
  }

  /**
    * The table of RFC 3629, section 3: the value decides the number of octets, the first octet says
    * it, the others begin with the bits 10, and together they hold the value.
    */
  lemma EncodeCharIsTheTable(c: char)
    ensures var v, b := c as int, EncodeChar(c);
      && |b| == (if v <= 0x7F then 1 else if v <= 0x7FF then 2 else if v <= 0xFFFF then 3 else 4)
      && (forall i | 1 <= i < |b| :: 0x80 <= b[i] <= 0xBF)
      && (|b| == 1 ==> b[0] <= 0x7F && Payload(b, 0) == v)
      && (|b| == 2 ==> 0xC0 <= b[0] <= 0xDF && Payload(b, 0xC0) == v)
      && (|b| == 3 ==> 0xE0 <= b[0] <= 0xEF && Payload(b, 0xE0) == v)
      && (|b| == 4 ==> 0xF0 <= b[0] <= 0xF7 && Payload(b, 0xF0) == v)
  {
    var v, b := c as int, EncodeChar(c);
    if |b| == 2 {
      assert b[..1] == [b[0]];
      assert Payload(b, 0xC0) == 64 * (b[0] as int - 0xC0) + (b[1] as int - 0x80);
    } else if |b| == 3 {
      assert b[..2][..1] == [b[0]] && b[..2] == [b[0], b[1]];
      assert Payload(b[..2], 0xE0) == 64 * (b[0] as int - 0xE0) + (b[1] as int - 0x80);
    } else if |b| == 4 {
      assert b[..3] == [b[0], b[1], b[2]] && b[..3][..2] == [b[0], b[1]] && b[..3][..2][..1] == [b[0]];
      assert Payload(b[..3][..2], 0xF0) == 64 * (b[0] as int - 0xF0) + (b[1] as int - 0x80);
      assert Payload(b[..3], 0xF0) == 64 * Payload(b[..3][..2], 0xF0) + (b[2] as int - 0x80);
    }
  }

  /** A text is encoded character by character, in order. */
  lemma {:induction false} EncodeConcat(a: string, b: string)
    ensures Encode(a + b) == Encode(a) + Encode(b)
  {
    if a == "" {
      assert a + b == b;
    } else {
      EncodeConcat(a[1..], b);
      assert (a + b)[1..] == a[1..] + b;
    }
  }
}
