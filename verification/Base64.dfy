/** Padded base64 in the standard alphabet (RFC 4648, section 4), with a strict decoder. */
module Base64 {
  import opened Wrappers
  import opened Utf8

  type sextet = x: int | 0 <= x < 64

  function Symbol(v: sextet): (c: char)
    ensures c != '='
  {
    if v < 26 then ('A' as int + v) as char
    else if v < 52 then ('a' as int + v - 26) as char
    else if v < 62 then ('0' as int + v - 52) as char
    else if v == 62 then '+' else '/'
  }

  function Value(c: char): (v: Option<sextet>)
    ensures v.Some? <==> exists i: sextet :: Symbol(i) == c
    ensures v.Some? ==> Symbol(v.value) == c
  {
    var v :=
      if 'A' <= c <= 'Z' then Some(c as int - 'A' as int)
      else if 'a' <= c <= 'z' then Some(c as int - 'a' as int + 26)
      else if '0' <= c <= '9' then Some(c as int - '0' as int + 52)
      else if c == '+' then Some(62)
      else if c == '/' then Some(63) else None;
    assert v.Some? ==> Symbol(v.value) == c;
    v
  }

  lemma ValueOfSymbol(v: sextet)
    ensures Value(Symbol(v)) == Some(v)
  {
  }

  function EncodeGroup(b: seq<byte>): (t: string)
    requires 1 <= |b| <= 3
    ensures |t| == 4
  {
    if |b| == 1 then [Symbol(b[0] / 4), Symbol(b[0] % 4 * 16), '=', '=']
    else if |b| == 2 then
      [Symbol(b[0] / 4), Symbol(b[0] % 4 * 16 + b[1] / 16), Symbol(b[1] % 16 * 4), '=']
    else
      [Symbol(b[0] / 4), Symbol(b[0] % 4 * 16 + b[1] / 16),
       Symbol(b[1] % 16 * 4 + b[2] / 64), Symbol(b[2] % 64)]
  }

  function Encode(b: seq<byte>): (t: string)
  {
    if |b| == 0 then ""
    else if |b| <= 3 then EncodeGroup(b)
    else EncodeGroup(b[..3]) + Encode(b[3..])
  }

  /** A group of four symbols; padding is allowed only in the last group, with zero spare bits. */
  function DecodeGroup(t: string, last: bool): (b: Option<seq<byte>>)
    requires |t| == 4
    ensures b.Some? ==> 1 <= |b.value| <= 3 && (!last ==> |b.value| == 3)
  {
    var v0, v1, v2, v3 := Value(t[0]), Value(t[1]), Value(t[2]), Value(t[3]);
    if v0.None? || v1.None? then None
    else if last && t[2] == '=' && t[3] == '=' then
      if v1.value % 16 == 0 then Some([v0.value * 4 + v1.value / 16]) else None
    else if v2.None? then None
    else if last && t[3] == '=' then
      if v2.value % 4 == 0
      then Some([v0.value * 4 + v1.value / 16, v1.value % 16 * 16 + v2.value / 4]) else None
    else if v3.None? then None
    else
      Some([v0.value * 4 + v1.value / 16, v1.value % 16 * 16 + v2.value / 4, v2.value % 4 * 64 + v3.value])
  }

  function Decode(t: string): (b: Option<seq<byte>>)
  {
    if |t| == 0 then Some([])
    else if |t| < 4 then None
    else
      match DecodeGroup(t[..4], |t| == 4)
      case None => None
      case Some(group) =>
        match Decode(t[4..])
        case None => None
        case Some(rest) => Some(group + rest)
  }

  lemma DecodeGroupOfEncodeGroup(b: seq<byte>, last: bool)
    requires 1 <= |b| <= 3 && (!last ==> |b| == 3)
    ensures DecodeGroup(EncodeGroup(b), last) == Some(b)
  {
    hide Symbol, Value;
    ValueOfSymbol(b[0] / 4);
    if |b| == 1 {
      ValueOfSymbol(b[0] % 4 * 16);
    } else {
      ValueOfSymbol(b[0] % 4 * 16 + b[1] / 16);
      if |b| == 2 {
        ValueOfSymbol(b[1] % 16 * 4);
      } else {
        ValueOfSymbol(b[1] % 16 * 4 + b[2] / 64);
        ValueOfSymbol(b[2] % 64);
      }
    }
    assert DecodeGroup(EncodeGroup(b), last).Some? && DecodeGroup(EncodeGroup(b), last).value == b;
  }

  lemma EncodeGroupOfDecodeGroup(t: string, last: bool)
    requires |t| == 4 && DecodeGroup(t, last).Some?
    ensures EncodeGroup(DecodeGroup(t, last).value) == t
  {
    var b := DecodeGroup(t, last).value;
    var v0, v1 := Value(t[0]).value, Value(t[1]).value;
    assert b[0] / 4 == v0;
    if |b| == 1 {
      assert b[0] % 4 * 16 == v1;
    } else {
      var v2 := Value(t[2]).value;
      assert b[0] % 4 * 16 + b[1] / 16 == v1;
      if |b| == 2 {
        assert b[1] % 16 * 4 == v2;
      } else {
        assert b[1] % 16 * 4 + b[2] / 64 == v2;
      }
    }
  }

  lemma {:induction false} DecodeEncode(b: seq<byte>)
    ensures Decode(Encode(b)) == Some(b)
    decreases |b|
  {
    if 0 < |b| <= 3 {
      DecodeGroupOfEncodeGroup(b, true);
      assert Encode(b)[..4] == Encode(b) && Encode(b)[4..] == "";
      assert b + [] == b;
    } else if |b| > 3 {
      DecodeGroupOfEncodeGroup(b[..3], false);
      assert Encode(b)[..4] == EncodeGroup(b[..3]) && Encode(b)[4..] == Encode(b[3..]);
      EncodeNotEmpty(b[3..]);
      DecodeEncode(b[3..]);
      assert b[..3] + b[3..] == b;
    }
  }

  lemma EncodeNotEmpty(b: seq<byte>)
    ensures |b| > 0 <==> |Encode(b)| >= 4
  {
  }

  /** The strict decoder accepts exactly the encoder's outputs, and reads each as its own input. */
  lemma {:induction false} DecodeIffEncode(t: string, b: seq<byte>)
    ensures Decode(t) == Some(b) <==> Encode(b) == t
    decreases |t|
  {
    DecodeEncode(b);
    if |t| >= 4 && Decode(t) == Some(b) {
      var group := DecodeGroup(t[..4], |t| == 4).value;
      EncodeGroupOfDecodeGroup(t[..4], |t| == 4);
      assert t == t[..4] + t[4..];
      if |t| > 4 {
        var rest := Decode(t[4..]).value;
        DecodeIffEncode(t[4..], rest);
        EncodeNotEmpty(rest);
        assert b[..3] == group && b[3..] == rest;
      }
    }
  }

  // ---------- the format ----------

  /** The alphabet of RFC 4648, table 1: three runs of consecutive characters and two more. */
  lemma SymbolsAreTheAlphabet(v: sextet)
    ensures Symbol(0) == 'A' && Symbol(25) == 'Z' && Symbol(26) == 'a' && Symbol(51) == 'z'
    ensures Symbol(52) == '0' && Symbol(61) == '9' && Symbol(62) == '+' && Symbol(63) == '/'
    ensures v !in {25, 51, 61, 62, 63} ==> Symbol(v + 1) as int == Symbol(v) as int + 1
  {
  }

  /** The octet at `i`, zero behind the end. */
  function OctetAt(b: seq<byte>, i: nat): byte {
    if i < |b| then b[i] else 0
  }

  /** Three octets read as one number of 24 bits. */
  function GroupNumber(b: seq<byte>, g: nat): nat {
    65536 * OctetAt(b, 3 * g) + 256 * OctetAt(b, 3 * g + 1) + OctetAt(b, 3 * g + 2)
  }

  /** What a symbol stands for; padding stands for zero. */
  function DigitOf(c: char): nat {
    Value(c).GetOr(0)
  }

  /** Four symbols are the digits of a number to the base 64, padding in the place of missing octets. */
  ghost predicate Writes(t: string, n: nat, octets: nat) {
    && |t| == 4
    && 262144 * DigitOf(t[0]) + 4096 * DigitOf(t[1]) + 64 * DigitOf(t[2]) + DigitOf(t[3]) == n
    && Value(t[0]).Some? && Value(t[1]).Some?
    && (if octets < 2 then t[2] == '=' else Value(t[2]).Some?)
    && (if octets < 3 then t[3] == '=' else Value(t[3]).Some?)
  }

  /** Three octets are four digits of six bits. */
  lemma FourDigits(x: byte, y: byte, z: byte)
    ensures 262144 * (x / 4) + 4096 * (x % 4 * 16 + y / 16) + 64 * (y % 16 * 4 + z / 64) + z % 64
         == 65536 * x + 256 * y + z
  {
    assert x == 4 * (x / 4) + x % 4;
    assert y == 16 * (y / 16) + y % 16;
    assert z == 64 * (z / 64) + z % 64;
  }

  lemma EncodeGroupWrites(b: seq<byte>)
    requires 1 <= |b| <= 3
    ensures Writes(EncodeGroup(b), GroupNumber(b, 0), |b|)
  {
    hide Symbol, Value;
    var x, y, z := b[0], OctetAt(b, 1), OctetAt(b, 2);
    FourDigits(x, y, z);
    PaddingIsNoSymbol();
    ValueOfSymbol(x / 4);
    ValueOfSymbol(x % 4 * 16 + y / 16);
    ValueOfSymbol(y % 16 * 4 + z / 64);
    ValueOfSymbol(z % 64);
  }

  lemma PaddingIsNoSymbol()
    ensures Value('=').None?
  {
  }

  lemma OneGroupMore(n: nat)
    ensures (n + 3 + 2) / 3 * 4 == (n + 2) / 3 * 4 + 4
  {
  }

  lemma {:induction false} EncodeLength(b: seq<byte>)
    ensures |Encode(b)| == (|b| + 2) / 3 * 4
    decreases |b|
  {
    hide EncodeGroup;
    if |b| > 3 {
      EncodeLength(b[3..]);
      OneGroupMore(|b| - 3);
    }
  }

  lemma NextGroup(b: seq<byte>, g: nat)
    requires |b| > 3
    ensures GroupNumber(b[..3], 0) == GroupNumber(b, 0)
    ensures g > 0 ==> GroupNumber(b, g) == GroupNumber(b[3..], g - 1)
  {
  }

  lemma OneGroup(b: seq<byte>)
    requires |b| > 0
    ensures Writes(EncodeGroup(if |b| <= 3 then b else b[..3]), GroupNumber(b, 0), |b|)
  {
    if |b| <= 3 {
      EncodeGroupWrites(b);
    } else {
      EncodeGroupWrites(b[..3]);
      NextGroup(b, 0);
    }
  }

  /** Every three octets are written as their 24 bits, from the first octets to the last. */
  lemma {:induction false} EncodeIsPositional(b: seq<byte>, g: nat)
    requires 3 * g < |b|
    ensures |Encode(b)| == (|b| + 2) / 3 * 4
    ensures Writes(Encode(b)[4 * g..4 * g + 4], GroupNumber(b, g), |b| - 3 * g)
    decreases |b|
  {
    hide EncodeGroup, Writes, GroupNumber;
    EncodeLength(b);
    if g == 0 {
      OneGroup(b);
      assert Encode(b)[0..4] == EncodeGroup(if |b| <= 3 then b else b[..3]);
    } else {
      var rest := b[3..];
      EncodeIsPositional(rest, g - 1);
      NextGroup(b, g);
      assert Encode(b) == EncodeGroup(b[..3]) + Encode(rest);
      assert Encode(b)[4 * g..4 * g + 4] == Encode(rest)[4 * (g - 1)..4 * (g - 1) + 4];
    }
  }
}
