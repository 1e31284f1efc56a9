/** Standard base64 (RFC 4648, section 4) as `base64.rs` uses it: padded, and canonical on
    decoding (section 3.5): the unused bits of the last character must be zero. */
module Base64 {
  import opened Prelude
  import opened Bytes

  type sextet = x: int | 0 <= x < 64

  function Digit(i: sextet): char {
    if i < 26 then (i + 65) as char
    else if i < 52 then (i + 71) as char
    else if i < 62 then (i - 4) as char
    else if i == 62 then '+' else '/'
  }

  function Value(c: char): Option<sextet> {
    if 'A' <= c <= 'Z' then Some(c as int - 65)
    else if 'a' <= c <= 'z' then Some(c as int - 71)
    else if '0' <= c <= '9' then Some(c as int + 4)
    else if c == '+' then Some(62)
    else if c == '/' then Some(63)
    else None
  }

  lemma ValueOfDigit(i: sextet)
    ensures Value(Digit(i)) == Some(i) && Digit(i) != '='
  {
  }

  lemma DigitOfValue(c: char)
    ensures Value(c).Some? ==> c == Digit(Value(c).value)
  {
  }

  function Encode(b: seq<byte>): string {
    if b == [] then ""
    else if |b| == 1 then OneByte(b[0])
    else if |b| == 2 then TwoBytes(b[0], b[1])
    else ThreeBytes(b[0], b[1], b[2]) + Encode(b[3..])
  }

  function OneByte(a: byte): string {
    [Digit(a / 4), Digit(a % 4 * 16), '=', '=']
  }

  function TwoBytes(a: byte, b: byte): string {
    [Digit(a / 4), Digit(a % 4 * 16 + b / 16), Digit(b % 16 * 4), '=']
  }

  function ThreeBytes(a: byte, b: byte, c: byte): string {
    [Digit(a / 4), Digit(a % 4 * 16 + b / 16), Digit(b % 16 * 4 + c / 64), Digit(c % 64)]
  }

  /** The bytes of one four-character group; only the last group may be padded. */
  function Group(s: string, last: bool): Option<seq<byte>>
    requires |s| == 4
  {
    var v0, v1, v2, v3 := Value(s[0]), Value(s[1]), Value(s[2]), Value(s[3]);
    if v0.None? || v1.None? then None
    else if last && s[2] == '=' && s[3] == '=' then
      if v1.value % 16 == 0 then Some([v0.value * 4 + v1.value / 16]) else None
    else if v2.None? then None
    else if last && s[3] == '=' then
      if v2.value % 4 == 0 then Some([v0.value * 4 + v1.value / 16, v1.value % 16 * 16 + v2.value / 4]) else None
    else if v3.None? then None
    else Some([v0.value * 4 + v1.value / 16, v1.value % 16 * 16 + v2.value / 4, v2.value % 4 * 64 + v3.value])
  }

  function Decode(s: string): Option<seq<byte>> {
    if s == "" then Some([])
    else if |s| < 4 then None
    else
      var group := Group(s[..4], |s| == 4);
      var rest := Decode(s[4..]);
      if group.None? || rest.None? then None else Some(group.value + rest.value)
  }

  /** The digits are upper-case letters, lower-case letters, decimal digits, plus and slash, in
      this order. */
  lemma DigitsAreStandard(i: sextet)
    ensures i < 26 ==> Digit(i) as int - 'A' as int == i
    ensures 26 <= i < 52 ==> Digit(i) as int - 'a' as int == i - 26
    ensures 52 <= i < 62 ==> Digit(i) as int - '0' as int == i - 52
    ensures Digit(62) == '+' && Digit(63) == '/'
  {
  }

  /** The number that a group of digits stands for. */
  function Number(v0: nat, v1: nat, v2: nat, v3: nat): nat {
    ((v0 * 64 + v1) * 64 + v2) * 64 + v3
  }

  /** A group of digits is the number that its bytes form, most significant first. */
  lemma GroupsAreNumbers(a: byte, b: byte, c: byte) returns (v0: sextet, v1: sextet, v2: sextet, v3: sextet)
    ensures ThreeBytes(a, b, c) == [Digit(v0), Digit(v1), Digit(v2), Digit(v3)]
    ensures Number(v0, v1, v2, v3) == a * 65536 + b * 256 + c
  {
    hide Digit;
    v0, v1, v2, v3 := a / 4, a % 4 * 16 + b / 16, b % 16 * 4 + c / 64, c % 64;
  }

  /** A group that lacks bytes is filled up with zero bits, and its missing digits are padding. */
  lemma ShortGroupsArePadded(a: byte, b: byte) returns (v0: sextet, v1: sextet, v2: sextet, u1: sextet)
    ensures TwoBytes(a, b) == [Digit(v0), Digit(v1), Digit(v2), '='] && Number(v0, v1, v2, 0) == a * 65536 + b * 256
    ensures OneByte(a) == [Digit(v0), Digit(u1), '=', '='] && Number(v0, u1, 0, 0) == a * 65536
  {
    hide Digit;
    v0, v1, v2, u1 := a / 4, a % 4 * 16 + b / 16, b % 16 * 4, a % 4 * 16;
  }

  /** An encoding is the encoding of its groups of three bytes, one after the other. */
  lemma EncodesByGroups(b: seq<byte>)
    ensures |b| >= 3 ==> Encode(b) == Encode(b[..3]) + Encode(b[3..]) && Encode(b[..3]) == ThreeBytes(b[0], b[1], b[2])
    ensures |b| == 2 ==> Encode(b) == TwoBytes(b[0], b[1])
    ensures |b| == 1 ==> Encode(b) == OneByte(b[0])
    ensures |b| == 0 ==> Encode(b) == ""
  {
    if |b| >= 3 {
      assert b[..3][3..] == [] && ThreeBytes(b[0], b[1], b[2]) + "" == ThreeBytes(b[0], b[1], b[2]);
    }
  }

  lemma GroupOfBytes(a: byte, b: byte, c: byte)
    ensures Group(OneByte(a), true) == Some([a]) && Group(TwoBytes(a, b), true) == Some([a, b])
    ensures forall last :: Group(ThreeBytes(a, b, c), last) == Some([a, b, c])
  {
    hide Digit, Value;
    ValueOfDigit(a / 4);
    ValueOfDigit(a % 4 * 16);
    ValueOfDigit(a % 4 * 16 + b / 16);
    ValueOfDigit(b % 16 * 4);
    ValueOfDigit(b % 16 * 4 + c / 64);
    ValueOfDigit(c % 64);
  }

  lemma Regroup(v0: sextet, v1: sextet, v2: sextet, v3: sextet)
    ensures (v0 * 4 + v1 / 16) / 4 == v0 && (v0 * 4 + v1 / 16) % 4 == v1 / 16
    ensures (v1 % 16 * 16 + v2 / 4) / 16 == v1 % 16 && (v1 % 16 * 16 + v2 / 4) % 16 == v2 / 4
    ensures (v2 % 4 * 64 + v3) / 64 == v2 % 4 && (v2 % 4 * 64 + v3) % 64 == v3
    ensures v1 / 16 * 16 + v1 % 16 == v1 && v2 / 4 * 4 + v2 % 4 == v2
  {
  }

  lemma BytesOfGroup(s: string, last: bool)
    requires |s| == 4 && Group(s, last).Some?
    ensures var b := Group(s, last).value;
            && 1 <= |b| <= 3 && (|b| < 3 ==> last)
            && s == (if |b| == 1 then OneByte(b[0]) else if |b| == 2 then TwoBytes(b[0], b[1])
                     else ThreeBytes(b[0], b[1], b[2]))
  {
    hide Digit, Value;
    var b := Group(s, last).value;
    forall i | 0 <= i < 4 ensures Value(s[i]).Some? ==> s[i] == Digit(Value(s[i]).value) {
      DigitOfValue(s[i]);
    }
    var v0, v1 := Value(s[0]).value, Value(s[1]).value;
    assert s == [Digit(v0), Digit(v1), s[2], s[3]];
    if |b| == 1 {
      Regroup(v0, v1, 0, 0);
    } else if |b| == 2 {
      var v2 := Value(s[2]).value;
      Regroup(v0, v1, v2, 0);
      assert s == [Digit(v0), Digit(v1), Digit(v2), '='];
    } else {
      var v2, v3 := Value(s[2]).value, Value(s[3]).value;
      Regroup(v0, v1, v2, v3);
      assert s == [Digit(v0), Digit(v1), Digit(v2), Digit(v3)];
    }
  }

  lemma DecodeCons(group: string, rest: string)
    requires |group| == 4
    ensures var g, r := Group(group, rest == ""), Decode(rest);
            Decode(group + rest) == if g.None? || r.None? then None else Some(g.value + r.value)
  {
    var s := group + rest;
    assert s[..4] == group && s[4..] == rest;
  }

  lemma DecodeOne(a: byte)
    ensures Decode(OneByte(a)) == Some([a])
  {
    GroupOfBytes(a, 0, 0);
    DecodeCons(OneByte(a), "");
    assert OneByte(a) + "" == OneByte(a) && [a] + [] == [a];
  }

  lemma DecodeTwo(a: byte, b: byte)
    ensures Decode(TwoBytes(a, b)) == Some([a, b])
  {
    GroupOfBytes(a, b, 0);
    DecodeCons(TwoBytes(a, b), "");
    assert TwoBytes(a, b) + "" == TwoBytes(a, b) && [a, b] + [] == [a, b];
  }

  lemma DecodeThree(a: byte, b: byte, c: byte, rest: string, tail: seq<byte>)
    requires Decode(rest) == Some(tail)
    ensures Decode(ThreeBytes(a, b, c) + rest) == Some([a, b, c] + tail)
  {
    GroupOfBytes(a, b, c);
    DecodeCons(ThreeBytes(a, b, c), rest);
  }

  lemma {:induction false} DecodeEncode(b: seq<byte>)
    ensures Decode(Encode(b)) == Some(b)
  {
    if |b| == 1 {
      DecodeOne(b[0]);
      assert b == [b[0]];
    } else if |b| == 2 {
      DecodeTwo(b[0], b[1]);
      assert b == [b[0], b[1]];
    } else if |b| >= 3 {
      DecodeEncode(b[3..]);
      DecodeThree(b[0], b[1], b[2], Encode(b[3..]), b[3..]);
      assert b == [b[0], b[1], b[2]] + b[3..];
    }
  }

  lemma {:induction false} EncodeDecode(s: string)
    requires Decode(s).Some?
    ensures Encode(Decode(s).value) == s
  {
    if s != "" {
      BytesOfGroup(s[..4], |s| == 4);
      EncodeDecode(s[4..]);
      var group, rest := Group(s[..4], |s| == 4).value, Decode(s[4..]).value;
      assert |group| < 3 ==> s[4..] == "" && rest == [];
      assert |group| == 3 ==> (group + rest)[3..] == rest;
      assert s == s[..4] + s[4..];
    }
  }

  /** Decoding inverts encoding, and nothing but an encoding decodes. */
  lemma DecodesExactlyEncodings(s: string, b: seq<byte>)
    ensures Decode(s) == Some(b) <==> s == Encode(b)
  {
    DecodeEncode(b);
    if Decode(s) == Some(b) {
      EncodeDecode(s);
    }
  }

  lemma {:induction false} EncodingHasNo(b: seq<byte>, c: char)
    requires Value(c).None? && c != '='
    ensures c !in Encode(b)
  {
    forall i: sextet ensures Digit(i) != c {
      ValueOfDigit(i);
    }
    if |b| >= 3 {
      EncodingHasNo(b[3..], c);
    }
  }
}
