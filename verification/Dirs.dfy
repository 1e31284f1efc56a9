/** The name of an account's vault cache file (`db_file` in `dirs.rs`): server and email are
    percent-encoded (RFC 3986, section 2.1) and joined by a colon. */
module Dirs {
  import opened Prelude
  import opened Bytes

  const SLASH: byte := 0x2F
  const PERCENT: byte := 0x25
  const COLON: byte := 0x3A

  const JSON: seq<byte> := [0x2E, 0x6A, 0x73, 0x6F, 0x6E]

  /** `INVALID_PATH` and, as the encoder always does, every byte outside ASCII. */
  predicate Escaped(b: byte) {
    b < 0x20 || b >= 0x7F || b == SLASH || b == PERCENT || b == COLON
  }

  function HexDigit(n: nat): byte
    requires n < 16
  {
    if n < 10 then 0x30 + n else 0x41 + n - 10
  }

  function HexValue(b: byte): Option<nat> {
    if 0x30 <= b <= 0x39 then Some(b - 0x30)
    else if 0x41 <= b <= 0x46 then Some(b - 0x41 + 10)
    else if 0x61 <= b <= 0x66 then Some(b - 0x61 + 10)
    else None
  }

  function Encode(s: seq<byte>): seq<byte> {
    if s == [] then []
    else if Escaped(s[0]) then [PERCENT, HexDigit(s[0] / 16), HexDigit(s[0] % 16)] + Encode(s[1..])
    else [s[0]] + Encode(s[1..])
  }

  /** Percent-decoding; a percent sign that no two hex digits follow stands for itself. */
  function Decode(s: seq<byte>): seq<byte> {
    if s == [] then []
    else if s[0] == PERCENT && |s| >= 3 && HexValue(s[1]).Some? && HexValue(s[2]).Some? then
      [HexValue(s[1]).value * 16 + HexValue(s[2]).value] + Decode(s[3..])
    else [s[0]] + Decode(s[1..])
  }

  /** The file name `db_file` appends to the cache directory. */
  function DbFileName(server: seq<byte>, email: seq<byte>): seq<byte> {
    Encode(server) + [COLON] + Encode(email) + JSON
  }

  lemma {:induction false} DecodeEncode(s: seq<byte>)
    ensures Decode(Encode(s)) == s
  {
    if s != [] {
      DecodeEncode(s[1..]);
      assert s == [s[0]] + s[1..];
      if Escaped(s[0]) {
        assert Encode(s)[3..] == Encode(s[1..]);
      } else {
        assert Encode(s)[1..] == Encode(s[1..]);
      }
    }
  }

  lemma {:induction false} EncodedIsClean(s: seq<byte>)
    ensures SLASH !in Encode(s) && COLON !in Encode(s)
    ensures forall b :: b in Encode(s) ==> 0x20 <= b < 0x7F
  {
    if s != [] {
      EncodedIsClean(s[1..]);
    }
  }

  /** Read the account back from a file name: split at the first colon, drop the extension. */
  function Account(name: seq<byte>): Option<(seq<byte>, seq<byte>)> {
    var i := FirstColon(name);
    if i == |name| || |name| < i + 1 + |JSON| then None
    else Some((Decode(name[..i]), Decode(name[i + 1..|name| - |JSON|])))
  }

  function FirstColon(name: seq<byte>): (i: nat)
    ensures i <= |name| && COLON !in name[..i] && (i < |name| ==> name[i] == COLON)
  {
    if name == [] || name[0] == COLON then 0 else
      var i := FirstColon(name[1..]);
      assert name[..1 + i] == [name[0]] + name[1..][..i];
      1 + i
  }

  lemma NameIsClean(server: seq<byte>, email: seq<byte>, i: nat)
    requires i < |DbFileName(server, email)| && i != |Encode(server)|
    ensures DbFileName(server, email)[i] != COLON && DbFileName(server, email)[i] != SLASH
  {
    EncodedIsClean(server);
    EncodedIsClean(email);
    hide Encode;
    var name, n := DbFileName(server, email), |Encode(server)|;
    if i < n {
      assert name[i] == Encode(server)[i];
    } else if i < n + 1 + |Encode(email)| {
      assert name[i] == Encode(email)[i - n - 1];
    } else {
      assert name[i] == JSON[i - n - 1 - |Encode(email)|];
    }
  }

  lemma {:induction false} EncodesParts(a: seq<byte>, b: seq<byte>)
    ensures Encode(a + b) == Encode(a) + Encode(b)
  {
    if a == [] {
      assert a + b == b;
    } else {
      assert (a + b)[1..] == a[1..] + b;
      EncodesParts(a[1..], b);
    }
  }

  /** The character for a digit, with capital letters from ten on. */
  predicate IsHex(digit: byte, n: nat) {
    if n < 10 then digit - '0' as int == n else n < 16 && digit - 'A' as int == n - 10
  }

  /** A byte is written as it is, unless it is a control character, a slash, a percent sign, a colon
      or outside ASCII; then it is written as a percent sign and its two hexadecimal digits. */
  lemma EncodesBytes(b: byte)
    ensures var plain := 0x20 <= b < 0x7F && b != '/' as int && b != '%' as int && b != ':' as int;
            && (plain ==> Encode([b]) == [b])
            && (!plain ==> |Encode([b])| == 3 && Encode([b])[0] == '%' as int
                           && IsHex(Encode([b])[1], b / 16) && IsHex(Encode([b])[2], b % 16))
  {
    assert [b][1..] == [];
  }

  /** The file name is the two encoded parts around a colon, and the extension. */
  lemma NamesAreJoined(server: seq<byte>, email: seq<byte>)
    ensures DbFileName(server, email)
            == Encode(server) + [':' as int] + Encode(email)
               + ['.' as int, 'j' as int, 's' as int, 'o' as int, 'n' as int]
  {
  }

  /** The name is one path component with a single colon, and gives the account back. */
  lemma FileNameIsDecodable(server: seq<byte>, email: seq<byte>)
    ensures var name := DbFileName(server, email);
            && SLASH !in name && Account(name) == Some((server, email))
            && (forall i :: 0 <= i < |name| && name[i] == COLON ==> i == |Encode(server)|)
  {
    DecodeEncode(server);
    DecodeEncode(email);
    hide Encode, Decode;
    var name := DbFileName(server, email);
    var n := |Encode(server)|;
    forall i | 0 <= i < |name| && i != n ensures name[i] != COLON && name[i] != SLASH {
      NameIsClean(server, email, i);
    }
    assert name[n] == COLON;
    assert FirstColon(name) == n;
    assert name[..n] == Encode(server);
    assert name[n + 1..|name| - |JSON|] == Encode(email);
  }

  /** Distinct accounts never share a cache file. */
  lemma FileNamesAreDistinct(s: seq<byte>, e: seq<byte>, s': seq<byte>, e': seq<byte>)
    ensures DbFileName(s, e) == DbFileName(s', e') <==> s == s' && e == e'
  {
    FileNameIsDecodable(s, e);
    FileNameIsDecodable(s', e');
  }
}
