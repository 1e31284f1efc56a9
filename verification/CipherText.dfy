/** The printed form of cipher strings (`CipherString::new` and `Display` in
    `cipherstring.rs`): a type digit, a dot, and base64 fields separated by bars. */
module CipherText {
  import opened Prelude
  import opened Strings
  import opened Bytes
  import opened Cipher
  import Base64

  function DecodeField(s: string): Result<seq<byte>, Error> {
    var b := Base64.Decode(s);
    if b.None? then Err(InvalidBase64) else Ok(b.value)
  }

  function Parse(s: string): Result<CipherString, Error> {
    var parts := Split(s, '.');
    if |parts| != 2 then Err(InvalidCipherString)
    else if |parts[0]| != 1 || !('0' <= parts[0][0] <= '9') then Err(UnimplementedType)
    else
      var ty := parts[0][0] as int - '0' as int;
      var fields := Split(parts[1], '|');
      if ty == 2 then
        if |fields| != 3 then Err(InvalidCipherString)
        else
          var iv := DecodeField(fields[0]);
          if iv.Err? then Err(iv.error) else
          var ciphertext := DecodeField(fields[1]);
          if ciphertext.Err? then Err(ciphertext.error) else
          var mac := DecodeField(fields[2]);
          if mac.Err? then Err(mac.error) else Ok(Symmetric(iv.value, ciphertext.value, Some(mac.value)))
      else if ty == 4 || ty == 6 then
        var ciphertext := DecodeField(fields[0]);
        if ciphertext.Err? then Err(ciphertext.error) else Ok(Asymmetric(ciphertext.value))
      else if ty < 6 then Err(TooOldType)
      else Err(UnimplementedType)
  }

  function Print(v: CipherString): string {
    match v
    case Symmetric(iv, ciphertext, None) =>
      "2." + Base64.Encode(iv) + "|" + Base64.Encode(ciphertext)
    case Symmetric(iv, ciphertext, Some(mac)) =>
      "2." + Base64.Encode(iv) + "|" + Base64.Encode(ciphertext) + "|" + Base64.Encode(mac)
    case Asymmetric(ciphertext) =>
      "4." + Base64.Encode(ciphertext)
  }

  lemma FieldText(b: seq<byte>)
    ensures '.' !in Base64.Encode(b) && '|' !in Base64.Encode(b)
    ensures DecodeField(Base64.Encode(b)) == Ok(b)
    ensures Split(Base64.Encode(b), '|') == [Base64.Encode(b)]
  {
    Base64.EncodingHasNo(b, '.');
    Base64.EncodingHasNo(b, '|');
    Base64.DecodesExactlyEncodings(Base64.Encode(b), b);
    SplitWithout(Base64.Encode(b), '|');
  }

  lemma SplitTyped(ty: char, contents: string)
    requires ty != '.' && '.' !in contents
    ensures Split([ty] + "." + contents, '.') == [[ty], contents]
  {
    SplitAt([ty], contents, '.');
    SplitWithout([ty], '.');
    SplitWithout(contents, '.');
  }

  lemma FieldsOfThree(a: string, b: string, c: string)
    requires '|' !in a && '|' !in b && '|' !in c
    ensures Split(a + "|" + (b + "|" + c), '|') == [a, b, c]
  {
    SplitAt(a, b + "|" + c, '|');
    SplitAt(b, c, '|');
    SplitWithout(a, '|');
    SplitWithout(b, '|');
    SplitWithout(c, '|');
  }

  /** The text of a type 2 cipher string with the given fields. */
  function Typed(iv: string, ct: string, mac: string): string {
    "2." + iv + "|" + ct + "|" + mac
  }

  lemma SplitOfTyped(iv: string, ct: string, mac: string)
    requires forall c :: c in iv || c in ct || c in mac ==> c != '.' && c != '|'
    ensures Split(Typed(iv, ct, mac), '.') == ["2", iv + "|" + (ct + "|" + mac)]
    ensures Split(iv + "|" + (ct + "|" + mac), '|') == [iv, ct, mac]
  {
    var contents := iv + "|" + (ct + "|" + mac);
    assert Typed(iv, ct, mac) == ['2'] + "." + contents;
    SplitTyped('2', contents);
    FieldsOfThree(iv, ct, mac);
  }

  /** Parsing the printed form gives the value back, except for a symmetric value without a
      MAC, which prints but is refused by the parser. */
  lemma ParsePrint(v: CipherString)
    ensures Parse(Print(v)) == Ok(v) <==> !(v.Symmetric? && v.mac.None?)
  {
    FieldText(v.ciphertext);
    if v.Asymmetric? {
      SplitTyped('4', Base64.Encode(v.ciphertext));
      assert Print(v) == ['4'] + "." + Base64.Encode(v.ciphertext);
    } else if v.mac.Some? {
      FieldText(v.iv);
      FieldText(v.mac.value);
      SplitOfTyped(Base64.Encode(v.iv), Base64.Encode(v.ciphertext), Base64.Encode(v.mac.value));
      assert Print(v) == Typed(Base64.Encode(v.iv), Base64.Encode(v.ciphertext), Base64.Encode(v.mac.value));
    }
  }

  /** Only a string of type 2 parses to a symmetric value, and that one always has a MAC. */
  lemma ParsedParts(s: string)
    requires Parse(s).Ok?
    ensures var parts := Split(s, '.');
            |parts| == 2 && |parts[0]| == 1 && parts[0] == [s[0]] && s == [s[0]] + ("." + parts[1])
    ensures Parse(s).value.Symmetric? <==> s[0] == '2'
    ensures Parse(s).value.Symmetric? ==> Parse(s).value.mac.Some?
  {
    var parts := Split(s, '.');
    JoinSplit(s, '.');
    assert Join(parts, '.') == parts[0] + ['.'] + Join(parts[1..], '.');
  }

  lemma JoinThree(a: string, b: string, c: string)
    ensures "2." + Join([a, b, c], '|') == Typed(a, b, c)
  {
    JoinConcat([a], [b, c], '|');
    JoinConcat([b], [c], '|');
    assert [a, b, c] == [a] + [b, c] && [b, c] == [b] + [c];
  }

  lemma PrintParseSymmetric(s: string)
    requires Parse(s).Ok? && s[0] == '2'
    ensures Print(Parse(s).value) == s
  {
    ParsedParts(s);
    var v := Parse(s).value;
    var contents := Split(s, '.')[1];
    var fields := Split(contents, '|');
    Base64.DecodesExactlyEncodings(fields[0], v.iv);
    Base64.DecodesExactlyEncodings(fields[1], v.ciphertext);
    Base64.DecodesExactlyEncodings(fields[2], v.mac.value);
    JoinSplit(contents, '|');
    assert fields == [fields[0], fields[1], fields[2]];
    JoinThree(fields[0], fields[1], fields[2]);
    assert Print(v) == Typed(fields[0], fields[1], fields[2]);
  }

  lemma PrintParseAsymmetric(s: string)
    requires Parse(s).Ok? && s[0] != '2'
    ensures Print(Parse(s).value) == s <==> s[0] == '4' && '|' !in s
  {
    ParsedParts(s);
    var v := Parse(s).value;
    var contents := Split(s, '.')[1];
    Base64.DecodesExactlyEncodings(Split(contents, '|')[0], v.ciphertext);
    FieldText(v.ciphertext);
    assert Print(v)[0] == '4' && '|' !in Print(v);
    if '|' !in s {
      SplitWithout(contents, '|');
    }
  }

  /** Printing an accepted string gives exactly that string when it is of type 2, or of type 4
      without a bar; the parser also accepts type 6 and text after a bar, which are not printed. */
  lemma PrintParse(s: string)
    requires Parse(s).Ok?
    ensures Print(Parse(s).value) == s <==> s[0] == '2' || (s[0] == '4' && '|' !in s)
  {
    ParsedParts(s);
    if s[0] == '2' {
      PrintParseSymmetric(s);
    } else {
      PrintParseAsymmetric(s);
    }
  }

  /** What follows the payload of a type 4 or 6 string: nothing, or a bar and anything but dots. */
  predicate Tail(s: string) {
    (s == "" || s[0] == '|') && '.' !in s
  }

  lemma ParsesAsymmetric(ty: char, ciphertext: seq<byte>, tail: string)
    requires (ty == '4' || ty == '6') && Tail(tail)
    ensures Parse([ty] + "." + (Base64.Encode(ciphertext) + tail)) == Ok(Asymmetric(ciphertext))
  {
    var payload := Base64.Encode(ciphertext);
    FieldText(ciphertext);
    SplitTyped(ty, payload + tail);
    if tail == "" {
      assert payload + tail == payload;
    } else {
      assert payload + tail == payload + ['|'] + tail[1..];
      SplitAt(payload, tail[1..], '|');
    }
  }

  lemma FirstField(contents: string) returns (tail: string)
    requires '.' !in contents
    ensures contents == Split(contents, '|')[0] + tail && Tail(tail)
  {
    var fields := Split(contents, '|');
    JoinSplit(contents, '|');
    tail := if |fields| == 1 then "" else "|" + Join(fields[1..], '|');
    hide Split;
    assert contents == fields[0] + tail;
    forall c | c in tail ensures c in contents {
    }
  }

  lemma AsymmetricText(s: string) returns (tail: string)
    requires Parse(s).Ok? && s[0] != '2'
    ensures (s[0] == '4' || s[0] == '6') && Parse(s).value.Asymmetric? && Tail(tail)
    ensures s == [s[0]] + "." + (Base64.Encode(Parse(s).value.ciphertext) + tail)
  {
    ParsedParts(s);
    PiecesHaveNo(s, '.');
    var contents := Split(s, '.')[1];
    tail := FirstField(contents);
    Base64.DecodesExactlyEncodings(Split(contents, '|')[0], Parse(s).value.ciphertext);
    hide Split, Base64.Decode, Base64.Encode;
  }

  lemma {:induction false} PiecesHaveNo(s: string, sep: char)
    ensures forall piece :: piece in Split(s, sep) ==> sep !in piece
  {
    if s != "" {
      PiecesHaveNo(s[1..], sep);
    }
  }

  /** Which texts stand for a value: symmetric ones have three fields; asymmetric ones are of type 4
      or 6, and text after a bar is passed over. */
  lemma ParsesExactly(s: string, v: CipherString)
    ensures Parse(s) == Ok(v) <==>
              match v
              case Symmetric(_, _, None) => false
              case Symmetric(iv, ciphertext, Some(mac)) =>
                s == "2." + Base64.Encode(iv) + "|" + Base64.Encode(ciphertext) + "|" + Base64.Encode(mac)
              case Asymmetric(ciphertext) =>
                exists ty, tail :: (ty == '4' || ty == '6') && Tail(tail)
                                   && s == [ty] + "." + (Base64.Encode(ciphertext) + tail)
  {
    if Parse(s) == Ok(v) {
      ParsedParts(s);
      PrintParse(s);
      if v.Asymmetric? {
        var tail := AsymmetricText(s);
      }
    }
    if v.Symmetric? && v.mac.Some? {
      ParsePrint(v);
    }
    if v.Asymmetric? {
      forall ty, tail | (ty == '4' || ty == '6') && Tail(tail)
        ensures Parse([ty] + "." + (Base64.Encode(v.ciphertext) + tail)) == Ok(v)
      {
        ParsesAsymmetric(ty, v.ciphertext, tail);
      }
    }
    hide Parse, Base64.Encode, Tail;
  }

  /** A symmetric value prints without its MAC as the text that lacks only the MAC. */
  lemma PrintsUpToTheMac(iv: seq<byte>, ciphertext: seq<byte>, mac: seq<byte>)
    ensures Print(Symmetric(iv, ciphertext, None)) + "|" + Base64.Encode(mac)
            == Print(Symmetric(iv, ciphertext, Some(mac)))
    ensures Parse(Print(Symmetric(iv, ciphertext, None)) + "|" + Base64.Encode(mac))
            == Ok(Symmetric(iv, ciphertext, Some(mac)))
  {
    ParsePrint(Symmetric(iv, ciphertext, Some(mac)));
    hide Parse, Base64.Encode;
  }

  /** Which error a text of a known form gets, by its type digit. */
  lemma TypesAreRefused(ty: char, contents: string)
    requires ty != '.' && '.' !in contents
    ensures Parse([ty] + "." + contents) == Err(TooOldType) <==> ty in "0135"
    ensures Parse([ty] + "." + contents) == Err(UnimplementedType) <==> ty !in "0123456"
    ensures ty == '2' && |Split(contents, '|')| != 3 ==> Parse([ty] + "." + contents) == Err(InvalidCipherString)
    ensures ty == '2' && |Split(contents, '|')| == 3 && Parse([ty] + "." + contents).Err? ==>
              Parse([ty] + "." + contents) == Err(InvalidBase64)
    ensures (ty == '4' || ty == '6') && Parse([ty] + "." + contents).Err? ==>
              Parse([ty] + "." + contents) == Err(InvalidBase64)
  {
    SplitTyped(ty, contents);
    hide Base64.Decode, Split;
  }

  /** A text without a single dot has no type, and a type is one digit. */
  lemma FormsAreRefused(s: string)
    ensures |Split(s, '.')| != 2 ==> Parse(s) == Err(InvalidCipherString)
    ensures |Split(s, '.')| == 2 && |Split(s, '.')[0]| != 1 ==> Parse(s) == Err(UnimplementedType)
  {
  }
}
