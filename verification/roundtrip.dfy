/** Round trips: what the encoder writes, read back as a token and decoded,
    is what it was given. */
module RoundTrip {
  import opened Wrappers
  import opened Text
  import opened Numbers
  import opened Escapes
  import opened Structure
  import opened Ast
  import opened Decoder
  import opened Encoder
  import opened Scanner
  import opened EncoderProperties

  // ----------------------------------------------------------------- strings

  /** The elements the scanner reads from an escaped string body. */
  function ElemsOf(t: EscapeTable, s: string): seq<StrElem> {
    if |s| == 0 then []
    else [if s[0] in t.inverse then Esc(Named(t.inverse[s[0]])) else Char(s[0])] + ElemsOf(t, s[1..])
  }

  lemma {:induction false} ScanEscapedBody(t: EscapeTable, s: string)
    requires t.Valid()
    ensures ScanElems(EscapeChars(t, s) + "\"") == Some(ElemsOf(t, s))
  {
    if |s| == 0 {
      assert EscapeChars(t, s) + "\"" == "\"";
    } else {
      var rest := EscapeChars(t, s[1..]) + "\"";
      ScanEscapedBody(t, s[1..]);
      if s[0] in t.inverse {
        var x := t.inverse[s[0]];
        assert x in t.named;
        var w := "\\" + [x] + rest;
        assert EscapeChars(t, s) + "\"" == w;
        assert w[0] == '\\' && w[1] == x && x != 'u';
        assert w[2..] == rest;
      } else {
        assert s[0] != '"' && s[0] != '\\';
        var w := [s[0]] + rest;
        assert EscapeChars(t, s) + "\"" == w;
        assert w[1..] == rest;
      }
    }
  }

  lemma {:induction false} DecodeEscapedBody(t: EscapeTable, s: string)
    requires t.Valid()
    ensures ParseElems(t, ElemsOf(t, s)) == Success(s)
  {
    if |s| > 0 {
      DecodeEscapedBody(t, s[1..]);
      var elems := ElemsOf(t, s);
      assert elems[1..] == ElemsOf(t, s[1..]);
      assert ElemChar(t, elems[0]) == Success(s[0]) by {
        if s[0] in t.inverse {
          assert elems[0] == Esc(Named(t.inverse[s[0]]));
        } else {
          assert elems[0] == Char(s[0]);
        }
      }
      assert ParseElems(t, elems) == Success([s[0]] + s[1..]);
      assert [s[0]] + s[1..] == s;
    }
  }

  lemma RawRoundTrip(s: string)
    requires UsesRawForm(s)
    ensures ScanString("r#\"" + s + "\"#") == Some(RawString(s))
  {
    var text := "r#\"" + s + "\"#";
    assert CountHashes(text, 2) == 0;
    assert CountHashes(text, 1) == 1;
    assert Repeat("#", 1) == "#";
    var close := "\"#";
    assert "\"" + Repeat("#", 1) == close;
    assert text[|text| - 2..] == close;
    assert OccursAt(text, close, |text| - 2);
    forall i | 3 <= i < |text| - 2
      ensures !OccursAt(text, close, i)
    {
      assert text[i] == s[i - 3];
      assert s[i - 3] in s;
    }
    assert text[3..|text| - 2] == s;
    assert text[0] == 'r' && text[2] == '"';
    assert ScanRaw(text) == Some(RawString(s));
  }

  /** `format_string` then `parse_string` is the identity, whichever of the
      two forms the encoder chose. */
  lemma StringRoundTrip(t: EscapeTable, s: string)
    requires t.Valid()
    ensures ScanString(FormatString(t, s)).Some?
    ensures ParseString(t, ScanString(FormatString(t, s)).value) == Success(s)
  {
    if UsesRawForm(s) {
      RawRoundTrip(s);
    } else {
      var body := EscapeChars(t, s);
      ScanEscapedBody(t, s);
      DecodeEscapedBody(t, s);
      var text := "\"" + body + "\"";
      assert text[1..] == body + "\"";
    }
  }

  // ------------------------------------------------------------- identifiers

  /** No string token is a KDL bare identifier: those hold no quote. */
  lemma BareIsNoString(s: string)
    requires IsKdlIdentifier(s)
    ensures ScanString(s).None?
  {
    assert s[0] != '"';
    if s[0] == 'r' {
      var n := CountHashes(s, 1);
      if 1 + n < |s| {
        assert IsKdlIdentChar(s[1 + n]);
      }
    }
  }

  /** The corrected `format_identifier` then `parse_identifier` is the
      identity on every string. */
  lemma IdentifierRoundTrip(t: EscapeTable, s: string)
    requires t.Valid()
    ensures ScanIdent(FormatIdentifier(t, s)).Some?
    ensures ParseIdentifier(t, ScanIdent(FormatIdentifier(t, s)).value) == Success(s)
  {
    if ReadsBackBare(s) {
      BareIsNoString(s);
    } else {
      StringRoundTrip(t, s);
    }
  }

  /** The as-written identifier `a` plus newline is not read back at all. */
  lemma TrailingNewlineNotReadBack(t: EscapeTable)
    ensures ScanIdent(FormatIdentifierAsWritten(t, "a\n")).None?
  {
    TrailingNewlineLeftBare(t);
    assert !IsKdlIdentChar('\n');
    assert ScanString("a\n").None?;
  }

  /** `format_identifier("-1")` as written leaves the name bare, and the
      text reads back as the number -1, not as an identifier. */
  lemma SignedDigitNotReadBack(t: EscapeTable)
    ensures FormatIdentifierAsWritten(t, "-1") == "-1"
    ensures ScanIdent("-1").None?
    ensures ScanLiteral("-1") == Some(DecimalLit("-1"))
    ensures FormatIdentifier(t, "-1") == FormatString(t, "-1")
  {
    assert IsBareIdentifier("-1") by {
      assert IsIdentifierStart('-') && IsIdentifierChar('1');
    }
    assert ScanString("-1").None?;
    assert DigitsFrom("-1", 1) == Some(2);
  }

  /** `format_identifier("(a")` as written leaves the name bare, and the
      text does not read back as an identifier: `(` opens a type
      annotation in KDL. */
  lemma ParenthesisNotReadBack(t: EscapeTable)
    ensures FormatIdentifierAsWritten(t, "(a") == "(a"
    ensures ScanIdent("(a").None?
    ensures FormatIdentifier(t, "(a") == FormatString(t, "(a")
  {
    assert IsBareIdentifier("(a") by {
      assert IsIdentifierStart('(') && IsIdentifierChar('a');
    }
    assert !IsKdlIdentChar('(');
    assert ScanString("(a").None?;
  }

  // ------------------------------------------------------------------ values

  /** The encoder and decoder configurations the round trip runs under:
      the extended value encoder, any indent, and the default factories,
      over one escape table. */
  function EncoderWith(t: EscapeTable, indent: IndentArg): EncoderConfig {
    MakeEncoderConfig(indent, None, t)
  }

  lemma EncoderWithRendering(t: EscapeTable, indent: IndentArg, v: Value)
    ensures EncoderWith(t, indent).valueEncoder(v, IdentFormatterOf(EncoderWith(t, indent))) == Rendering(v)
  {
    EncoderTables(v, IdentFormatterOf(EncoderWith(t, indent)));
  }

  /** A float's text the encoder can write and the decoder reads back as a
      float: a KDL decimal with a fraction or an exponent and no underscore. */
  predicate IsPlainFloatText(repr: string) {
    IsKdlDecimal(repr) && '_' !in repr && IsFloatText(repr)
  }

  /** The values that survive a round trip: everything but other objects,
      floats only with a plain decimal text. */
  predicate RoundTrips(v: Value) {
    !v.Opaque? && (v.Float? ==> IsPlainFloatText(v.repr))
  }

  lemma {:induction false} RunEndOverDigits(s: string, i: nat)
    requires i <= |s|
    requires forall k :: i <= k < |s| ==> IsDecimalDigit(s[k])
    ensures RunEnd(s, i) == |s|
    decreases |s| - i
  {
    if i < |s| {
      RunEndOverDigits(s, i + 1);
    }
  }

  lemma IntTextIsDecimal(i: int)
    ensures IsKdlDecimal(IntToDecimal(i))
    ensures IntToDecimal(i) != "true" && IntToDecimal(i) != "false" && IntToDecimal(i) != "null"
    ensures IntToDecimal(i)[0] != '('
  {
    var s := IntToDecimal(i);
    IntToDecimalShape(i);
    var i0 := if i < 0 then 1 else 0;
    RunEndOverDigits(s, i0 + 1);
    assert DigitsFrom(s, i0) == Some(|s|);
  }

  lemma IntTextPlain(i: int)
    ensures '_' !in IntToDecimal(i)
    ensures !IsFloatText(IntToDecimal(i))
  {
    var s := IntToDecimal(i);
    IntToDecimalShape(i);
    forall k | 0 <= k < |s| ensures s[k] != '_' && s[k] !in ".eE" {
      if k > 0 || i >= 0 {
        assert IsDecimalDigit(s[k]);
      }
    }
  }

  lemma IntDecodes(t: EscapeTable, i: int)
    ensures DecodeValue(DefaultDecoderConfig(t), ValueAst(None, DecimalLit(IntToDecimal(i)))) == Success(Int(i))
  {
    IntTextPlain(i);
    RemoveUnderscoresIdle(IntToDecimal(i));
    DecimalRoundTrip(i);
  }

  lemma IntRoundTrip(t: EscapeTable, indent: IndentArg, i: int)
    ensures FormatValue(EncoderWith(t, indent), Int(i)) == Success(IntToDecimal(i))
    ensures ScanValue(IntToDecimal(i)) == Some(ValueAst(None, DecimalLit(IntToDecimal(i))))
    ensures DecodeValue(DefaultDecoderConfig(t), ValueAst(None, DecimalLit(IntToDecimal(i)))) == Success(Int(i))
  {
    EncoderWithRendering(t, indent, Int(i));
    IntTextIsDecimal(i);
    IntDecodes(t, i);
  }

  lemma FloatTokenIsDecimal(repr: string)
    requires IsPlainFloatText(repr)
    ensures ScanValue(repr) == Some(ValueAst(None, DecimalLit(repr)))
  {
    assert DigitsFrom(repr, if |repr| > 0 && (repr[0] == '+' || repr[0] == '-') then 1 else 0).Some?;
    assert repr[0] != '(';
    assert repr != "true" && repr != "false" && repr != "null" by {
      assert !IsKdlDecimal("true") && !IsKdlDecimal("false") && !IsKdlDecimal("null");
    }
  }

  lemma FloatDecodes(t: EscapeTable, repr: string)
    requires IsPlainFloatText(repr)
    ensures DecodeValue(DefaultDecoderConfig(t), ValueAst(None, DecimalLit(repr))) == Success(Float(repr))
  {
    var cfg := DefaultDecoderConfig(t);
    RemoveUnderscoresIdle(repr);
    assert Prepare(cfg.escapes, DecimalLit(repr)) == Success(Dispatch(FloatKind, repr, repr));
    assert Ask(cfg, FloatKind, None, repr) == Converted(Float(repr));
  }

  lemma FloatRoundTrip(t: EscapeTable, indent: IndentArg, repr: string)
    requires IsPlainFloatText(repr)
    ensures FormatValue(EncoderWith(t, indent), Float(repr)) == Success(repr)
    ensures ScanValue(repr) == Some(ValueAst(None, DecimalLit(repr)))
    ensures DecodeValue(DefaultDecoderConfig(t), ValueAst(None, DecimalLit(repr))) == Success(Float(repr))
  {
    EncoderWithRendering(t, indent, Float(repr));
    FloatTokenIsDecimal(repr);
    FloatDecodes(t, repr);
  }

  /** What the encoder writes for a string is a string literal. */
  lemma StringTokenIsLiteral(t: EscapeTable, s: string)
    requires t.Valid()
    ensures ScanString(FormatString(t, s)).Some?
    ensures ScanLiteral(FormatString(t, s)) == Some(StringLit(ScanString(FormatString(t, s)).value))
  {
    var text := FormatString(t, s);
    StringRoundTrip(t, s);
    assert text[0] == 'r' || text[0] == '"';
    assert !IsKdlDecimal(text) by {
      assert DigitsFrom(text, 0).None?;
    }
    assert !IsRadixText(text, 'x', 16) && !IsRadixText(text, 'o', 8) && !IsRadixText(text, 'b', 2);
  }

  lemma StrScanned(t: EscapeTable, s: string)
    requires t.Valid()
    ensures ScanString(FormatString(t, s)).Some?
    ensures ScanValue(FormatString(t, s)) == Some(ValueAst(None, StringLit(ScanString(FormatString(t, s)).value)))
  {
    StringTokenIsLiteral(t, s);
    var text := FormatString(t, s);
    assert text[0] != '(';
  }

  lemma StrDecoded(t: EscapeTable, s: string, a: StringAst)
    requires ParseString(t, a) == Success(s)
    ensures DecodeValue(DefaultDecoderConfig(t), ValueAst(None, StringLit(a))) == Success(Str(s))
  {
  }

  lemma StrRoundTrip(t: EscapeTable, indent: IndentArg, s: string)
    requires t.Valid()
    ensures FormatValue(EncoderWith(t, indent), Str(s)) == Success(FormatString(t, s))
    ensures ScanValue(FormatString(t, s)).Some?
    ensures DecodeValue(DefaultDecoderConfig(t), ScanValue(FormatString(t, s)).value) == Success(Str(s))
  {
    EncoderWithRendering(t, indent, Str(s));
    StrScanned(t, s);
    StringRoundTrip(t, s);
    StrDecoded(t, s, ScanString(FormatString(t, s)).value);
  }

  /** Tag words are KDL identifiers and close no annotation. */
  lemma TagWordShape(s: string)
    requires IsTagWord(s) && !IsKeyword(s)
    ensures forall j :: 0 <= j < |s| ==> s[j] != ')'
    ensures IsKdlIdentifier(s)
  {
    assert forall j :: 0 <= j < |s| ==> IsKdlIdentChar(s[j]);
  }

  lemma ExtTagShape(k: ExtKind)
    ensures forall j :: 0 <= j < |ExtTag(k)| ==> ExtTag(k)[j] != ')'
    ensures IsKdlIdentifier(ExtTag(k))
  {
    ExtTagsReadBack(k);
    TagWordShape(ExtTag(k));
  }

  lemma ExtTokenShape(t: EscapeTable, k: ExtKind, p: string)
    requires t.Valid()
    ensures var tag := ExtTag(k);
      var text := "(" + tag + ")" + FormatString(t, p);
      && IndexOf(text, ')', 1) == Some(|tag| + 1)
      && text[1..|tag| + 1] == tag
      && text[|tag| + 2..] == FormatString(t, p)
  {
    var tag := ExtTag(k);
    ExtTagShape(k);
    var text := "(" + tag + ")" + FormatString(t, p);
    assert text[|tag| + 1] == ')';
    forall j | 1 <= j < |tag| + 1 ensures text[j] != ')' {
      assert text[j] == tag[j - 1];
    }
    IndexOfFirst(text, ')', 1, |tag| + 1);
  }

  lemma IndexOfFirst(s: string, c: char, from: nat, j: nat)
    requires from <= j < |s| && s[j] == c
    requires forall i :: from <= i < j ==> s[i] != c
    ensures IndexOf(s, c, from) == Some(j)
  {
  }

  lemma ExtFormatted(t: EscapeTable, indent: IndentArg, k: ExtKind, p: string)
    ensures FormatValue(EncoderWith(t, indent), Ext(k, p)) == Success("(" + ExtTag(k) + ")" + FormatString(t, p))
  {
    EncoderWithRendering(t, indent, Ext(k, p));
    ExtTagsReadBack(k);
  }

  lemma ExtScanned(t: EscapeTable, k: ExtKind, p: string)
    requires t.Valid()
    ensures ScanString(FormatString(t, p)).Some?
    ensures ScanValue("(" + ExtTag(k) + ")" + FormatString(t, p))
      == Some(ValueAst(Some(Bare(ExtTag(k))), StringLit(ScanString(FormatString(t, p)).value)))
  {
    var tag := ExtTag(k);
    ExtTagShape(k);
    ExtTokenShape(t, k, p);
    BareIsNoString(tag);
    StringTokenIsLiteral(t, p);
  }

  lemma ExtDecoded(t: EscapeTable, k: ExtKind, p: string, a: StringAst)
    requires ParseString(t, a) == Success(p)
    ensures DecodeValue(DefaultDecoderConfig(t), ValueAst(Some(Bare(ExtTag(k))), StringLit(a))) == Success(Ext(k, p))
  {
    ExtTagsReadBack(k);
  }

  lemma ExtRoundTrip(t: EscapeTable, indent: IndentArg, k: ExtKind, p: string)
    requires t.Valid()
    ensures FormatValue(EncoderWith(t, indent), Ext(k, p)) == Success("(" + ExtTag(k) + ")" + FormatString(t, p))
    ensures ScanValue("(" + ExtTag(k) + ")" + FormatString(t, p)).Some?
    ensures DecodeValue(DefaultDecoderConfig(t), ScanValue("(" + ExtTag(k) + ")" + FormatString(t, p)).value)
      == Success(Ext(k, p))
  {
    ExtFormatted(t, indent, k, p);
    ExtScanned(t, k, p);
    StringRoundTrip(t, p);
    ExtDecoded(t, k, p, ScanString(FormatString(t, p)).value);
  }

  /** Every value the extended encoder knows (floats with a plain decimal
      text) is written as one token that the default decoder turns back
      into the same value. */
  lemma ValueRoundTrip(t: EscapeTable, indent: IndentArg, v: Value)
    requires t.Valid() && RoundTrips(v)
    ensures FormatValue(EncoderWith(t, indent), v).Success?
    ensures ScanValue(FormatValue(EncoderWith(t, indent), v).value).Some?
    ensures DecodeValue(DefaultDecoderConfig(t), ScanValue(FormatValue(EncoderWith(t, indent), v).value).value)
      == Success(v)
  {
    EncoderWithRendering(t, indent, v);
    match v
    case Null =>
    case Bool(b) =>
    case Int(i) => IntRoundTrip(t, indent, i);
    case Float(repr) => FloatRoundTrip(t, indent, repr);
    case Str(s) => StrRoundTrip(t, indent, s);
    case Ext(k, p) => ExtRoundTrip(t, indent, k, p);
  }

  /** Objects no encoder knows are refused with their class name. */
  lemma OtherObjectsRefused(t: EscapeTable, indent: IndentArg, name: string, p: string)
    ensures FormatValue(EncoderWith(t, indent), Opaque(name, p)) == Failure(NotSerializable(name))
    ensures EncodeMessage(NotSerializable(name)) == "Object of type " + name + " is not KDL serializable"
  {
    var cfg := EncoderWith(t, indent);
    assert cfg.escapes == t;
    EncoderWithRendering(t, indent, Opaque(name, p));
    assert cfg.valueEncoder(Opaque(name, p), IdentFormatterOf(cfg)).None?;
    assert ClassName(ClassOf(Opaque(name, p))) == name;
  }
}
