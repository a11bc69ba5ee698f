/** Properties of the decoder: literal sanitising, dispatch and fallback,
    argument/property collection and node suppression. */
module DecoderProperties {
  import opened Wrappers
  import opened Text
  import opened Numbers
  import opened Escapes
  import opened Structure
  import opened Ast
  import opened Decoder

  // ---------------------------------------------------------------- literals

  /** A radix literal `[sign]0<marker><digits>` loses every underscore and
      its two prefix characters, and keeps its sign in front of the digits. */
  lemma SanitisedRadixKeepsSign(sign: string, marker: char, digits: string)
    requires sign == "" || sign == "+" || sign == "-"
    requires marker == 'x' || marker == 'o' || marker == 'b'
    ensures StripRadixPrefix(RemoveUnderscores(sign + "0" + [marker] + digits))
      == Success(sign + RemoveUnderscores(digits))
  {
    var prefix := sign + "0" + [marker];
    RemoveUnderscoresAppend(prefix, digits);
    RemoveUnderscoresIdle(prefix);
    var raw := prefix + RemoveUnderscores(digits);
    assert RemoveUnderscores(sign + "0" + [marker] + digits) == raw;
    if sign == "" {
      assert raw[0] == '0';
      assert Drop(raw, 2) == RemoveUnderscores(digits);
      assert sign + RemoveUnderscores(digits) == RemoveUnderscores(digits);
    } else {
      assert raw[0] == sign[0] && raw[0] != '0';
      assert raw[3..] == RemoveUnderscores(digits);
      assert [raw[0]] == sign;
    }
  }

  /** With the default factories an unannotated radix literal decodes to
      the integer its sanitised text denotes. */
  lemma DefaultRadix(t: EscapeTable, lit: Literal, text: string, base: nat, s: string, v: int)
    requires (lit == Hex(text) && base == 16) || (lit == Octal(text) && base == 8)
          || (lit == Binary(text) && base == 2)
    requires StripRadixPrefix(RemoveUnderscores(text)) == Success(s)
    requires ParseInt(s, base) == Some(v)
    ensures DecodeValue(DefaultDecoderConfig(t), ValueAst(None, lit)) == Success(Int(v))
  {
  }

  lemma BinaryDigits()
    ensures DigitsValue("1010", 2) == Some(10)
    ensures ParseInt("1010", 2) == Some(10)
  {
    assert DigitsValue("1", 2) == Some(1) by { assert "1"[..0] == ""; }
    assert DigitsValue("10", 2) == Some(2) by { assert "10"[..1] == "1"; }
    assert DigitsValue("101", 2) == Some(5) by { assert "101"[..2] == "10"; }
    assert "1010"[..3] == "101";
  }

  lemma OctalDigits()
    ensures DigitsValue("1237", 8) == Some(671)
    ensures ParseInt("1237", 8) == Some(671)
  {
    assert DigitsValue("1", 8) == Some(1) by { assert "1"[..0] == ""; }
    assert DigitsValue("12", 8) == Some(10) by { assert "12"[..1] == "1"; }
    assert DigitsValue("123", 8) == Some(83) by { assert "123"[..2] == "12"; }
    assert "1237"[..3] == "123";
  }

  lemma HexDigitsLow()
    ensures DigitsValue("dead", 16) == Some(57005)
  {
    assert DigitsValue("d", 16) == Some(13) by { assert "d"[..0] == ""; }
    assert DigitsValue("de", 16) == Some(222) by { assert "de"[..1] == "d"; }
    assert DigitsValue("dea", 16) == Some(3562) by { assert "dea"[..2] == "de"; }
    assert "dead"[..3] == "dea";
  }

  lemma HexDigits()
    ensures DigitsValue("deadbeef", 16) == Some(3735928559)
    ensures ParseInt("deadbeef", 16) == Some(3735928559)
  {
    HexDigitsLow();
    assert DigitsValue("deadb", 16) == Some(912091) by { assert "deadb"[..4] == "dead"; }
    assert DigitsValue("deadbe", 16) == Some(14593470) by { assert "deadbe"[..5] == "deadb"; }
    assert DigitsValue("deadbee", 16) == Some(233495534) by { assert "deadbee"[..6] == "deadbe"; }
    assert "deadbeef"[..7] == "deadbee";
  }

  /** Underscores between two runs of digits vanish. */
  lemma RemoveOneUnderscore(front: string, back: string)
    requires '_' !in front && '_' !in back
    ensures RemoveUnderscores(front + "_" + back) == front + back
  {
    var a := front + "_";
    assert RemoveUnderscores(a) == front by {
      RemoveUnderscoresAppend(front, "_");
      RemoveUnderscoresIdle(front);
      assert RemoveUnderscores("_") == "" by { assert "_"[1..] == ""; }
      assert front + "" == front;
    }
    RemoveUnderscoresAppend(a, back);
    RemoveUnderscoresIdle(back);
  }

  /** `0b1_010` is 10. */
  lemma BinaryExample(t: EscapeTable)
    ensures DecodeValue(DefaultDecoderConfig(t), ValueAst(None, Binary("0b1_010"))) == Success(Int(10))
  {
    assert StripRadixPrefix(RemoveUnderscores("0b1_010")) == Success("1010") by {
      RemoveOneUnderscore("0b1", "010");
      assert "0b1" + "_" + "010" == "0b1_010";
      assert "0b1" + "010" == "0b1010";
      assert "0b1010"[2..] == "1010";
    }
    BinaryDigits();
    DefaultRadix(t, Binary("0b1_010"), "0b1_010", 2, "1010", 10);
  }

  /** `0o12_37` is 671. */
  lemma OctalExample(t: EscapeTable)
    ensures DecodeValue(DefaultDecoderConfig(t), ValueAst(None, Octal("0o12_37"))) == Success(Int(671))
  {
    assert StripRadixPrefix(RemoveUnderscores("0o12_37")) == Success("1237") by {
      RemoveOneUnderscore("0o12", "37");
      assert "0o12" + "_" + "37" == "0o12_37";
      assert "0o12" + "37" == "0o1237";
      assert "0o1237"[2..] == "1237";
    }
    OctalDigits();
    DefaultRadix(t, Octal("0o12_37"), "0o12_37", 8, "1237", 671);
  }

  /** `0xdead_beef` is 3735928559. */
  lemma HexExample(t: EscapeTable)
    ensures DecodeValue(DefaultDecoderConfig(t), ValueAst(None, Hex("0xdead_beef"))) == Success(Int(3735928559))
  {
    assert StripRadixPrefix(RemoveUnderscores("0xdead_beef")) == Success("deadbeef") by {
      RemoveOneUnderscore("0xdead", "beef");
      assert "0xdead" + "_" + "beef" == "0xdead_beef";
      assert "0xdead" + "beef" == "0xdeadbeef";
      assert "0xdeadbeef"[2..] == "deadbeef";
    }
    HexDigits();
    DefaultRadix(t, Hex("0xdead_beef"), "0xdead_beef", 16, "deadbeef", 3735928559);
  }

  /** The rule of `parse_value` for every literal that is not a keyword:
      a factory's value is returned as it is, an exception passes through;
      when the factory declines, an unannotated literal (or any literal
      under `ignore_unknown_types`) gets the fallback conversion of its
      sanitised text, and an annotated one is an error naming its raw text. */
  lemma FactoryThenFallbackThenError(cfg: DecoderConfig, ast: ValueAst, valueType: Option<string>, d: Dispatch)
    requires !ast.lit.BooleanLit? && !ast.lit.NullLit?
    requires ParseType(cfg.escapes, ast.valueType) == Success(valueType)
    requires Prepare(cfg.escapes, ast.lit) == Success(d)
    ensures var a := Ask(cfg, d.kind, valueType, d.sanitised);
      && (a.Converted? ==> DecodeValue(cfg, ast) == Success(a.value))
      && (a.Raised? ==> DecodeValue(cfg, ast) == Failure(FactoryError(a.reason)))
      && (a.Declined? && (valueType.None? || cfg.ignoreUnknownTypes) ==>
            DecodeValue(cfg, ast) == Fallback(d.kind, d.sanitised))
      && (a.Declined? && valueType.Some? && !cfg.ignoreUnknownTypes ==>
            DecodeValue(cfg, ast) == Failure(UnresolvedValue(d.raw))
            && Message(DecodeValue(cfg, ast).error) == "Failed to decode value '" + d.raw + "'.")
  {
  }

  /** A decimal literal goes to the float factory exactly when its
      underscore-free text holds `.`, `e` or `E`, and to the int factory
      with base 10 otherwise; with the default factories it becomes that
      float or that int. */
  lemma DecimalSplit(t: EscapeTable, x: string)
    ensures var raw := RemoveUnderscores(x);
      var r := DecodeValue(DefaultDecoderConfig(t), ValueAst(None, DecimalLit(x)));
      && (IsFloatText(raw) ==> r == Success(Float(raw)))
      && (!IsFloatText(raw) && ParseInt(raw, 10).Some? ==> r == Success(Int(ParseInt(raw, 10).value)))
      && (!IsFloatText(raw) && ParseInt(raw, 10).None? ==> r.Failure? && r.error.FactoryError?)
  {
  }

  /** With the default factories, an annotation never changes how a number
      decodes: the int and float factories ignore it. */
  lemma DefaultNumbersIgnoreAnnotation(t: EscapeTable, ty: IdentAst, lit: Literal)
    requires lit.Hex? || lit.Octal? || lit.Binary? || lit.DecimalLit?
    requires ParseIdentifier(t, ty).Success?
    ensures DecodeValue(DefaultDecoderConfig(t), ValueAst(Some(ty), lit))
         == DecodeValue(DefaultDecoderConfig(t), ValueAst(None, lit))
  {
  }

  /** The tags `extended_str_parser` knows are exactly those with a kind,
      `datetime` is another spelling of `date-time`, and `date` stays
      distinct from both. */
  lemma StringTagTable(s: string)
    ensures forall tag :: TagKind(tag).Some? <==> tag in StringTags
    ensures ExtendedStrParser(Some("datetime"), s) == ExtendedStrParser(Some("date-time"), s)
    ensures ExtendedStrParser(Some("date-time"), s) == Converted(Ext(DateTime, s))
    ensures ExtendedStrParser(Some("date"), s) == Converted(Ext(Date, s))
    ensures ExtendedStrParser(Some("base64"), s) == Converted(Ext(Bytes, s))
  {
  }

  /** With the default factories an unannotated string passes through
      unchanged, and the only literal that fails as an unresolved value is
      a string whose annotation the string parser does not know. */
  lemma DefaultStringsAndUnresolved(t: EscapeTable, ast: ValueAst)
    ensures ast.valueType.None? && ast.lit.StringLit? && ParseString(t, ast.lit.str).Success? ==>
      DecodeValue(DefaultDecoderConfig(t), ast) == Success(Str(ParseString(t, ast.lit.str).value))
    ensures var r := DecodeValue(DefaultDecoderConfig(t), ast);
      (r.Failure? && r.error.UnresolvedValue?) <==>
      (&& ast.lit.StringLit?
       && ast.valueType.Some?
       && ParseIdentifier(t, ast.valueType.value).Success?
       && ParseString(t, ast.lit.str).Success?
       && ParseIdentifier(t, ast.valueType.value).value !in StringTags)
  {
  }

  // ------------------------------------------------- arguments and properties

  /** The elements `/-` did not comment out. */
  function Live(elems: seq<ArgOrProp>): seq<ArgOrProp> {
    if |elems| == 0 then []
    else (if elems[0].commented then [] else [elems[0]]) + Live(elems[1..])
  }

  /** The argument values, in source order, of the uncommented elements. */
  function LiveArgs(elems: seq<ArgOrProp>): seq<ValueAst> {
    if |elems| == 0 then []
    else
      (if !elems[0].commented && elems[0].body.ArgBody? then [elems[0].body.value] else [])
      + LiveArgs(elems[1..])
  }

  /** The value of the last uncommented property written with key `k`. */
  function LastPropValue(cfg: DecoderConfig, elems: seq<ArgOrProp>, k: string): Option<Value> {
    if |elems| == 0 then None
    else
      var later := LastPropValue(cfg, elems[1..], k);
      if later.Some? then later
      else if && !elems[0].commented
              && elems[0].body.PropBody?
              && ParseIdentifier(cfg.escapes, elems[0].body.name) == Success(k)
              && DecodeValue(cfg, elems[0].body.value).Success?
      then Some(DecodeValue(cfg, elems[0].body.value).value)
      else None
  }

  /** Commented elements contribute nothing, not even their errors. */
  lemma {:induction false} CollectIgnoresCommented(
    cfg: DecoderConfig, elems: seq<ArgOrProp>, props: Props, args: seq<Value>)
    ensures CollectArgsAndProps(cfg, elems, props, args) == CollectArgsAndProps(cfg, Live(elems), props, args)
  {
    if |elems| > 0 {
      var rest := elems[1..];
      if !elems[0].commented {
        var live := Live(elems);
        assert live == [elems[0]] + Live(rest);
        assert live[0] == elems[0] && live[1..] == Live(rest);
        var step := AddElem(cfg, elems[0].body, props, args);
        if step.Success? {
          CollectIgnoresCommented(cfg, rest, step.value.0, step.value.1);
        }
      } else {
        assert Live(elems) == Live(rest);
        CollectIgnoresCommented(cfg, rest, props, args);
      }
    }
  }

  /** One uncommented element is either an argument or a property: an
      argument is appended and leaves the properties alone, a property
      leaves the arguments alone. */
  lemma AddElemArgs(cfg: DecoderConfig, body: ElemBody, props: Props, args: seq<Value>)
    requires AddElem(cfg, body, props, args).Success?
    ensures body.PropBody? ==> AddElem(cfg, body, props, args).value.1 == args
    ensures body.ArgBody? ==> AddElem(cfg, body, props, args).value.0 == props
    ensures body.ArgBody? ==>
      AddElem(cfg, body, props, args).value.1 == args + [DecodeValue(cfg, body.value).value]
      && DecodeValue(cfg, body.value).Success?
  {
  }

  /** One step of the collection loop on an uncommented element. */
  lemma CollectStep(cfg: DecoderConfig, elems: seq<ArgOrProp>, props: Props, args: seq<Value>)
    requires |elems| > 0 && !elems[0].commented
    requires CollectArgsAndProps(cfg, elems, props, args).Success?
    ensures AddElem(cfg, elems[0].body, props, args).Success?
    ensures var acc := AddElem(cfg, elems[0].body, props, args).value;
      CollectArgsAndProps(cfg, elems, props, args) == CollectArgsAndProps(cfg, elems[1..], acc.0, acc.1)
  {
  }

  lemma {:induction false} CollectArgsInOrder(
    cfg: DecoderConfig, elems: seq<ArgOrProp>, props: Props, args: seq<Value>, p: Props, a: seq<Value>)
    requires CollectArgsAndProps(cfg, elems, props, args) == Success((p, a))
    ensures |a| == |args| + |LiveArgs(elems)| && a[..|args|] == args
    ensures forall i :: 0 <= i < |LiveArgs(elems)| ==> DecodeValue(cfg, LiveArgs(elems)[i]) == Success(a[|args| + i])
  {
    if |elems| == 0 {
      assert a == args;
    } else {
      var rest := elems[1..];
      if elems[0].commented {
        assert LiveArgs(elems) == LiveArgs(rest);
        CollectArgsInOrder(cfg, rest, props, args, p, a);
      } else {
        CollectStep(cfg, elems, props, args);
        var acc := AddElem(cfg, elems[0].body, props, args).value;
        AddElemArgs(cfg, elems[0].body, props, args);
        CollectArgsInOrder(cfg, rest, acc.0, acc.1, p, a);
        if elems[0].body.ArgBody? {
          ArgStepInOrder(cfg, elems[0].body.value, LiveArgs(rest), args, acc.1, a);
          assert LiveArgs(elems) == [elems[0].body.value] + LiveArgs(rest);
        } else {
          assert LiveArgs(elems) == LiveArgs(rest);
        }
      }
    }
  }

  /** The index bookkeeping of one argument step. */
  lemma ArgStepInOrder(cfg: DecoderConfig, value: ValueAst, later: seq<ValueAst>, args: seq<Value>, args1: seq<Value>, a: seq<Value>)
    requires DecodeValue(cfg, value).Success? && args1 == args + [DecodeValue(cfg, value).value]
    requires |a| == |args1| + |later| && a[..|args1|] == args1
    requires forall i :: 0 <= i < |later| ==> DecodeValue(cfg, later[i]) == Success(a[|args1| + i])
    ensures |a| == |args| + |[value] + later| && a[..|args|] == args
    ensures forall i :: 0 <= i < |[value] + later| ==> DecodeValue(cfg, ([value] + later)[i]) == Success(a[|args| + i])
  {
    assert a[..|args|] == (a[..|args1|])[..|args|];
    assert a[|args|] == args1[|args|];
    forall i | 0 <= i < |[value] + later|
      ensures DecodeValue(cfg, ([value] + later)[i]) == Success(a[|args| + i])
    {
      if i > 0 {
        assert ([value] + later)[i] == later[i - 1];
      }
    }
  }

  lemma {:induction false} CollectLastPropWins(
    cfg: DecoderConfig, elems: seq<ArgOrProp>, props: Props, args: seq<Value>, p: Props, a: seq<Value>, k: string)
    requires CollectArgsAndProps(cfg, elems, props, args) == Success((p, a))
    ensures Lookup(p, k) == if LastPropValue(cfg, elems, k).Some? then LastPropValue(cfg, elems, k) else Lookup(props, k)
  {
    if |elems| > 0 {
      var rest := elems[1..];
      if elems[0].commented {
        CollectLastPropWins(cfg, rest, props, args, p, a, k);
      } else {
        var acc := AddElem(cfg, elems[0].body, props, args).value;
        CollectLastPropWins(cfg, rest, acc.0, acc.1, p, a, k);
      }
    }
  }

  /** `parse_args_and_props` as a whole: commented elements are skipped,
      the arguments are the uncommented argument values in source order,
      and each key holds the value of its last uncommented property. */
  lemma ArgsAndPropsSemantics(cfg: DecoderConfig, elems: seq<ArgOrProp>)
    ensures ParseArgsAndProps(cfg, elems) == ParseArgsAndProps(cfg, Live(elems))
    ensures ParseArgsAndProps(cfg, elems).Success? ==>
      var (props, args) := ParseArgsAndProps(cfg, elems).value;
      && |args| == |LiveArgs(elems)|
      && (forall i :: 0 <= i < |args| ==> DecodeValue(cfg, LiveArgs(elems)[i]) == Success(args[i]))
      && (forall k :: Lookup(props, k) == LastPropValue(cfg, elems, k))
  {
    CollectIgnoresCommented(cfg, elems, [], []);
    if ParseArgsAndProps(cfg, elems).Success? {
      var (props, args) := ParseArgsAndProps(cfg, elems).value;
      CollectArgsInOrder(cfg, elems, [], [], props, args);
      forall k ensures Lookup(props, k) == LastPropValue(cfg, elems, k) {
        CollectLastPropWins(cfg, elems, [], [], props, args, k);
      }
    }
  }

  /** `node a=1 a=2` keeps `a` once, holding 2. */
  lemma DuplicatePropertyExample(t: EscapeTable)
    ensures var elems := [
        ArgOrProp(false, PropBody(Bare("a"), ValueAst(None, DecimalLit("1")))),
        ArgOrProp(false, PropBody(Bare("a"), ValueAst(None, DecimalLit("2"))))];
      ParseArgsAndProps(DefaultDecoderConfig(t), elems) == Success(([Property("a", Int(2))], []))
  {
    var cfg := DefaultDecoderConfig(t);
    var e1 := ArgOrProp(false, PropBody(Bare("a"), ValueAst(None, DecimalLit("1"))));
    var e2 := ArgOrProp(false, PropBody(Bare("a"), ValueAst(None, DecimalLit("2"))));
    assert RemoveUnderscores("1") == "1" && RemoveUnderscores("2") == "2";
    assert !IsFloatText("1") && !IsFloatText("2");
    assert DigitsValue("1", 10) == Some(1) by { assert "1"[..0] == ""; }
    assert DigitsValue("2", 10) == Some(2) by { assert "2"[..0] == ""; }
    assert DecodeValue(cfg, e1.body.value) == Success(Int(1));
    assert DecodeValue(cfg, e2.body.value) == Success(Int(2));
    assert ParseIdentifier(t, Bare("a")) == Success("a");
    var p1 := Put([], "a", Int(1));
    assert p1 == [Property("a", Int(1))];
    assert Put(p1, "a", Int(2)) == [Property("a", Int(2))];
    assert [e1, e2][1..] == [e2];
    assert [e2][1..] == [];
  }

  // The decoder half of `test_unordered_args_and_props`: arguments and
  // properties are collected apart, each in source order.

  /** A quoted string with no escapes: each character stands for itself. */
  function PlainElems(s: string): seq<StrElem> {
    seq(|s|, i requires 0 <= i < |s| => Char(s[i]))
  }

  /** An unannotated quoted string without escapes decodes to its characters. */
  lemma PlainStringDecodes(t: EscapeTable, s: string)
    ensures DecodeValue(DefaultDecoderConfig(t), ValueAst(None, StringLit(EscString(PlainElems(s))))) == Success(Str(s))
  {
    var r := ParseElems(t, PlainElems(s));
    assert forall i :: 0 <= i < |s| ==> ElemChar(t, PlainElems(s)[i]) == Success(s[i]);
    assert r.Success? && r.value == s;
    DefaultStringsAndUnresolved(t, ValueAst(None, StringLit(EscString(PlainElems(s)))));
  }

  /** An unannotated decimal literal with the canonical digits of `n` decodes to `n`. */
  lemma NaturalDecodes(t: EscapeTable, n: nat)
    ensures DecodeValue(DefaultDecoderConfig(t), ValueAst(None, DecimalLit(NatToDecimal(n)))) == Success(Int(n))
  {
    var x := NatToDecimal(n);
    NatToDecimalDigits(n);
    NatToDecimalValue(n);
    assert '_' !in x && !IsFloatText(x) by {
      assert forall c :: c in x ==> IsDecimalDigit(c);
    }
    RemoveUnderscoresIdle(x);
    assert x == IntToDecimal(n);
    DecimalRoundTrip(n);
    DecimalSplit(t, x);
  }

  /** One uncommented argument moves from the elements to the arguments. */
  lemma CollectArg(cfg: DecoderConfig, e: ArgOrProp, rest: seq<ArgOrProp>, props: Props, args: seq<Value>, v: Value)
    requires !e.commented && e.body.ArgBody? && DecodeValue(cfg, e.body.value) == Success(v)
    ensures CollectArgsAndProps(cfg, [e] + rest, props, args) == CollectArgsAndProps(cfg, rest, props, args + [v])
  {
    assert ([e] + rest)[1..] == rest;
  }

  /** One uncommented property with a bare key is stored under that key. */
  lemma CollectProp(cfg: DecoderConfig, e: ArgOrProp, rest: seq<ArgOrProp>, props: Props, args: seq<Value>, v: Value)
    requires !e.commented && e.body.PropBody? && e.body.name.Bare? && DecodeValue(cfg, e.body.value) == Success(v)
    ensures CollectArgsAndProps(cfg, [e] + rest, props, args)
         == CollectArgsAndProps(cfg, rest, Put(props, e.body.name.chars, v), args)
  {
    assert ([e] + rest)[1..] == rest;
  }

  /** The elements of `node prop1=123 "arg1" "arg2" prop2="foo" 987`, in source order. */
  function UnorderedElems(): seq<ArgOrProp> {
    [ ArgOrProp(false, PropBody(Bare("prop1"), ValueAst(None, DecimalLit(NatToDecimal(123))))),
      ArgOrProp(false, ArgBody(ValueAst(None, StringLit(EscString(PlainElems("arg1")))))),
      ArgOrProp(false, ArgBody(ValueAst(None, StringLit(EscString(PlainElems("arg2")))))),
      ArgOrProp(false, PropBody(Bare("prop2"), ValueAst(None, StringLit(EscString(PlainElems("foo")))))),
      ArgOrProp(false, ArgBody(ValueAst(None, DecimalLit(NatToDecimal(987))))) ]
  }

  /** A property followed by two arguments, at the start of the elements. */
  lemma CollectPropArgArg(cfg: DecoderConfig, k: string, p: ValueAst, a1: ValueAst, a2: ValueAst,
                          rest: seq<ArgOrProp>, v: Value, w1: Value, w2: Value)
    requires DecodeValue(cfg, p) == Success(v)
    requires DecodeValue(cfg, a1) == Success(w1) && DecodeValue(cfg, a2) == Success(w2)
    ensures CollectArgsAndProps(cfg, [ArgOrProp(false, PropBody(Bare(k), p)), ArgOrProp(false, ArgBody(a1)),
        ArgOrProp(false, ArgBody(a2))] + rest, [], [])
      == CollectArgsAndProps(cfg, rest, [Property(k, v)], [w1, w2])
  {
    var e0, e1, e2 := ArgOrProp(false, PropBody(Bare(k), p)), ArgOrProp(false, ArgBody(a1)), ArgOrProp(false, ArgBody(a2));
    assert [e0, e1, e2] + rest == [e0] + ([e1] + ([e2] + rest));
    CollectProp(cfg, e0, [e1] + ([e2] + rest), [], [], v);
    assert Put([], k, v) == [Property(k, v)];
    CollectArg(cfg, e1, [e2] + rest, [Property(k, v)], [], w1);
    assert [] + [w1] == [w1];
    CollectArg(cfg, e2, rest, [Property(k, v)], [w1], w2);
    assert [w1] + [w2] == [w1, w2];
  }

  /** A property followed by one argument, at the end of the elements. */
  lemma CollectPropArg(cfg: DecoderConfig, k: string, p: ValueAst, a: ValueAst, ps: Props, args: seq<Value>,
                       v: Value, w: Value)
    requires DecodeValue(cfg, p) == Success(v) && DecodeValue(cfg, a) == Success(w)
    ensures CollectArgsAndProps(cfg, [ArgOrProp(false, PropBody(Bare(k), p)), ArgOrProp(false, ArgBody(a))], ps, args)
      == Success((Put(ps, k, v), args + [w]))
  {
    var e0, e1 := ArgOrProp(false, PropBody(Bare(k), p)), ArgOrProp(false, ArgBody(a));
    assert [e0, e1] == [e0] + [e1];
    assert [e1] == [e1] + [];
    CollectProp(cfg, e0, [e1], ps, args, v);
    CollectArg(cfg, e1, [], Put(ps, k, v), args, w);
  }

  /** A property, two arguments, a second property with another key and a
      third argument are collected as the two properties and the three
      arguments, each group in the order written. */
  lemma CollectInterleaved(cfg: DecoderConfig, k1: string, a1: ValueAst, a2: ValueAst, k2: string, a3: ValueAst,
                           p1: ValueAst, p2: ValueAst, v1: Value, w1: Value, w2: Value, v2: Value, w3: Value)
    requires k1 != k2
    requires DecodeValue(cfg, p1) == Success(v1) && DecodeValue(cfg, p2) == Success(v2)
    requires DecodeValue(cfg, a1) == Success(w1) && DecodeValue(cfg, a2) == Success(w2)
    requires DecodeValue(cfg, a3) == Success(w3)
    ensures ParseArgsAndProps(cfg, [
        ArgOrProp(false, PropBody(Bare(k1), p1)), ArgOrProp(false, ArgBody(a1)), ArgOrProp(false, ArgBody(a2)),
        ArgOrProp(false, PropBody(Bare(k2), p2)), ArgOrProp(false, ArgBody(a3))])
      == Success(([Property(k1, v1), Property(k2, v2)], [w1, w2, w3]))
  {
    var e0, e1, e2 := ArgOrProp(false, PropBody(Bare(k1), p1)), ArgOrProp(false, ArgBody(a1)), ArgOrProp(false, ArgBody(a2));
    var e3, e4 := ArgOrProp(false, PropBody(Bare(k2), p2)), ArgOrProp(false, ArgBody(a3));
    assert [e0, e1, e2, e3, e4] == [e0, e1, e2] + [e3, e4];
    CollectPropArgArg(cfg, k1, p1, a1, a2, [e3, e4], v1, w1, w2);
    CollectPropArg(cfg, k2, p2, a3, [Property(k1, v1)], [w1, w2], v2, w3);
    PutCons(Property(k1, v1), [], k2, v2);
    assert Put([Property(k1, v1)], k2, v2) == [Property(k1, v1), Property(k2, v2)];
    assert [w1, w2] + [w3] == [w1, w2, w3];
  }

  /** `loads('node prop1=123 "arg1" "arg2" prop2="foo" 987')`: the arguments
      keep their order among themselves, and so do the properties. */
  lemma UnorderedArgsAndPropsDecoded(t: EscapeTable)
    ensures ParseArgsAndProps(DefaultDecoderConfig(t), UnorderedElems())
      == Success(([Property("prop1", Int(123)), Property("prop2", Str("foo"))], [Str("arg1"), Str("arg2"), Int(987)]))
  {
    NaturalDecodes(t, 123);
    NaturalDecodes(t, 987);
    PlainStringDecodes(t, "arg1");
    PlainStringDecodes(t, "arg2");
    PlainStringDecodes(t, "foo");
    CollectInterleaved(DefaultDecoderConfig(t), "prop1",
      ValueAst(None, StringLit(EscString(PlainElems("arg1")))), ValueAst(None, StringLit(EscString(PlainElems("arg2")))),
      "prop2", ValueAst(None, DecimalLit(NatToDecimal(987))),
      ValueAst(None, DecimalLit(NatToDecimal(123))), ValueAst(None, StringLit(EscString(PlainElems("foo")))),
      Int(123), Str("arg1"), Str("arg2"), Str("foo"), Int(987));
  }

  // ------------------------------------------------------------------ nodes

  /** The node entries that produce a node. */
  function Kept(items: seq<NodeAst>): seq<NodeAst> {
    if |items| == 0 then []
    else (if Suppressed(items[0]) then [] else [items[0]]) + Kept(items[1..])
  }

  /** Suppressed entries are dropped without being looked at. */
  lemma {:induction false} ParseNodeSeqDropsSuppressed(cfg: DecoderConfig, items: seq<NodeAst>)
    ensures ParseNodeSeq(cfg, items) == ParseNodeSeq(cfg, Kept(items))
  {
    if |items| > 0 {
      ParseNodeSeqDropsSuppressed(cfg, items[1..]);
      if !Suppressed(items[0]) {
        var kept := Kept(items);
        assert kept == [items[0]] + Kept(items[1..]);
        assert kept[0] == items[0] && kept[1..] == Kept(items[1..]);
      } else {
        assert Kept(items) == Kept(items[1..]);
        assert ParseNode(cfg, items[0]) == Success(None);
        var rest := ParseNodeSeq(cfg, items[1..]);
        if rest.Success? {
          assert ParseNodeSeq(cfg, items) == Success([] + rest.value);
          assert [] + rest.value == rest.value;
        }
      }
    }
  }

  /** The other entries each give one node, in order. */
  lemma {:induction false} ParseNodeSeqKeepsOrder(cfg: DecoderConfig, items: seq<NodeAst>)
    requires ParseNodeSeq(cfg, items).Success?
    ensures var r := ParseNodeSeq(cfg, items).value;
      && |r| == |Kept(items)|
      && forall i :: 0 <= i < |r| ==> ParseNode(cfg, Kept(items)[i]) == Success(Some(r[i]))
  {
    if |items| > 0 {
      ParseNodeSeqKeepsOrder(cfg, items[1..]);
      var r := ParseNodeSeq(cfg, items).value;
      var rest := ParseNodeSeq(cfg, items[1..]).value;
      if Suppressed(items[0]) {
        assert r == rest;
      } else {
        var first := ParseNode(cfg, items[0]).value;
        assert r == [first.value] + rest;
        assert Kept(items) == [items[0]] + Kept(items[1..]);
      }
    }
  }

  /** A non-empty sequence of entries that are all suppressed decodes to
      an empty document. */
  lemma AllSuppressedIsEmpty(cfg: DecoderConfig, items: seq<NodeAst>)
    requires |items| > 0 && forall i :: 0 <= i < |items| ==> Suppressed(items[i])
    ensures Decode(cfg, Parsed(Nodes(items))) == Success(Document(NodeList([])))
  {
    NothingKept(items);
    ParseNodeSeqDropsSuppressed(cfg, items);
  }

  lemma {:induction false} NothingKept(items: seq<NodeAst>)
    requires forall i :: 0 <= i < |items| ==> Suppressed(items[i])
    ensures Kept(items) == []
  {
    if |items| > 0 {
      NothingKept(items[1..]);
    }
  }

  /** `/-bare 1 2 { x }` decodes to a document with no nodes. */
  lemma CommentedNodeExample(cfg: DecoderConfig)
    ensures Decode(cfg, Parsed(Nodes([
      NodeEntry(true, None, Bare("bare"),
        Some([ArgOrProp(false, ArgBody(ValueAst(None, DecimalLit("1")))),
              ArgOrProp(false, ArgBody(ValueAst(None, DecimalLit("2"))))]),
        Some(ChildrenAst(false, Nodes([NodeEntry(false, None, Bare("x"), None, None)]))))])))
      == Success(Document(NodeList([])))
  {
    var e := NodeEntry(true, None, Bare("bare"),
        Some([ArgOrProp(false, ArgBody(ValueAst(None, DecimalLit("1")))),
              ArgOrProp(false, ArgBody(ValueAst(None, DecimalLit("2"))))]),
        Some(ChildrenAst(false, Nodes([NodeEntry(false, None, Bare("x"), None, None)]))));
    AllSuppressedIsEmpty(cfg, [e]);
  }

  /** A grammar failure is the decode error "Failed to parse the document.". */
  lemma GrammarFailureMessage(cfg: DecoderConfig)
    ensures Decode(cfg, GrammarFailure).Failure?
    ensures Message(Decode(cfg, GrammarFailure).error) == "Failed to parse the document."
  {
  }
}
