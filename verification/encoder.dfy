/** The encoder (cuddle/encoder.py): strings, identifiers, values, nodes and
    documents back to KDL text. */
module Encoder {
  import opened Wrappers
  import opened Text
  import opened Numbers
  import opened Escapes
  import opened Structure
  import opened Scanner

  // ------------------------------------------------------------- identifiers

  /** The whitespace and newline characters both classes of `ident_re`
      exclude (U+FFEF is in the class as the source writes it). */
  predicate IsIdentSpace(c: char) {
    || c == '\t' || c == ' ' || c == '\U{00A0}' || c == '\U{1680}'
    || ('\U{2000}' <= c <= '\U{200A}')
    || c == '\U{202F}' || c == '\U{205F}' || c == '\U{3000}' || c == '\U{FFEF}'
    || c == '\r' || c == '\n' || c == '\U{0085}' || c == '\U{000C}'
    || c == '\U{2028}' || c == '\U{2029}'
  }

  /** The second class of `ident_re`: any character after the first. */
  predicate IsIdentifierChar(c: char) {
    c !in "/\\;=,\"" && !IsIdentSpace(c)
  }

  /** The first class of `ident_re`: also no `<`, `{`, `[` and no digit. */
  predicate IsIdentifierStart(c: char) {
    IsIdentifierChar(c) && c !in "<{[" && !IsDecimalDigit(c)
  }

  /** The whole string is one bare identifier. */
  predicate IsBareIdentifier(s: string) {
    && |s| > 0
    && IsIdentifierStart(s[0])
    && forall i :: 1 <= i < |s| ==> IsIdentifierChar(s[i])
  }

  predicate IsKeyword(s: string) {
    s == "true" || s == "false" || s == "null"
  }

  /** `ident_re.match(s)` as written: Python's `$` also matches just before a
      final newline, so a bare identifier followed by one `\n` matches too. */
  predicate MatchesIdentRe(s: string) {
    || IsBareIdentifier(s)
    || (|s| >= 2 && s[|s| - 1] == '\n' && IsBareIdentifier(s[..|s| - 1]))
  }

  // ----------------------------------------------------------------- strings

  /** The string is written raw: it has a backslash and no quote. */
  predicate UsesRawForm(s: string) {
    '\\' in s && '"' !in s
  }

  /** The body of a quoted string: each character with a named escape as
      backslash and letter, every other character as itself. */
  function EscapeChars(t: EscapeTable, s: string): (r: string)
    ensures |r| >= |s|
  {
    if |s| == 0 then ""
    else
      (if s[0] in t.inverse then "\\" + [t.inverse[s[0]]] else [s[0]])
      + EscapeChars(t, s[1..])
  }

  /** Escaping works character by character: the body of a concatenation
      is the concatenation of the bodies. */
  lemma {:induction false} EscapeCharsAppend(t: EscapeTable, a: string, b: string)
    ensures EscapeChars(t, a + b) == EscapeChars(t, a) + EscapeChars(t, b)
  {
    if |a| == 0 {
      assert a + b == b;
    } else {
      assert (a + b)[0] == a[0];
      assert (a + b)[1..] == a[1..] + b;
      EscapeCharsAppend(t, a[1..], b);
    }
  }

  /** A string with no character the table escapes is copied unchanged. */
  lemma {:induction false} EscapeCharsIdle(t: EscapeTable, s: string)
    requires forall i :: 0 <= i < |s| ==> s[i] !in t.inverse
    ensures EscapeChars(t, s) == s
  {
    if |s| > 0 {
      EscapeCharsIdle(t, s[1..]);
      assert [s[0]] + s[1..] == s;
    }
  }

  /** `format_string`: a raw string `r#"..."#` when that needs no escaping,
      a quoted string otherwise. */
  function FormatString(t: EscapeTable, s: string): (r: string)
    ensures |r| >= |s| + 2
    ensures r[0] == 'r' <==> UsesRawForm(s)
    ensures !UsesRawForm(s) ==> r[0] == '"' && r[|r| - 1] == '"'
  {
    if UsesRawForm(s) then "r#\"" + s + "\"#"
    else "\"" + EscapeChars(t, s) + "\""
  }

  /** `format_identifier` as written, with `ident_re.match`. */
  function FormatIdentifierAsWritten(t: EscapeTable, s: string): (r: string)
    ensures r == s <==> MatchesIdentRe(s) && !IsKeyword(s)
    ensures r != s ==> r == FormatString(t, s)
  {
    if MatchesIdentRe(s) && !IsKeyword(s) then s else FormatString(t, s)
  }

  /** The corrected test: the whole string matches `ident_re`, is no
      keyword, and is a KDL 1.0 bare identifier, so it reads back as
      itself. */
  predicate ReadsBackBare(s: string) {
    IsBareIdentifier(s) && !IsKeyword(s) && IsKdlIdentifier(s)
  }

  /** `format_identifier` corrected: bare exactly when the string reads
      back as that bare identifier, quoted otherwise. */
  function FormatIdentifier(t: EscapeTable, s: string): (r: string)
    ensures r == s <==> ReadsBackBare(s)
    ensures r != s ==> r == FormatString(t, s)
  {
    if ReadsBackBare(s) then s else FormatString(t, s)
  }

  /** The two differ exactly on the strings `ident_re.match` accepts that
      are no keyword but do not read back as a bare identifier, which the
      as-written version leaves unquoted. */
  lemma IdentifierVersionsDiffer(t: EscapeTable, s: string)
    ensures FormatIdentifierAsWritten(t, s) != FormatIdentifier(t, s) <==>
      MatchesIdentRe(s) && !IsKeyword(s) && !ReadsBackBare(s)
  {
  }


  /** `format_identifier("a\n")` as written returns `a` and a newline
      unquoted, which no longer reads back as one identifier. */
  lemma TrailingNewlineLeftBare(t: EscapeTable)
    ensures FormatIdentifierAsWritten(t, "a\n") == "a\n"
    ensures !IsBareIdentifier("a\n")
    ensures FormatIdentifier(t, "a\n") == FormatString(t, "a\n")
  {
    assert "a\n"[..1] == "a";
    assert IsBareIdentifier("a");
    assert !IsIdentifierChar('\n');
  }

  /** Which test lets an identifier be written bare: `ident_re.match` as
      the source has it, or the corrected test that the name reads back. */
  datatype BareTest = IdentReMatch | ReadsBack

  /** The identifier formatter handed to value encoders. */
  type IdentFormatter = string -> string

  // ------------------------------------------------------------------ values

  /** A value encoder's answer: `None` (cannot encode), a finished `str`, a
      `(type, string)` pair to be written as a string, or the message of an
      exception the encoder raised. */
  datatype Rendered =
    | Literal(text: string)
    | Annotated(tag: Option<string>, text: string)
    | Raised(reason: string)

  type ValueEncoder = (Value, IdentFormatter) -> Option<Rendered>

  /** The Python classes the encoders test with `isinstance`. */
  datatype PyClass =
    | NoneType | BoolClass | IntClass | FloatClass | StrClass
    | BytesClass | DateTimeClass | DateClass | TimeClass | DecimalClass
    | IPv4Class | IPv6Class | PatternClass | UrlClass | UuidClass
    | OtherClass(name: string)

  function ClassOf(v: Value): PyClass {
    match v
    case Null => NoneType
    case Bool(_) => BoolClass
    case Int(_) => IntClass
    case Float(_) => FloatClass
    case Str(_) => StrClass
    case Ext(kind, _) =>
      (match kind
       case Bytes => BytesClass
       case DateTime => DateTimeClass
       case Date => DateClass
       case Time => TimeClass
       case Decimal => DecimalClass
       case IPv4 => IPv4Class
       case IPv6 => IPv6Class
       case Regex => PatternClass
       case Url => UrlClass
       case Uuid => UuidClass)
    case Opaque(name, _) => OtherClass(name)
  }

  /** `isinstance`: `bool` is a subclass of `int` and `datetime` of `date`. */
  predicate IsInstance(c: PyClass, of: PyClass) {
    c == of || (c == BoolClass && of == IntClass) || (c == DateTimeClass && of == DateClass)
  }

  /** `val.__class__.__name__`. */
  function ClassName(c: PyClass): string {
    match c
    case NoneType => "NoneType"
    case BoolClass => "bool"
    case IntClass => "int"
    case FloatClass => "float"
    case StrClass => "str"
    case BytesClass => "bytes"
    case DateTimeClass => "datetime"
    case DateClass => "date"
    case TimeClass => "time"
    case DecimalClass => "Decimal"
    case IPv4Class => "IPv4Address"
    case IPv6Class => "IPv6Address"
    case PatternClass => "Pattern"
    case UrlClass => "ParseResult"
    case UuidClass => "UUID"
    case OtherClass(name) => name
  }

  /** `default_value_encoder`, testing classes in the source's order. */
  function DefaultValueEncoder(v: Value, fmt: IdentFormatter): Option<Rendered> {
    var c := ClassOf(v);
    if c == NoneType then Some(Literal("null"))
    else if IsInstance(c, BoolClass) then Some(Literal(if v.b then "true" else "false"))
    else if IsInstance(c, IntClass) then Some(Literal(IntToDecimal(v.i)))
    else if IsInstance(c, FloatClass) then Some(Literal(v.repr))
    else if IsInstance(c, StrClass) then Some(Annotated(None, v.s))
    else if IsInstance(c, DecimalClass) then Some(Annotated(Some("decimal"), v.payload))
    else None
  }

  /** `extended_value_encoder`: the default encoder first, then the library
      types, each written as a string under its tag. */
  function ExtendedValueEncoder(v: Value, fmt: IdentFormatter): Option<Rendered> {
    var d := DefaultValueEncoder(v, fmt);
    if d.Some? then d
    else
      var c := ClassOf(v);
      if IsInstance(c, BytesClass) then Some(Annotated(Some("base64"), v.payload))
      else if IsInstance(c, DateTimeClass) then Some(Annotated(Some("date-time"), v.payload))
      else if IsInstance(c, DateClass) then Some(Annotated(Some("date"), v.payload))
      else if IsInstance(c, TimeClass) then Some(Annotated(Some("time"), v.payload))
      else if IsInstance(c, IPv4Class) then Some(Annotated(Some("ipv4"), v.payload))
      else if IsInstance(c, IPv6Class) then Some(Annotated(Some("ipv6"), v.payload))
      else if IsInstance(c, PatternClass) then Some(Annotated(Some("regex"), v.payload))
      else if IsInstance(c, UrlClass) then Some(Annotated(Some("url"), v.payload))
      else if IsInstance(c, UuidClass) then Some(Annotated(Some("uuid"), v.payload))
      else None
  }

  /** The tag each extension kind is written under. */
  function ExtTag(k: ExtKind): string {
    match k
    case Bytes => "base64"
    case DateTime => "date-time"
    case Date => "date"
    case Time => "time"
    case Decimal => "decimal"
    case IPv4 => "ipv4"
    case IPv6 => "ipv6"
    case Regex => "regex"
    case Url => "url"
    case Uuid => "uuid"
  }

  /** What each kind of value is written as, by kind rather than by class:
      `None` for objects no encoder knows. */
  function Rendering(v: Value): Option<Rendered> {
    match v
    case Null => Some(Literal("null"))
    case Bool(b) => Some(Literal(if b then "true" else "false"))
    case Int(i) => Some(Literal(IntToDecimal(i)))
    case Float(repr) => Some(Literal(repr))
    case Str(s) => Some(Annotated(None, s))
    case Ext(k, p) => Some(Annotated(Some(ExtTag(k)), p))
    case Opaque(_, _) => None
  }

  /** The class tests pick the right branch for every value: a `bool` is
      written as a keyword even though it is an `int`, a `datetime` as a
      date-time even though it is a `date`, and only the decimal extension
      is known to the default encoder. */
  lemma EncoderTables(v: Value, fmt: IdentFormatter)
    ensures ExtendedValueEncoder(v, fmt) == Rendering(v)
    ensures DefaultValueEncoder(v, fmt) ==
      if (v.Ext? && v.kind != Decimal) || v.Opaque? then None else Rendering(v)
  {
    match v
    case Null =>
    case Bool(_) =>
    case Int(_) =>
    case Float(_) =>
    case Str(_) =>
    case Ext(k, _) =>
    case Opaque(_, _) =>
  }

  // --------------------------------------------------------------- configs

  /** The `indent` keyword of `KDLEncoder`: a string, an int, or omitted. */
  datatype IndentArg = IndentText(text: string) | IndentWidth(width: int) | IndentDefault

  /** The indent unit: the string itself, that many spaces (none for a
      negative count), or two spaces. */
  function IndentUnit(a: IndentArg): (r: string)
    ensures a.IndentText? ==> r == a.text
    ensures a.IndentWidth? ==>
      (|r| == (if a.width > 0 then a.width else 0) && forall i :: 0 <= i < |r| ==> r[i] == ' ')
    ensures a.IndentDefault? ==> r == "  "
  {
    match a
    case IndentText(text) => text
    case IndentWidth(width) =>
      var n: nat := if width > 0 then width else 0;
      RepeatChar(' ', n);
      Repeat(" ", n)
    case IndentDefault => "  "
  }

  datatype EncoderConfig = EncoderConfig(
    indent: string,
    valueEncoder: ValueEncoder,
    escapes: EscapeTable,
    bareTest: BareTest)

  /** `KDLEncoder(indent=..., value_encoder=...)`, with the source's
      `ident_re.match` deciding bare identifiers. */
  function MakeEncoderConfig(indent: IndentArg, valueEncoder: Option<ValueEncoder>, escapes: EscapeTable)
    : (cfg: EncoderConfig)
    ensures cfg.indent == IndentUnit(indent) && cfg.escapes == escapes
    ensures forall v, f :: (cfg.valueEncoder(v, f) ==
      if valueEncoder.Some? then valueEncoder.value(v, f) else ExtendedValueEncoder(v, f))
    ensures cfg.bareTest == IdentReMatch
  {
    EncoderConfig(
      IndentUnit(indent),
      if valueEncoder.Some? then valueEncoder.value else ExtendedValueEncoder,
      escapes,
      IdentReMatch)
  }

  /** The same encoder with the corrected identifier test. */
  function Corrected(cfg: EncoderConfig): EncoderConfig {
    cfg.(bareTest := ReadsBack)
  }

  /** `format_identifier` under the configuration's test. Under either
      test a string that reads back as a bare identifier is written as it
      is; the source's test also leaves every other bare identifier that is
      no keyword as it is; anything not written as it is becomes a string. */
  function FormatIdentifierFor(cfg: EncoderConfig, s: string): (r: string)
    ensures ReadsBackBare(s) ==> r == s
    ensures cfg.bareTest == IdentReMatch && IsBareIdentifier(s) && !IsKeyword(s) ==> r == s
    ensures r != s ==> r == FormatString(cfg.escapes, s)
  {
    match cfg.bareTest
    case IdentReMatch => FormatIdentifierAsWritten(cfg.escapes, s)
    case ReadsBack => FormatIdentifier(cfg.escapes, s)
  }

  function IdentFormatterOf(cfg: EncoderConfig): IdentFormatter {
    s => FormatIdentifierFor(cfg, s)
  }

  function DefaultEncoderConfig(escapes: EscapeTable): EncoderConfig {
    MakeEncoderConfig(IndentDefault, None, escapes)
  }

  // --------------------------------------------------------- value encoding

  /** `NotSerializable` is the `TypeError` of encoder.py; `EncoderRaised`
      is an exception out of a user value encoder, passed on unchanged. */
  datatype EncodeError = NotSerializable(typeName: string) | EncoderRaised(reason: string)

  function EncodeMessage(e: EncodeError): string {
    match e
    case NotSerializable(typeName) => "Object of type " + typeName + " is not KDL serializable"
    case EncoderRaised(reason) => reason
  }

  predicate Encodable(cfg: EncoderConfig, v: Value) {
    var a := cfg.valueEncoder(v, IdentFormatterOf(cfg));
    a.Some? && !a.value.Raised?
  }

  /** `format_value`: a finished string as it is, a pair as a string with
      its tag, if any, as a parenthesised identifier in front. */
  function FormatValue(cfg: EncoderConfig, v: Value): (r: Result<string, EncodeError>)
    ensures r.Failure? <==> !Encodable(cfg, v)
    ensures cfg.valueEncoder(v, IdentFormatterOf(cfg)).None? ==>
      r == Failure(NotSerializable(ClassName(ClassOf(v))))
    ensures cfg.valueEncoder(v, IdentFormatterOf(cfg)).Some? ==>
      var a := cfg.valueEncoder(v, IdentFormatterOf(cfg)).value;
      && (a.Raised? ==> r == Failure(EncoderRaised(a.reason)))
      && (a.Literal? ==> r == Success(a.text))
      && (a.Annotated? && a.tag.None? ==> r == Success(FormatString(cfg.escapes, a.text)))
      && (a.Annotated? && a.tag.Some? ==>
            r == Success("(" + FormatIdentifierFor(cfg, a.tag.value) + ")" + FormatString(cfg.escapes, a.text)))
  {
    match cfg.valueEncoder(v, IdentFormatterOf(cfg))
    case None => Failure(NotSerializable(ClassName(ClassOf(v))))
    case Some(Raised(reason)) => Failure(EncoderRaised(reason))
    case Some(Literal(text)) => Success(text)
    case Some(Annotated(tag, text)) =>
      if tag.Some? then Success("(" + FormatIdentifierFor(cfg, tag.value) + ")" + FormatString(cfg.escapes, text))
      else Success(FormatString(cfg.escapes, text))
  }

  // ------------------------------------------------------------------ nodes

  /** The pieces of a sequence of elements written one after the other:
      the first failing piece fails the whole. */
  function JoinEach<T>(xs: seq<T>, piece: T -> Result<string, EncodeError>): (r: Result<string, EncodeError>)
    ensures r.Success? <==> forall i :: 0 <= i < |xs| ==> piece(xs[i]).Success?
  {
    if |xs| == 0 then Success("")
    else
      var first :- piece(xs[0]);
      var rest :- JoinEach(xs[1..], piece);
      assert forall i :: 1 <= i < |xs| ==> xs[i] == xs[1..][i - 1];
      Success(first + rest)
  }

  lemma JoinEachCons<T>(xs: seq<T>, piece: T -> Result<string, EncodeError>)
    requires |xs| > 0
    ensures JoinEach(xs, piece).Success? <==> piece(xs[0]).Success? && JoinEach(xs[1..], piece).Success?
    ensures JoinEach(xs, piece).Success? ==>
      JoinEach(xs, piece).value == piece(xs[0]).value + JoinEach(xs[1..], piece).value
  {
  }

  /** Joining a concatenation is concatenating the joins. */
  lemma {:induction false} JoinEachAppend<T>(a: seq<T>, b: seq<T>, piece: T -> Result<string, EncodeError>)
    requires JoinEach(a, piece).Success? && JoinEach(b, piece).Success?
    ensures JoinEach(a + b, piece) == Success(JoinEach(a, piece).value + JoinEach(b, piece).value)
  {
    if |a| == 0 {
      assert a + b == b;
      assert "" + JoinEach(b, piece).value == JoinEach(b, piece).value;
    } else {
      var ab := a + b;
      assert ab[0] == a[0];
      assert ab[1..] == a[1..] + b;
      JoinEachCons(a, piece);
      JoinEachAppend(a[1..], b, piece);
      JoinEachCons(ab, piece);
      var first := piece(a[0]).value;
      var restA := JoinEach(a[1..], piece).value;
      var all := JoinEach(b, piece).value;
      assert first + (restA + all) == (first + restA) + all;
    }
  }

  /** ` value` for one argument. */
  function FormatArg(cfg: EncoderConfig, v: Value): (r: Result<string, EncodeError>)
    ensures r.Success? <==> Encodable(cfg, v)
  {
    var text :- FormatValue(cfg, v);
    Success(" " + text)
  }

  /** ` value` for each argument, in order. */
  function FormatArgs(cfg: EncoderConfig, args: seq<Value>): (r: Result<string, EncodeError>)
    ensures r.Success? <==> forall i :: 0 <= i < |args| ==> Encodable(cfg, args[i])
  {
    JoinEach(args, v => FormatArg(cfg, v))
  }

  /** ` key=value` for one property. */
  function FormatProp(cfg: EncoderConfig, p: Property): (r: Result<string, EncodeError>)
    ensures r.Success? <==> Encodable(cfg, p.value)
  {
    var v :- FormatValue(cfg, p.value);
    Success(" " + FormatIdentifierFor(cfg, p.key) + "=" + v)
  }

  /** ` key=value` for each property, in the dict's order. */
  function FormatProps(cfg: EncoderConfig, props: Props): (r: Result<string, EncodeError>)
    ensures r.Success? <==> forall i :: 0 <= i < |props| ==> Encodable(cfg, props[i].value)
  {
    JoinEach(props, p => FormatProp(cfg, p))
  }

  /** Arguments are written one after the other, in order. */
  lemma FormatArgsAppend(cfg: EncoderConfig, a: seq<Value>, b: seq<Value>)
    requires FormatArgs(cfg, a).Success? && FormatArgs(cfg, b).Success?
    ensures FormatArgs(cfg, a + b) == Success(FormatArgs(cfg, a).value + FormatArgs(cfg, b).value)
  {
    JoinEachAppend(a, b, v => FormatArg(cfg, v));
  }

  /** Properties are written one after the other, in the dict's order. */
  lemma FormatPropsAppend(cfg: EncoderConfig, a: Props, b: Props)
    requires FormatProps(cfg, a).Success? && FormatProps(cfg, b).Success?
    ensures FormatProps(cfg, a + b) == Success(FormatProps(cfg, a).value + FormatProps(cfg, b).value)
  {
    JoinEachAppend(a, b, p => FormatProp(cfg, p));
  }

  /** A node's line without its indentation and children: the type in
      parentheses if there is one, the name, the arguments, the properties. */
  function FormatHeader(cfg: EncoderConfig, n: Node): (r: Result<string, EncodeError>)
    ensures r.Success? <==> FormatArgs(cfg, n.arguments).Success? && FormatProps(cfg, n.properties).Success?
  {
    var args :- FormatArgs(cfg, n.arguments);
    var props :- FormatProps(cfg, n.properties);
    var typ := if n.nodeType.Some? then "(" + FormatIdentifierFor(cfg, n.nodeType.value) + ")" else "";
    Success(typ + FormatIdentifierFor(cfg, n.name) + args + props)
  }

  /** The line is the type in parentheses, if any, then the name, then
      every argument, then every property: arguments always come before
      properties, whatever their order in the source text. */
  lemma FormatHeaderText(cfg: EncoderConfig, n: Node)
    requires FormatHeader(cfg, n).Success?
    ensures FormatHeader(cfg, n).value ==
              (if n.nodeType.Some? then "(" + FormatIdentifierFor(cfg, n.nodeType.value) + ")" else "")
              + FormatIdentifierFor(cfg, n.name)
              + FormatArgs(cfg, n.arguments).value
              + FormatProps(cfg, n.properties).value
  {
  }

  /** Every value anywhere in the tree can be encoded. */
  predicate TreeEncodable(cfg: EncoderConfig, n: Node)
    decreases n
  {
    && FormatHeader(cfg, n).Success?
    && forall i :: 0 <= i < |n.children.nodes| ==> TreeEncodable(cfg, n.children.nodes[i])
  }

  /** `format_node` with the indentation of its depth on every line: the
      node's own line, its children one level deeper, and its closing brace
      level with the node. Encoding fails exactly when some value in the
      subtree cannot be encoded. */
  function FormatNodeAt(cfg: EncoderConfig, n: Node, depth: nat): (r: Result<string, EncodeError>)
    ensures r.Success? <==> TreeEncodable(cfg, n)
    decreases n, 1
  {
    var lead := Repeat(cfg.indent, depth);
    var header :- FormatHeader(cfg, n);
    if |n.children.nodes| == 0 then Success(lead + header)
    else
      var kids :- FormatChildren(cfg, n.children.nodes, depth + 1);
      Success(lead + header + " {\n" + kids + lead + "}")
  }

  /** A node's text starts with the indentation of its depth and its
      header. A node without children is that line alone; a node with
      children opens a brace after the header and ends with a closing brace
      at its own indentation. */
  lemma NodeLayout(cfg: EncoderConfig, n: Node, depth: nat)
    requires FormatNodeAt(cfg, n, depth).Success?
    ensures FormatHeader(cfg, n).Success?
    ensures var text := FormatNodeAt(cfg, n, depth).value;
      var lead := Repeat(cfg.indent, depth);
      var line := lead + FormatHeader(cfg, n).value;
      && |text| >= |line| && text[..|line|] == line
      && (|n.children.nodes| == 0 ==> text == line)
      && (|n.children.nodes| > 0 ==>
            && |text| >= |line| + 3 + |lead| + 1
            && text[|line|..|line| + 3] == " {\n"
            && text[|text| - |lead| - 1..] == lead + "}")
  {
    var lead := Repeat(cfg.indent, depth);
    var header := FormatHeader(cfg, n).value;
    var text := FormatNodeAt(cfg, n, depth).value;
    if |n.children.nodes| == 0 {
      assert text == lead + header;
    } else {
      var kids := FormatChildren(cfg, n.children.nodes, depth + 1).value;
      assert text == (lead + header) + " {\n" + kids + (lead + "}");
      assert text == (lead + header + " {\n" + kids) + (lead + "}");
    }
  }

  /** The children of a node, each on its own line. */
  function FormatChildren(cfg: EncoderConfig, kids: seq<Node>, depth: nat): (r: Result<string, EncodeError>)
    ensures r.Success? <==> forall i :: 0 <= i < |kids| ==> TreeEncodable(cfg, kids[i])
    decreases kids, 0
  {
    if |kids| == 0 then Success("")
    else
      var first :- FormatNodeAt(cfg, kids[0], depth);
      var rest :- FormatChildren(cfg, kids[1..], depth);
      assert forall i :: 1 <= i < |kids| ==> kids[i] == kids[1..][i - 1];
      Success(first + "\n" + rest)
  }

  /** `format_document` joined: each top-level node and a newline. */
  function EncodeNodes(cfg: EncoderConfig, nodes: seq<Node>): (r: Result<string, EncodeError>)
    ensures r.Success? <==> forall i :: 0 <= i < |nodes| ==> TreeEncodable(cfg, nodes[i])
    ensures |nodes| == 0 ==> r == Success("")
  {
    FormatChildren(cfg, nodes, 0)
  }

  /** `KDLEncoder.encode`. */
  function Encode(cfg: EncoderConfig, doc: Document): (r: Result<string, EncodeError>)
    ensures r.Success? <==> forall i :: 0 <= i < Len(doc.nodes) ==> TreeEncodable(cfg, doc.nodes.nodes[i])
    ensures Len(doc.nodes) == 0 ==> r == Success("")
  {
    EncodeNodes(cfg, DocumentNodes(doc))
  }

  lemma EncodeNodesCons(cfg: EncoderConfig, ns: seq<Node>)
    requires |ns| > 0
    ensures EncodeNodes(cfg, ns).Success? <==> FormatNodeAt(cfg, ns[0], 0).Success? && EncodeNodes(cfg, ns[1..]).Success?
    ensures EncodeNodes(cfg, ns).Success? ==>
      EncodeNodes(cfg, ns).value == FormatNodeAt(cfg, ns[0], 0).value + "\n" + EncodeNodes(cfg, ns[1..]).value
  {
  }

  /** Encoding a document is encoding its nodes one after the other. */
  lemma {:induction false} EncodeNodesAppend(cfg: EncoderConfig, a: seq<Node>, b: seq<Node>)
    requires EncodeNodes(cfg, a).Success? && EncodeNodes(cfg, b).Success?
    ensures EncodeNodes(cfg, a + b) == Success(EncodeNodes(cfg, a).value + EncodeNodes(cfg, b).value)
  {
    if |a| == 0 {
      assert a + b == b;
      assert "" + EncodeNodes(cfg, b).value == EncodeNodes(cfg, b).value;
    } else {
      assert (a + b)[0] == a[0];
      assert (a + b)[1..] == a[1..] + b;
      EncodeNodesAppend(cfg, a[1..], b);
      EncodeNodesCons(cfg, a);
      EncodeNodesCons(cfg, a + b);
      var first := FormatNodeAt(cfg, a[0], 0).value;
      var restA := EncodeNodes(cfg, a[1..]).value;
      var all := EncodeNodes(cfg, b).value;
      Reassociate(first + "\n", restA, all);
    }
  }

  // ----------------------------------------- node layout as the source has it

  /** `format_node` as written: a nested node yields one indent unit, and a
      node's children are each preceded by the node's own indent (none at
      the top level), as is its closing brace. The indentation does not
      accumulate with depth. */
  function FormatNodeAsWritten(cfg: EncoderConfig, n: Node, topLevel: bool): (r: Result<string, EncodeError>)
    ensures r.Success? <==> TreeEncodable(cfg, n)
    decreases n, 1
  {
    var indent := if topLevel then "" else cfg.indent;
    var header :- FormatHeader(cfg, n);
    if |n.children.nodes| == 0 then Success(indent + header)
    else
      var kids :- ChildrenAsWritten(cfg, n.children.nodes, indent);
      Success(indent + header + " {\n" + kids + indent + "}")
  }

  /** The children of a node as written, each after the parent's indent. */
  function ChildrenAsWritten(cfg: EncoderConfig, kids: seq<Node>, indent: string): (r: Result<string, EncodeError>)
    ensures r.Success? <==> forall i :: 0 <= i < |kids| ==> TreeEncodable(cfg, kids[i])
    decreases kids, 0
  {
    if |kids| == 0 then Success("")
    else
      var first :- FormatNodeAsWritten(cfg, kids[0], false);
      var rest :- ChildrenAsWritten(cfg, kids[1..], indent);
      assert forall i :: 1 <= i < |kids| ==> kids[i] == kids[1..][i - 1];
      Success(indent + first + "\n" + rest)
  }

  /** `KDLEncoder.encode` as written; with a configuration from
      `MakeEncoderConfig` this is the source's encoder in full. */
  function EncodeAsWritten(cfg: EncoderConfig, doc: Document): (r: Result<string, EncodeError>)
    ensures r.Success? <==> forall i :: 0 <= i < Len(doc.nodes) ==> TreeEncodable(cfg, doc.nodes.nodes[i])
    ensures Len(doc.nodes) == 0 ==> r == Success("")
  {
    var nodes := DocumentNodes(doc);
    TopLevelAsWritten(cfg, nodes)
  }

  /** `format_document` as written: each top-level node and a newline. */
  function TopLevelAsWritten(cfg: EncoderConfig, nodes: seq<Node>): (r: Result<string, EncodeError>)
    ensures r.Success? <==> forall i :: 0 <= i < |nodes| ==> TreeEncodable(cfg, nodes[i])
    ensures |nodes| == 0 ==> r == Success("")
  {
    if |nodes| == 0 then Success("")
    else
      var first :- FormatNodeAsWritten(cfg, nodes[0], true);
      var rest :- TopLevelAsWritten(cfg, nodes[1..]);
      assert forall i :: 1 <= i < |nodes| ==> nodes[i] == nodes[1..][i - 1];
      Success(first + "\n" + rest)
  }

  /** As written, a node's text starts with its indent unit (none at the
      top level) and its header; a node without children is that line
      alone; a node with children opens a brace after the header and ends
      with a closing brace after the same indent, whatever its depth. */
  lemma NodeLayoutAsWritten(cfg: EncoderConfig, n: Node, topLevel: bool)
    requires FormatNodeAsWritten(cfg, n, topLevel).Success?
    ensures FormatHeader(cfg, n).Success?
    ensures var text := FormatNodeAsWritten(cfg, n, topLevel).value;
      var indent := if topLevel then "" else cfg.indent;
      var line := indent + FormatHeader(cfg, n).value;
      && |text| >= |line| && text[..|line|] == line
      && (|n.children.nodes| == 0 ==> text == line)
      && (|n.children.nodes| > 0 ==>
            && |text| >= |line| + 3 + |indent| + 1
            && text[|line|..|line| + 3] == " {\n"
            && text[|text| - |indent| - 1..] == indent + "}")
  {
    var indent := if topLevel then "" else cfg.indent;
    var header := FormatHeader(cfg, n).value;
    var text := FormatNodeAsWritten(cfg, n, topLevel).value;
    if |n.children.nodes| == 0 {
      assert text == indent + header;
    } else {
      var kids := ChildrenAsWritten(cfg, n.children.nodes, indent).value;
      assert text == (indent + header) + " {\n" + kids + (indent + "}");
      assert text == (indent + header + " {\n" + kids) + (indent + "}");
    }
  }

  /** The node has children only down to the given number of levels. */
  predicate NestedAtMost(n: Node, levels: nat)
    decreases n
  {
    if levels == 0 then |n.children.nodes| == 0
    else forall i :: 0 <= i < |n.children.nodes| ==> NestedAtMost(n.children.nodes[i], levels - 1)
  }

  /** `p` in front of a successful result. */
  function Prefixed(p: string, r: Result<string, EncodeError>): Result<string, EncodeError> {
    if r.Success? then Success(p + r.value) else r
  }

  lemma LeafAtDepthTwo(cfg: EncoderConfig, n: Node)
    requires |n.children.nodes| == 0
    ensures FormatNodeAt(cfg, n, 2) == Prefixed(cfg.indent, FormatNodeAsWritten(cfg, n, false))
  {
    assert Repeat(cfg.indent, 2) == cfg.indent + cfg.indent by {
      assert Repeat(cfg.indent, 0) == "";
      assert Repeat(cfg.indent, 1) == cfg.indent + "";
    }
    var h := FormatHeader(cfg, n);
    if h.Success? {
      assert FormatNodeAt(cfg, n, 2) == Success(Repeat(cfg.indent, 2) + h.value);
      assert FormatNodeAsWritten(cfg, n, false) == Success(cfg.indent + h.value);
      Reassociate(cfg.indent, cfg.indent, h.value);
    } else {
      assert FormatNodeAt(cfg, n, 2) == Failure(h.error);
      assert FormatNodeAsWritten(cfg, n, false) == Failure(h.error);
    }
  }

  lemma {:induction false} LeavesAtDepthTwo(cfg: EncoderConfig, kids: seq<Node>)
    requires forall i :: 0 <= i < |kids| ==> |kids[i].children.nodes| == 0
    ensures FormatChildren(cfg, kids, 2) == ChildrenAsWritten(cfg, kids, cfg.indent)
    decreases |kids|
  {
    if |kids| > 0 {
      LeafAtDepthTwo(cfg, kids[0]);
      LeavesAtDepthTwo(cfg, kids[1..]);
      var first := FormatNodeAsWritten(cfg, kids[0], false);
      var rest := ChildrenAsWritten(cfg, kids[1..], cfg.indent);
      if first.Success? && rest.Success? {
        assert (cfg.indent + first.value) + "\n" + rest.value == cfg.indent + first.value + "\n" + rest.value;
      }
    }
  }

  lemma NodeAtDepthOne(cfg: EncoderConfig, n: Node)
    requires NestedAtMost(n, 1)
    ensures FormatNodeAt(cfg, n, 1) == FormatNodeAsWritten(cfg, n, false)
  {
    assert Repeat(cfg.indent, 1) == cfg.indent by {
      assert Repeat(cfg.indent, 0) == "";
    }
    if |n.children.nodes| > 0 {
      LeavesAtDepthTwo(cfg, n.children.nodes);
    }
  }

  lemma {:induction false} NodesAtDepthOne(cfg: EncoderConfig, kids: seq<Node>)
    requires forall i :: 0 <= i < |kids| ==> NestedAtMost(kids[i], 1)
    ensures FormatChildren(cfg, kids, 1) == ChildrenAsWritten(cfg, kids, "")
    decreases |kids|
  {
    if |kids| > 0 {
      NodeAtDepthOne(cfg, kids[0]);
      NodesAtDepthOne(cfg, kids[1..]);
      var first := FormatNodeAsWritten(cfg, kids[0], false);
      if first.Success? {
        assert "" + first.value == first.value;
      }
    }
  }

  lemma TopLevelNode(cfg: EncoderConfig, n: Node)
    requires NestedAtMost(n, 2)
    ensures FormatNodeAt(cfg, n, 0) == FormatNodeAsWritten(cfg, n, true)
  {
    assert Repeat(cfg.indent, 0) == "";
    if |n.children.nodes| > 0 {
      NodesAtDepthOne(cfg, n.children.nodes);
    }
  }

  /** The source's layout is the per-depth layout as long as no node below
      the second level has children. */
  lemma {:induction false} AsWrittenAgreesWhenShallow(cfg: EncoderConfig, nodes: seq<Node>)
    requires forall i :: 0 <= i < |nodes| ==> NestedAtMost(nodes[i], 2)
    ensures EncodeNodes(cfg, nodes) == TopLevelAsWritten(cfg, nodes)
    decreases |nodes|
  {
    if |nodes| > 0 {
      TopLevelNode(cfg, nodes[0]);
      AsWrittenAgreesWhenShallow(cfg, nodes[1..]);
    }
  }
}
