/** The decoder (cuddle/decoder.py): from the grammar's syntax tree to a
    document, through pluggable value factories. */
module Decoder {
  import opened Wrappers
  import opened Text
  import opened Numbers
  import opened Escapes
  import opened Structure
  import opened Ast

  /** Everything decoding can raise. Only `SyntaxError` and
      `UnresolvedValue` are KDLDecodeError; the others are the ValueError,
      KeyError and IndexError the Python code lets escape. */
  datatype DecodeError =
    | SyntaxError
    | UnresolvedValue(raw: string)
    | MalformedInteger(text: string, base: nat)
    | UnknownEscape(name: char)
    | BadCodePoint(hex: string)
    | EmptyRadixLiteral
    | EmptyNodeSequence
    | FactoryError(reason: string)

  function InvalidIntMessage(text: string, base: nat): string {
    "invalid literal for int() with base " + IntToDecimal(base) + ": '" + text + "'"
  }

  function Message(e: DecodeError): string {
    match e
    case SyntaxError => "Failed to parse the document."
    case UnresolvedValue(raw) => "Failed to decode value '" + raw + "'."
    case MalformedInteger(text, base) => InvalidIntMessage(text, base)
    case UnknownEscape(name) => [name]
    case BadCodePoint(hex) => "invalid code point " + hex
    case EmptyRadixLiteral => "string index out of range"
    case EmptyNodeSequence => "list index out of range"
    case FactoryError(reason) => reason
  }

  /** A factory's answer: a value, `None` (declined), or an exception. */
  datatype Answer = Converted(value: Value) | Declined | Raised(reason: string)

  type IntFactory = (Option<string>, string, nat) -> Answer
  type FloatFactory = (Option<string>, string) -> Answer
  type StrFactory = (Option<string>, string) -> Answer

  datatype DecoderConfig = DecoderConfig(
    parseInt: IntFactory,
    parseFloat: FloatFactory,
    parseStr: StrFactory,
    ignoreUnknownTypes: bool,
    escapes: EscapeTable)

  /** The default int factory: `int(val, base=base)`, annotation ignored. */
  function DefaultIntFactory(valueType: Option<string>, text: string, base: nat): Answer {
    match ParseInt(text, base)
    case Some(i) => Converted(Int(i))
    case None => Raised(InvalidIntMessage(text, base))
  }

  /** The default float factory: `float(val)`, annotation ignored. */
  function DefaultFloatFactory(valueType: Option<string>, text: string): Answer {
    Converted(Float(text))
  }

  const StringTags: set<string> :=
    {"base64", "date-time", "datetime", "date", "time", "decimal", "ipv4", "ipv6", "regex", "url", "uuid"}

  function TagKind(tag: string): Option<ExtKind> {
    if tag == "base64" then Some(Bytes)
    else if tag == "date-time" || tag == "datetime" then Some(DateTime)
    else if tag == "date" then Some(Date)
    else if tag == "time" then Some(Time)
    else if tag == "decimal" then Some(Decimal)
    else if tag == "ipv4" then Some(IPv4)
    else if tag == "ipv6" then Some(IPv6)
    else if tag == "regex" then Some(Regex)
    else if tag == "url" then Some(Url)
    else if tag == "uuid" then Some(Uuid)
    else None
  }

  /** `extended_str_parser`, the default string factory: a recognised tag
      converts the text to its extension type, anything else (no tag
      included) declines. */
  function ExtendedStrParser(valueType: Option<string>, text: string): (a: Answer)
    ensures a.Declined? <==> valueType.None? || valueType.value !in StringTags
    ensures a.Converted? ==> a.value.Ext? && a.value.payload == text
    ensures a.Converted? ==> TagKind(valueType.value) == Some(a.value.kind)
    ensures !a.Raised?
  {
    if valueType.None? then Declined
    else
      match TagKind(valueType.value)
      case Some(kind) => Converted(Ext(kind, text))
      case None => Declined
  }

  /** `KDLDecoder(parse_int=..., parse_float=..., parse_str=...,
      ignore_unknown_types=...)`: each factory not given is the default. */
  function MakeDecoderConfig(
    parseInt: Option<IntFactory>,
    parseFloat: Option<FloatFactory>,
    parseStr: Option<StrFactory>,
    ignoreUnknownTypes: bool,
    escapes: EscapeTable): (cfg: DecoderConfig)
    ensures forall t, s, b :: (cfg.parseInt(t, s, b) ==
      if parseInt.Some? then parseInt.value(t, s, b) else DefaultIntFactory(t, s, b))
    ensures forall t, s :: (cfg.parseFloat(t, s) ==
      if parseFloat.Some? then parseFloat.value(t, s) else DefaultFloatFactory(t, s))
    ensures forall t, s :: (cfg.parseStr(t, s) ==
      if parseStr.Some? then parseStr.value(t, s) else ExtendedStrParser(t, s))
    ensures cfg.ignoreUnknownTypes == ignoreUnknownTypes && cfg.escapes == escapes
  {
    DecoderConfig(
      if parseInt.Some? then parseInt.value else DefaultIntFactory,
      if parseFloat.Some? then parseFloat.value else DefaultFloatFactory,
      if parseStr.Some? then parseStr.value else ExtendedStrParser,
      ignoreUnknownTypes,
      escapes)
  }

  function DefaultDecoderConfig(escapes: EscapeTable): DecoderConfig {
    MakeDecoderConfig(None, None, None, false, escapes)
  }

  // ---------------------------------------------------------------- strings

  predicate IsScalar(cp: int) {
    (0 <= cp < 0xD800) || (0xE000 <= cp < 0x11_0000)
  }

  /** The character one string element stands for. */
  function ElemChar(t: EscapeTable, e: StrElem): Result<char, DecodeError> {
    match e
    case Char(c) => Success(c)
    case Esc(Named(n)) => if n in t.named then Success(t.named[n]) else Failure(UnknownEscape(n))
    case Esc(Unichar(h)) =>
      match ParseInt(h, 16)
      case Some(cp) => if IsScalar(cp) then Success(cp as char) else Failure(BadCodePoint(h))
      case None => Failure(BadCodePoint(h))
  }

  /** The loop over `escstring`: the element characters in order, or the
      error of the first element that has none. */
  function ParseElems(t: EscapeTable, elems: seq<StrElem>): (r: Result<string, DecodeError>)
    ensures r.Success? <==> forall i :: 0 <= i < |elems| ==> ElemChar(t, elems[i]).Success?
    ensures r.Success? ==> |r.value| == |elems|
    ensures r.Success? ==> forall i :: 0 <= i < |elems| ==> ElemChar(t, elems[i]) == Success(r.value[i])
    ensures r.Failure? ==> exists i :: (0 <= i < |elems| && ElemChar(t, elems[i]) == Failure(r.error)
      && forall j :: 0 <= j < i ==> ElemChar(t, elems[j]).Success?)
  {
    if |elems| == 0 then Success("")
    else
      match ElemChar(t, elems[0])
      case Failure(e) => Failure(e)
      case Success(c) =>
        var rest := ParseElems(t, elems[1..]);
        assert forall i :: 1 <= i < |elems| ==> elems[i] == elems[1..][i - 1];
        match rest
        case Failure(e) =>
          ghost var i :| 0 <= i < |elems[1..]| && ElemChar(t, elems[1..][i]) == Failure(e)
            && forall j :: 0 <= j < i ==> ElemChar(t, elems[1..][j]).Success?;
          assert ElemChar(t, elems[i + 1]) == Failure(e);
          Failure(e)
        case Success(s) => Success([c] + s)
  }

  /** `parse_string`: raw strings verbatim, escaped strings rebuilt. */
  function ParseString(t: EscapeTable, ast: StringAst): (r: Result<string, DecodeError>)
    ensures ast.RawString? ==> r == Success(ast.content)
    ensures ast.EscString? ==> r == ParseElems(t, ast.elems)
  {
    match ast
    case RawString(content) => Success(content)
    case EscString(elems) => ParseElems(t, elems)
  }

  /** `parse_identifier`. */
  function ParseIdentifier(t: EscapeTable, ast: IdentAst): Result<string, DecodeError> {
    match ast
    case Bare(chars) => Success(chars)
    case Quoted(s) => ParseString(t, s)
  }

  function ParseType(t: EscapeTable, ast: Option<IdentAst>): Result<Option<string>, DecodeError> {
    match ast
    case None => Success(None)
    case Some(id) =>
      var name :- ParseIdentifier(t, id);
      Success(Some(name))
  }

  // ----------------------------------------------------------------- values

  /** Which factory a literal goes to. */
  datatype Kind = IntKind(base: nat) | FloatKind | StrKind

  /** A literal ready for dispatch: `raw` is named in the error message,
      `sanitised` is handed to the factory and the fallback. */
  datatype Dispatch = Dispatch(kind: Kind, raw: string, sanitised: string)

  /** Drops the two radix prefix characters, keeping a sign in front of them. */
  function StripRadixPrefix(raw: string): (r: Result<string, DecodeError>)
    ensures r.Failure? <==> |raw| == 0
  {
    if |raw| == 0 then Failure(EmptyRadixLiteral)
    else if raw[0] != '0' then Success([raw[0]] + Drop(raw, 3))
    else Success(Drop(raw, 2))
  }

  function PrepareRadix(text: string, base: nat): Result<Dispatch, DecodeError> {
    var raw := RemoveUnderscores(text);
    var sanitised :- StripRadixPrefix(raw);
    Success(Dispatch(IntKind(base), raw, sanitised))
  }

  predicate IsFloatText(s: string) {
    '.' in s || 'e' in s || 'E' in s
  }

  /** The literal handling of `parse_value` below the keyword checks. */
  function Prepare(t: EscapeTable, lit: Literal): (r: Result<Dispatch, DecodeError>)
    requires !lit.BooleanLit? && !lit.NullLit?
    ensures lit.Hex? && r.Success? ==> r.value.kind == IntKind(16) && '_' !in r.value.sanitised
    ensures lit.Octal? && r.Success? ==> r.value.kind == IntKind(8) && '_' !in r.value.sanitised
    ensures lit.Binary? && r.Success? ==> r.value.kind == IntKind(2) && '_' !in r.value.sanitised
    ensures lit.DecimalLit? ==> (r.Success? && '_' !in r.value.raw
      && r.value.raw == RemoveUnderscores(lit.decText) && r.value.sanitised == r.value.raw
      && (r.value.kind == FloatKind <==> exists i :: 0 <= i < |r.value.raw| && r.value.raw[i] in ".eE")
      && (r.value.kind != FloatKind ==> r.value.kind == IntKind(10)))
    ensures lit.StringLit? ==> (r.Success? <==> ParseString(t, lit.str).Success?)
    ensures lit.StringLit? && r.Success? ==> r.value == Dispatch(StrKind, ParseString(t, lit.str).value, ParseString(t, lit.str).value)
  {
    match lit
    case Hex(x) => RemoveUnderscoresLeavesNone(x); PrepareRadix(x, 16)
    case Octal(x) => RemoveUnderscoresLeavesNone(x); PrepareRadix(x, 8)
    case Binary(x) => RemoveUnderscoresLeavesNone(x); PrepareRadix(x, 2)
    case DecimalLit(x) =>
      var raw := RemoveUnderscores(x);
      RemoveUnderscoresLeavesNone(x);
      Success(Dispatch(if IsFloatText(raw) then FloatKind else IntKind(10), raw, raw))
    case StringLit(s) =>
      var raw :- ParseString(t, s);
      Success(Dispatch(StrKind, raw, raw))
  }

  /** The factory for the literal's kind. */
  function Ask(cfg: DecoderConfig, kind: Kind, valueType: Option<string>, text: string): Answer {
    match kind
    case IntKind(base) => cfg.parseInt(valueType, text, base)
    case FloatKind => cfg.parseFloat(valueType, text)
    case StrKind => cfg.parseStr(valueType, text)
  }

  /** The plain conversion used when the factory declines. */
  function Fallback(kind: Kind, text: string): Result<Value, DecodeError> {
    match kind
    case IntKind(base) =>
      (match ParseInt(text, base)
       case Some(i) => Success(Int(i))
       case None => Failure(MalformedInteger(text, base)))
    case FloatKind => Success(Float(text))
    case StrKind => Success(Str(text))
  }

  function Resolve(cfg: DecoderConfig, valueType: Option<string>, d: Dispatch): Result<Value, DecodeError> {
    match Ask(cfg, d.kind, valueType, d.sanitised)
    case Converted(v) => Success(v)
    case Raised(reason) => Failure(FactoryError(reason))
    case Declined =>
      if valueType.None? || cfg.ignoreUnknownTypes then Fallback(d.kind, d.sanitised)
      else Failure(UnresolvedValue(d.raw))
  }

  /** `parse_value`. Keywords are decided before the annotation is read. */
  function DecodeValue(cfg: DecoderConfig, ast: ValueAst): (r: Result<Value, DecodeError>)
    ensures ast.lit.BooleanLit? ==> r == Success(Bool(ast.lit.boolText == "true"))
    ensures ast.lit.NullLit? ==> r == Success(Null)
    ensures r.Failure? && r.error.UnresolvedValue? ==>
      ast.valueType.Some? && !cfg.ignoreUnknownTypes
  {
    if ast.lit.BooleanLit? then Success(Bool(ast.lit.boolText == "true"))
    else if ast.lit.NullLit? then Success(Null)
    else
      var valueType :- ParseType(cfg.escapes, ast.valueType);
      var d :- Prepare(cfg.escapes, ast.lit);
      Resolve(cfg, valueType, d)
  }

  // ------------------------------------------------- arguments and properties

  /** One uncommented element of `parse_args_and_props`: a property is
      stored under its key (Python evaluates the assigned value before the
      subscript key), an argument is appended. */
  function AddElem(cfg: DecoderConfig, body: ElemBody, props: Props, args: seq<Value>)
    : Result<(Props, seq<Value>), DecodeError>
  {
    match body
    case PropBody(name, value) =>
      var v :- DecodeValue(cfg, value);
      var k :- ParseIdentifier(cfg.escapes, name);
      Success((Put(props, k, v), args))
    case ArgBody(value) =>
      var v :- DecodeValue(cfg, value);
      Success((props, args + [v]))
  }

  /** The loop of `parse_args_and_props`, with the dict and list built so far. */
  function CollectArgsAndProps(cfg: DecoderConfig, elems: seq<ArgOrProp>, props: Props, args: seq<Value>)
    : Result<(Props, seq<Value>), DecodeError>
    decreases |elems|
  {
    if |elems| == 0 then Success((props, args))
    else if elems[0].commented then CollectArgsAndProps(cfg, elems[1..], props, args)
    else
      var acc :- AddElem(cfg, elems[0].body, props, args);
      CollectArgsAndProps(cfg, elems[1..], acc.0, acc.1)
  }

  /** `parse_args_and_props`: the properties and the arguments. */
  function ParseArgsAndProps(cfg: DecoderConfig, elems: seq<ArgOrProp>): Result<(Props, seq<Value>), DecodeError> {
    CollectArgsAndProps(cfg, elems, [], [])
  }

  // ------------------------------------------------------------------ nodes

  /** A node that yields no `Node`: the empty match or a `/-` commented one. */
  predicate Suppressed(ast: NodeAst) {
    ast.EmptyNode? || ast.commented
  }

  /** A node with a children block that is present and not `/-` commented. */
  predicate LiveChildren(ast: NodeAst) {
    ast.NodeEntry? && ast.children.Some? && !ast.children.value.commented
  }

  /** `parse_node`: a node that is not suppressed decodes exactly when its
      name, its arguments and properties, its live children and its type
      all decode, and then the node is made of what they decode to. */
  function ParseNode(cfg: DecoderConfig, ast: NodeAst): (r: Result<Option<Node>, DecodeError>)
    ensures Suppressed(ast) ==> r == Success(None)
    ensures !Suppressed(ast) ==>
      (r.Success? <==>
        && ParseIdentifier(cfg.escapes, ast.name).Success?
        && (ast.argsAndProps.Some? ==> ParseArgsAndProps(cfg, ast.argsAndProps.value).Success?)
        && (LiveChildren(ast) ==> ParseNodes(cfg, ast.children.value.nodes).Success?)
        && ParseType(cfg.escapes, ast.nodeType).Success?)
    ensures !Suppressed(ast) && ParseIdentifier(cfg.escapes, ast.name).Failure? ==>
      r == Failure(ParseIdentifier(cfg.escapes, ast.name).error)
    ensures !Suppressed(ast) && r.Success? ==> r.value.Some?
    ensures !Suppressed(ast) && r.Success? ==>
      ParseIdentifier(cfg.escapes, ast.name) == Success(r.value.value.name)
    ensures !Suppressed(ast) && r.Success? && ast.argsAndProps.Some? ==>
      ParseArgsAndProps(cfg, ast.argsAndProps.value)
        == Success((r.value.value.properties, r.value.value.arguments))
    ensures !Suppressed(ast) && r.Success? && ast.argsAndProps.None? ==>
      r.value.value.arguments == [] && r.value.value.properties == []
    ensures !Suppressed(ast) && r.Success? && LiveChildren(ast) ==>
      ParseNodes(cfg, ast.children.value.nodes) == Success(r.value.value.children.nodes)
    ensures !Suppressed(ast) && r.Success? && !LiveChildren(ast) ==>
      r.value.value.children == NodeList([])
    ensures !Suppressed(ast) && r.Success? ==>
      ParseType(cfg.escapes, ast.nodeType) == Success(r.value.value.nodeType)
    decreases ast, 0
  {
    if ast.EmptyNode? || ast.commented then Success(None)
    else
      var name :- ParseIdentifier(cfg.escapes, ast.name);
      var pa :- if ast.argsAndProps.Some? then ParseArgsAndProps(cfg, ast.argsAndProps.value) else Success(([], []));
      var children :-
        if ast.children.Some? && !ast.children.value.commented then ParseNodes(cfg, ast.children.value.nodes)
        else Success([]);
      var nodeType :- ParseType(cfg.escapes, ast.nodeType);
      Success(Some(Node(name, nodeType, pa.1, pa.0, NodeList(children))))
  }

  /** `parse_nodes`: the empty placeholder gives no nodes. */
  function ParseNodes(cfg: DecoderConfig, nodes: NodesAst): (r: Result<seq<Node>, DecodeError>)
    ensures nodes.NoNodes? ==> r == Success([])
    ensures nodes.Nodes? && |nodes.items| == 0 ==> r == Failure(EmptyNodeSequence)
    ensures nodes.Nodes? && |nodes.items| > 0 ==> r == ParseNodeSeq(cfg, nodes.items)
    decreases nodes, 1
  {
    match nodes
    case NoNodes => Success([])
    case Nodes(items) =>
      if |items| == 0 then Failure(EmptyNodeSequence) else ParseNodeSeq(cfg, items)
  }

  /** `list(filter(None, map(parse_node, ast)))`. */
  function ParseNodeSeq(cfg: DecoderConfig, items: seq<NodeAst>): Result<seq<Node>, DecodeError>
    decreases items, 0
  {
    if |items| == 0 then Success([])
    else
      var first :- ParseNode(cfg, items[0]);
      var rest :- ParseNodeSeq(cfg, items[1..]);
      Success((if first.Some? then [first.value] else []) + rest)
  }

  /** `KDLDecoder.decode` on the grammar's outcome. */
  function Decode(cfg: DecoderConfig, parsed: Parsed): (r: Result<Document, DecodeError>)
    ensures parsed.GrammarFailure? ==> r == Failure(SyntaxError)
    ensures parsed.Parsed? && parsed.ast.NoNodes? ==> r == Success(Document(NodeList([])))
    ensures parsed.Parsed? ==>
      match ParseNodes(cfg, parsed.ast)
      case Success(nodes) => r == Success(Document(NodeList(nodes)))
      case Failure(e) => r == Failure(e)
  {
    match parsed
    case GrammarFailure => Failure(SyntaxError)
    case Parsed(ast) =>
      var nodes :- ParseNodes(cfg, ast);
      Success(Document(NodeList(nodes)))
  }
}
