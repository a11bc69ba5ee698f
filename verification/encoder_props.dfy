/** Properties of the encoder that tie it to the decoder, and the concrete
    layout the source produces for a deeply nested document. */
module EncoderProperties {
  import opened Wrappers
  import opened Text
  import opened Numbers
  import opened Escapes
  import opened Structure
  import opened Decoder
  import opened Encoder
  import opened Scanner

  predicate IsTagChar(c: char) {
    'a' <= c <= 'z' || '0' <= c <= '9' || c == '-'
  }

  /** A lower-case word with digits and hyphens, starting with a letter. */
  predicate IsTagWord(s: string) {
    |s| > 0 && 'a' <= s[0] <= 'z' && forall j :: 0 <= j < |s| ==> IsTagChar(s[j])
  }

  lemma TagWordIsBare(s: string)
    requires IsTagWord(s)
    ensures IsBareIdentifier(s)
    ensures !IsKeyword(s) ==> IsKdlIdentifier(s)
  {
    assert IsIdentifierStart(s[0]);
    assert forall i :: 1 <= i < |s| ==> IsIdentifierChar(s[i]);
    assert forall j :: 0 <= j < |s| ==> IsKdlIdentChar(s[j]);
  }

  /** Every tag the extended encoder writes is a lower-case word, so a bare
      identifier, that the default string parser reads back as the same kind. */
  lemma ExtTagsReadBack(k: ExtKind)
    ensures ExtTag(k) in StringTags && TagKind(ExtTag(k)) == Some(k)
    ensures IsTagWord(ExtTag(k)) && ReadsBackBare(ExtTag(k))
    ensures FormatIdentifier(Kdl1Escapes, ExtTag(k)) == ExtTag(k)
  {
    match k {
      case Bytes =>
      case DateTime =>
      case Date =>
      case Time =>
      case Decimal =>
      case IPv4 =>
      case IPv6 =>
      case Regex =>
      case Url =>
      case Uuid =>
    }
    TagWordIsBare(ExtTag(k));
  }

  /** A node with a bare name and nothing but children has the name as its header. */
  lemma PlainHeader(cfg: EncoderConfig, n: Node)
    requires n.nodeType.None? && n.arguments == [] && n.properties == []
    requires ReadsBackBare(n.name)
    ensures FormatHeader(cfg, n) == Success(n.name)
  {
    assert FormatArgs(cfg, []) == Success("");
    assert FormatProps(cfg, []) == Success("");
    assert "" + n.name + "" + "" == n.name;
  }

  function Leaf(name: string): Node {
    Node(name, None, [], [], NodeList([]))
  }

  function Parent(name: string, child: Node): Node {
    Node(name, None, [], [], NodeList([child]))
  }

  /** `a { b { c { d } } }`. */
  function DeepDocument(): Document {
    Document(NodeList([Parent("a", Parent("b", Parent("c", Leaf("d"))))]))
  }

  /** A lower-case letter on its own reads back as a bare identifier. */
  lemma LetterReadsBack(c: char)
    requires 'a' <= c <= 'z'
    ensures ReadsBackBare([c])
  {
    assert IsIdentifierStart(c) && IsKdlIdentChar(c);
  }

  lemma SingleLetterNames()
    ensures ReadsBackBare("a") && ReadsBackBare("b") && ReadsBackBare("c") && ReadsBackBare("d")
  {
    LetterReadsBack('a');
    LetterReadsBack('b');
    LetterReadsBack('c');
    LetterReadsBack('d');
  }

  lemma LeafAsWritten(cfg: EncoderConfig, name: string)
    requires ReadsBackBare(name)
    ensures FormatNodeAsWritten(cfg, Leaf(name), false) == Success(cfg.indent + name)
  {
    PlainHeader(cfg, Leaf(name));
  }

  lemma ParentAsWritten(cfg: EncoderConfig, name: string, child: Node, childText: string, topLevel: bool)
    requires ReadsBackBare(name)
    requires FormatNodeAsWritten(cfg, child, false) == Success(childText)
    ensures var indent := if topLevel then "" else cfg.indent;
      FormatNodeAsWritten(cfg, Parent(name, child), topLevel)
        == Success(indent + name + " {\n" + indent + childText + "\n" + indent + "}")
  {
    var indent := if topLevel then "" else cfg.indent;
    PlainHeader(cfg, Parent(name, child));
    OnlyChildAsWritten(cfg, child, childText, indent);
    WithChildrenAsWritten(cfg, Parent(name, child), topLevel, name, indent + childText + "\n");
    var head := indent + name + " {\n";
    Reassociate(head, indent + childText, "\n");
    Reassociate(head, indent, childText);
  }

  lemma WithChildrenAsWritten(cfg: EncoderConfig, n: Node, topLevel: bool, header: string, kids: string)
    requires |n.children.nodes| > 0
    requires FormatHeader(cfg, n) == Success(header)
    requires ChildrenAsWritten(cfg, n.children.nodes, if topLevel then "" else cfg.indent) == Success(kids)
    ensures var indent := if topLevel then "" else cfg.indent;
      FormatNodeAsWritten(cfg, n, topLevel) == Success(indent + header + " {\n" + kids + indent + "}")
  {
  }

  lemma OnlyChildAsWritten(cfg: EncoderConfig, child: Node, childText: string, indent: string)
    requires FormatNodeAsWritten(cfg, child, false) == Success(childText)
    ensures ChildrenAsWritten(cfg, [child], indent) == Success(indent + childText + "\n")
  {
    assert [child][1..] == [];
    assert indent + childText + "\n" + "" == indent + childText + "\n";
  }

  lemma OnlyChildAt(cfg: EncoderConfig, child: Node, childText: string, depth: nat)
    requires FormatNodeAt(cfg, child, depth) == Success(childText)
    ensures FormatChildren(cfg, [child], depth) == Success(childText + "\n")
  {
    assert [child][1..] == [];
    assert childText + "\n" + "" == childText + "\n";
  }

  lemma LeafAt(cfg: EncoderConfig, name: string, depth: nat)
    requires ReadsBackBare(name)
    ensures FormatNodeAt(cfg, Leaf(name), depth) == Success(Repeat(cfg.indent, depth) + name)
  {
    PlainHeader(cfg, Leaf(name));
  }

  lemma ParentAt(cfg: EncoderConfig, name: string, child: Node, childText: string, depth: nat)
    requires ReadsBackBare(name)
    requires FormatNodeAt(cfg, child, depth + 1) == Success(childText)
    ensures var lead := Repeat(cfg.indent, depth);
      FormatNodeAt(cfg, Parent(name, child), depth) == Success(lead + name + " {\n" + childText + "\n" + lead + "}")
  {
    var lead := Repeat(cfg.indent, depth);
    PlainHeader(cfg, Parent(name, child));
    OnlyChildAt(cfg, child, childText, depth + 1);
    assert lead + name + " {\n" + (childText + "\n") + lead + "}"
        == lead + name + " {\n" + childText + "\n" + lead + "}";
  }

  lemma TwoSpaceRepeats()
    ensures Repeat("  ", 0) == "" && Repeat("  ", 1) == "  "
    ensures Repeat("  ", 2) == "    " && Repeat("  ", 3) == "      "
  {
    assert Repeat("  ", 1) == "  " + "";
    assert Repeat("  ", 2) == "  " + "  ";
    assert Repeat("  ", 3) == "  " + "    ";
  }

  lemma SingleNodeDocumentAsWritten(cfg: EncoderConfig, n: Node, text: string)
    requires FormatNodeAsWritten(cfg, n, true) == Success(text)
    ensures EncodeAsWritten(cfg, Document(NodeList([n]))) == Success(text + "\n")
  {
    assert DocumentNodes(Document(NodeList([n]))) == [n];
    assert [n][0] == n && [n][1..] == [];
    assert TopLevelAsWritten(cfg, []) == Success("");
    assert text + "\n" + "" == text + "\n";
  }

  lemma SingleNodeDocumentAt(cfg: EncoderConfig, n: Node, text: string)
    requires FormatNodeAt(cfg, n, 0) == Success(text)
    ensures Encode(cfg, Document(NodeList([n]))) == Success(text + "\n")
  {
    assert DocumentNodes(Document(NodeList([n]))) == [n];
    assert [n][0] == n && [n][1..] == [];
    assert FormatChildren(cfg, [], 0) == Success("");
    assert text + "\n" + "" == text + "\n";
  }

  // The concatenations the layout examples rely on.

  lemma DeepTextsC()
    ensures "  " + "d" == "  d"
    ensures "  " + "c" + " {\n" + "  " + "  d" + "\n" + "  " + "}" == "  c {\n    d\n  }"
  {
  }

  lemma DeepTextsB()
    ensures "  " + "b" + " {\n" + "  " + "  c {\n    d\n  }" + "\n" + "  " + "}" == "  b {\n    c {\n    d\n  }\n  }"
  {
  }

  lemma DeepTextsA()
    ensures "" + "a" + " {\n" + "" + "  b {\n    c {\n    d\n  }\n  }" + "\n" + "" + "}" == "a {\n  b {\n    c {\n    d\n  }\n  }\n}"
  {
  }

  lemma DeepTextsDoc()
    ensures "a {\n  b {\n    c {\n    d\n  }\n  }\n}" + "\n" == "a {\n  b {\n    c {\n    d\n  }\n  }\n}\n"
  {
  }

  lemma DeepTextsCAt()
    ensures "      " + "d" == "      d"
    ensures "    " + "c" + " {\n" + "      d" + "\n" + "    " + "}" == "    c {\n      d\n    }"
  {
  }

  lemma DeepTextsBAt()
    ensures "  " + "b" + " {\n" + "    c {\n      d\n    }" + "\n" + "  " + "}" == "  b {\n    c {\n      d\n    }\n  }"
  {
  }

  lemma DeepTextsAAt()
    ensures "" + "a" + " {\n" + "  b {\n    c {\n      d\n    }\n  }" + "\n" + "" + "}" == "a {\n  b {\n    c {\n      d\n    }\n  }\n}"
  {
  }

  lemma DeepTextsDocAt()
    ensures "a {\n  b {\n    c {\n      d\n    }\n  }\n}" + "\n" == "a {\n  b {\n    c {\n      d\n    }\n  }\n}\n"
  {
  }

  lemma DeepCAsWritten(cfg: EncoderConfig)
    requires cfg.indent == "  "
    ensures FormatNodeAsWritten(cfg, Parent("c", Leaf("d")), false) == Success("  c {\n    d\n  }")
  {
    DeepTextsC();
    SingleLetterNames();
    LeafAsWritten(cfg, "d");
    ParentAsWritten(cfg, "c", Leaf("d"), "  d", false);
  }

  lemma DeepBAsWritten(cfg: EncoderConfig)
    requires cfg.indent == "  "
    ensures FormatNodeAsWritten(cfg, Parent("b", Parent("c", Leaf("d"))), false)
      == Success("  b {\n    c {\n    d\n  }\n  }")
  {
    DeepTextsB();
    SingleLetterNames();
    var cText := "  c {\n    d\n  }";
    DeepCAsWritten(cfg);
    ParentAsWritten(cfg, "b", Parent("c", Leaf("d")), cText, false);
  }

  lemma DeepAAsWritten(cfg: EncoderConfig)
    requires cfg.indent == "  "
    ensures FormatNodeAsWritten(cfg, Parent("a", Parent("b", Parent("c", Leaf("d")))), true)
      == Success("a {\n  b {\n    c {\n    d\n  }\n  }\n}")
  {
    DeepTextsA();
    SingleLetterNames();
    var bText := "  b {\n    c {\n    d\n  }\n  }";
    DeepBAsWritten(cfg);
    ParentAsWritten(cfg, "a", Parent("b", Parent("c", Leaf("d"))), bText, true);
  }

  /** With a two-space unit the source writes `d` two levels in instead of
      three and the brace closing `c` one level in instead of two. */
  lemma DeepLayoutAsWritten(cfg: EncoderConfig)
    requires cfg.indent == "  "
    ensures EncodeAsWritten(cfg, DeepDocument())
      == Success("a {\n  b {\n    c {\n    d\n  }\n  }\n}\n")
  {
    DeepTextsDoc();
    DeepAAsWritten(cfg);
    var aText := "a {\n  b {\n    c {\n    d\n  }\n  }\n}";
    SingleNodeDocumentAsWritten(cfg, Parent("a", Parent("b", Parent("c", Leaf("d")))), aText);
  }

  lemma DeepCAt(cfg: EncoderConfig)
    requires cfg.indent == "  "
    ensures FormatNodeAt(cfg, Parent("c", Leaf("d")), 2) == Success("    c {\n      d\n    }")
  {
    DeepTextsCAt();
    SingleLetterNames();
    TwoSpaceRepeats();
    LeafAt(cfg, "d", 3);
    ParentAt(cfg, "c", Leaf("d"), "      d", 2);
  }

  lemma DeepBAt(cfg: EncoderConfig)
    requires cfg.indent == "  "
    ensures FormatNodeAt(cfg, Parent("b", Parent("c", Leaf("d"))), 1)
      == Success("  b {\n    c {\n      d\n    }\n  }")
  {
    DeepTextsBAt();
    SingleLetterNames();
    TwoSpaceRepeats();
    var cText := "    c {\n      d\n    }";
    DeepCAt(cfg);
    ParentAt(cfg, "b", Parent("c", Leaf("d")), cText, 1);
  }

  lemma DeepAAt(cfg: EncoderConfig)
    requires cfg.indent == "  "
    ensures FormatNodeAt(cfg, Parent("a", Parent("b", Parent("c", Leaf("d")))), 0)
      == Success("a {\n  b {\n    c {\n      d\n    }\n  }\n}")
  {
    DeepTextsAAt();
    SingleLetterNames();
    TwoSpaceRepeats();
    var bText := "  b {\n    c {\n      d\n    }\n  }";
    DeepBAt(cfg);
    ParentAt(cfg, "a", Parent("b", Parent("c", Leaf("d"))), bText, 0);
  }

  /** The same document with every line at the indentation of its depth. */
  lemma DeepLayout(cfg: EncoderConfig)
    requires cfg.indent == "  "
    ensures Encode(cfg, DeepDocument())
      == Success("a {\n  b {\n    c {\n      d\n    }\n  }\n}\n")
  {
    DeepTextsDocAt();
    DeepAAt(cfg);
    var aText := "a {\n  b {\n    c {\n      d\n    }\n  }\n}";
    SingleNodeDocumentAt(cfg, Parent("a", Parent("b", Parent("c", Leaf("d")))), aText);
  }

  // The encoder half of `test_unordered_args_and_props`: arguments are
  // written before properties, whatever order the source text had.

  function UnorderedNode(): Node {
    Node("node", None, [Str("arg1"), Str("arg2"), Int(987)],
      [Property("prop1", Int(123)), Property("prop2", Str("foo"))], NodeList([]))
  }

  /** Lower-case letters and digits: no character KDL escapes. */
  predicate IsPlainWord(s: string) {
    forall i :: 0 <= i < |s| ==> 'a' <= s[i] <= 'z' || '0' <= s[i] <= '9'
  }

  /** With the source's default encoder, an int is written in decimal and a
      str of plain characters in quotes, unchanged. */
  lemma DefaultScalarTexts(cfg: EncoderConfig, i: int, s: string)
    requires cfg == DefaultEncoderConfig(Kdl1Escapes)
    requires IsPlainWord(s)
    ensures FormatValue(cfg, Int(i)) == Success(IntToDecimal(i))
    ensures FormatValue(cfg, Str(s)) == Success("\"" + s + "\"")
  {
    EncoderTables(Int(i), IdentFormatterOf(cfg));
    EncoderTables(Str(s), IdentFormatterOf(cfg));
    assert '\\' !in s;
    EscapeCharsIdle(Kdl1Escapes, s);
  }

  /** Two arguments are written one after the other, each after a space. */
  lemma TwoArgs(cfg: EncoderConfig, b: Value, c: Value, tb: string, tc: string)
    requires FormatValue(cfg, b) == Success(tb)
    requires FormatValue(cfg, c) == Success(tc)
    ensures FormatArgs(cfg, [b, c]) == Success(" " + tb + " " + tc)
  {
    OneArg(cfg, b, tb);
    OneArg(cfg, c, tc);
    FormatArgsAppend(cfg, [b], [c]);
    assert [b] + [c] == [b, c];
    Reassociate(" " + tb, " ", tc);
  }

  /** Three arguments are written one after the other, each after a space. */
  lemma ThreeArgs(cfg: EncoderConfig, a: Value, b: Value, c: Value, ta: string, tb: string, tc: string)
    requires FormatValue(cfg, a) == Success(ta)
    requires FormatValue(cfg, b) == Success(tb)
    requires FormatValue(cfg, c) == Success(tc)
    ensures FormatArgs(cfg, [a, b, c]) == Success(" " + ta + " " + tb + " " + tc)
  {
    OneArg(cfg, a, ta);
    TwoArgs(cfg, b, c, tb, tc);
    FormatArgsAppend(cfg, [a], [b, c]);
    assert [a] + [b, c] == [a, b, c];
    var x, y := " " + ta, " " + tb;
    Reassociate(x, y + " ", tc);
    Reassociate(x, y, " ");
    Reassociate(x, " ", tb);
  }

  /** Two properties with bare keys are written in order, each as ` key=value`. */
  lemma TwoProps(cfg: EncoderConfig, p: Property, q: Property, tp: string, tq: string)
    requires FormatValue(cfg, p.value) == Success(tp) && FormatIdentifierFor(cfg, p.key) == p.key
    requires FormatValue(cfg, q.value) == Success(tq) && FormatIdentifierFor(cfg, q.key) == q.key
    ensures FormatProps(cfg, [p, q]) == Success(" " + p.key + "=" + tp + " " + q.key + "=" + tq)
  {
    OneProp(cfg, p, tp);
    OneProp(cfg, q, tq);
    FormatPropsAppend(cfg, [p], [q]);
    assert [p] + [q] == [p, q];
    assert " " + p.key + "=" + tp + (" " + q.key + "=" + tq) == " " + p.key + "=" + tp + " " + q.key + "=" + tq;
  }

  lemma OneArg(cfg: EncoderConfig, v: Value, text: string)
    requires FormatValue(cfg, v) == Success(text)
    ensures FormatArgs(cfg, [v]) == Success(" " + text)
  {
    var piece := (x: Value) => FormatArg(cfg, x);
    assert [v][1..] == [];
    assert JoinEach([v][1..], piece) == Success("");
    JoinEachCons([v], piece);
    assert " " + text + "" == " " + text;
  }

  lemma OneProp(cfg: EncoderConfig, p: Property, text: string)
    requires FormatValue(cfg, p.value) == Success(text)
    ensures FormatProps(cfg, [p]) == Success(" " + FormatIdentifierFor(cfg, p.key) + "=" + text)
  {
    var piece := (x: Property) => FormatProp(cfg, x);
    var line := " " + FormatIdentifierFor(cfg, p.key) + "=" + text;
    assert [p][1..] == [];
    assert JoinEach([p][1..], piece) == Success("");
    JoinEachCons([p], piece);
    assert line + "" == line;
  }

  /** An exception raised by the value encoder for a node's only argument
      comes out of `encode` unchanged. */
  lemma RaisedPropagates(cfg: EncoderConfig, n: Node, v: Value, reason: string)
    requires cfg.valueEncoder(v, IdentFormatterOf(cfg)) == Some(Rendered.Raised(reason))
    requires n.arguments == [v]
    ensures FormatValue(cfg, v) == Failure(EncoderRaised(reason))
    ensures EncodeAsWritten(cfg, Document(NodeList([n]))) == Failure(EncoderRaised(reason))
  {
  }

  /** A node without children is written as its header on a line of its own. */
  lemma LeafDocumentAsWritten(cfg: EncoderConfig, n: Node, header: string)
    requires |n.children.nodes| == 0
    requires FormatHeader(cfg, n) == Success(header)
    ensures EncodeAsWritten(cfg, Document(NodeList([n]))) == Success(header + "\n")
  {
    assert FormatNodeAsWritten(cfg, n, true) == Success("" + header);
    assert "" + header == header;
    SingleNodeDocumentAsWritten(cfg, n, header);
  }

  /** `ident_re.match` accepts the names of the example node. */
  lemma UnorderedNamesBare(cfg: EncoderConfig)
    requires cfg.bareTest == IdentReMatch
    ensures FormatIdentifierFor(cfg, "node") == "node"
    ensures FormatIdentifierFor(cfg, "prop1") == "prop1"
    ensures FormatIdentifierFor(cfg, "prop2") == "prop2"
  {
    assert MatchesIdentRe("node") && !IsKeyword("node");
    assert MatchesIdentRe("prop1") && !IsKeyword("prop1");
    assert MatchesIdentRe("prop2") && !IsKeyword("prop2");
  }

  lemma UnorderedWords()
    ensures IsPlainWord("arg1") && IsPlainWord("arg2") && IsPlainWord("foo")
    ensures IntToDecimal(123) == "123" && IntToDecimal(987) == "987"
  {
    assert NatToDecimal(12) == NatToDecimal(1) + "2";
    assert NatToDecimal(98) == NatToDecimal(9) + "8";
  }

  lemma UnorderedArgsText(cfg: EncoderConfig)
    requires cfg == DefaultEncoderConfig(Kdl1Escapes)
    ensures FormatArgs(cfg, UnorderedNode().arguments) == Success(" " + ("\"" + "arg1" + "\"") + " " + ("\"" + "arg2" + "\"") + " " + "987")
  {
    UnorderedWords();
    DefaultScalarTexts(cfg, 987, "arg1");
    DefaultScalarTexts(cfg, 987, "arg2");
    ThreeArgs(cfg, Str("arg1"), Str("arg2"), Int(987), "\"" + "arg1" + "\"", "\"" + "arg2" + "\"", "987");
  }

  lemma UnorderedPropsText(cfg: EncoderConfig)
    requires cfg == DefaultEncoderConfig(Kdl1Escapes)
    ensures FormatProps(cfg, UnorderedNode().properties) == Success(" " + "prop1" + "=" + "123" + " " + "prop2" + "=" + ("\"" + "foo" + "\""))
  {
    var n := UnorderedNode();
    UnorderedWords();
    UnorderedNamesBare(cfg);
    DefaultScalarTexts(cfg, 123, "foo");
    TwoProps(cfg, n.properties[0], n.properties[1], "123", "\"" + "foo" + "\"");
  }

  lemma UnorderedArgsLine()
    ensures " " + ("\"" + "arg1" + "\"") + " " + ("\"" + "arg2" + "\"") + " " + "987" == " \"arg1\" \"arg2\" 987"
  {
    assert "\"" + "arg1" + "\"" == "\"arg1\"";
    assert "\"" + "arg2" + "\"" == "\"arg2\"";
  }

  lemma UnorderedPropsLine()
    ensures " " + "prop1" + "=" + "123" + " " + "prop2" + "=" + ("\"" + "foo" + "\"") == " prop1=123 prop2=\"foo\""
  {
    assert "\"" + "foo" + "\"" == "\"foo\"";
  }

  lemma UnorderedLine()
    ensures "" + "node" + (" " + ("\"" + "arg1" + "\"") + " " + ("\"" + "arg2" + "\"") + " " + "987") + (" " + "prop1" + "=" + "123" + " " + "prop2" + "=" + ("\"" + "foo" + "\"")) + "\n"
      == "node \"arg1\" \"arg2\" 987 prop1=123 prop2=\"foo\"\n"
  {
    UnorderedArgsLine();
    UnorderedPropsLine();
    assert "" + "node" + " \"arg1\" \"arg2\" 987" == "node \"arg1\" \"arg2\" 987";
    assert "node \"arg1\" \"arg2\" 987" + " prop1=123 prop2=\"foo\"" == "node \"arg1\" \"arg2\" 987 prop1=123 prop2=\"foo\"";
  }

  /** `dumps(loads('node prop1=123 "arg1" "arg2" prop2="foo" 987'))` with
      the source's default encoder: the arguments come first, then the
      properties, each group in its own order. */
  lemma UnorderedArgsAndPropsEncoded(cfg: EncoderConfig)
    requires cfg == DefaultEncoderConfig(Kdl1Escapes)
    ensures EncodeAsWritten(cfg, Document(NodeList([UnorderedNode()])))
      == Success("node \"arg1\" \"arg2\" 987 prop1=123 prop2=\"foo\"\n")
  {
    var n := UnorderedNode();
    UnorderedNamesBare(cfg);
    UnorderedArgsText(cfg);
    UnorderedPropsText(cfg);
    FormatHeaderText(cfg, n);
    LeafDocumentAsWritten(cfg, n, FormatHeader(cfg, n).value);
    UnorderedLine();
  }

  /** A node named `a` and a newline: the source's encoder writes the name
      bare, so the document reads back as a node `a` followed by an empty
      line; the corrected test quotes it. */
  lemma NewlineNameDocument(cfg: EncoderConfig)
    requires cfg.bareTest == IdentReMatch
    ensures EncodeAsWritten(cfg, Document(NodeList([Leaf("a\n")]))) == Success("a\n\n")
    ensures EncodeAsWritten(Corrected(cfg), Document(NodeList([Leaf("a\n")])))
         == Success(FormatString(cfg.escapes, "a\n") + "\n")
  {
    TrailingNewlineLeftBare(cfg.escapes);
    NewlineNameHeader(cfg);
    NewlineNameHeader(Corrected(cfg));
    LeafDocumentAsWritten(cfg, Leaf("a\n"), "a\n");
    assert "a\n" + "\n" == "a\n\n";
    LeafDocumentAsWritten(Corrected(cfg), Leaf("a\n"), FormatString(cfg.escapes, "a\n"));
  }

  lemma NewlineNameHeader(cfg: EncoderConfig)
    ensures FormatHeader(cfg, Leaf("a\n")) == Success(FormatIdentifierFor(cfg, "a\n"))
  {
    var n := Leaf("a\n");
    FormatHeaderText(cfg, n);
    assert FormatArgs(cfg, []) == Success("");
    assert FormatProps(cfg, []) == Success("");
    var name := FormatIdentifierFor(cfg, "a\n");
    assert "" + name + "" + "" == name;
  }
}
