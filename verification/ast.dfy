/** The syntax tree the grammar hands to the decoder. The grammar itself
    (cuddle/grammar.py) is not part of this model: its output is this input
    datatype, one constructor per grammar rule the decoder inspects. */
module Ast {
  import opened Wrappers

  /** An escape inside a quoted string: a named one (`\n`) or a code point
      given in hex. */
  datatype Escape = Named(name: char) | Unichar(hex: string)

  datatype StrElem = Char(c: char) | Esc(escape: Escape)

  /** `escstring` holds the elements between the quotes; `rawstring` holds
      the text between the hash fences. */
  datatype StringAst = EscString(elems: seq<StrElem>) | RawString(content: string)

  /** `bare` characters, or a quoted or raw string. */
  datatype IdentAst = Bare(chars: string) | Quoted(str: StringAst)

  /** The literal under a `value` rule; radix and decimal literals keep
      their source text, underscores and prefix included. */
  datatype Literal =
    | Hex(hexText: string)
    | Octal(octText: string)
    | Binary(binText: string)
    | DecimalLit(decText: string)
    | StringLit(str: StringAst)
    | BooleanLit(boolText: string)
    | NullLit

  /** A literal with its optional `(type)` annotation. */
  datatype ValueAst = ValueAst(valueType: Option<IdentAst>, lit: Literal)

  /** One element of `args_and_props`: a `prop` or a plain argument, either
      of them possibly `/-` commented. */
  datatype ElemBody = ArgBody(value: ValueAst) | PropBody(name: IdentAst, value: ValueAst)
  datatype ArgOrProp = ArgOrProp(commented: bool, body: ElemBody)

  /** A `node` rule. `EmptyNode` is the zero-length match the grammar can
      produce between separators. */
  datatype NodeAst =
    | EmptyNode
    | NodeEntry(
        commented: bool,
        nodeType: Option<IdentAst>,
        name: IdentAst,
        argsAndProps: Option<seq<ArgOrProp>>,
        children: Option<ChildrenAst>)

  /** A `{ ... }` block, itself possibly `/-` commented. */
  datatype ChildrenAst = ChildrenAst(commented: bool, nodes: NodesAst)

  /** The node sequence of a document or a children block. `NoNodes` is the
      placeholder the grammar produces for an empty document or block. */
  datatype NodesAst = NoNodes | Nodes(items: seq<NodeAst>)

  /** What the grammar returns for a whole document. */
  datatype Parsed = Parsed(ast: NodesAst) | GrammarFailure
}
