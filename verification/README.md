# cuddle core in Dafny

A model of the core of cuddle, a Python library that reads and writes KDL 1.0
documents. It covers three parts:

- **The decoder** (`cuddle/decoder.py`). It walks the syntax tree the grammar
  produces and builds a `Document`.
  - Strings: raw strings are taken as they are; escaped strings are rebuilt
    from characters, named escapes and `\u{...}` code points.
  - Radix literals lose their underscores and their `0x`/`0o`/`0b` prefix,
    but keep their sign.
  - Decimal literals are split into floats and ints.
  - Every literal goes to a pluggable int, float or string factory. If the
    factory declines, the decoder uses a plain conversion or raises an error.
  - Argument and property lists are collected with `/-` elements skipped.
  - Commented nodes and commented child blocks are dropped.
- **The encoder** (`cuddle/encoder.py`). It writes a document back as KDL
  text.
  - It picks a raw or a quoted form for strings.
  - It decides whether an identifier may be written bare.
  - It renders values through a pluggable value encoder: the default
    encoder, or the extended one with its tag table.
  - It lays nodes out with indentation and braces.
- **The tree** (`cuddle/structure.py`). Node construction defaults, `node[...]`
  lookup, the refusal to iterate a node, the field selection of `repr`, and
  the `NodeList` length, truthiness and name filter.

Modules, one per file:

| file | module | contents |
|---|---|---|
| wrappers.dfy | Wrappers | `Option`, `Result` |
| text.dfy | Text | `Drop`, `Repeat`, `RemoveUnderscores` (Python's `s[k:]`, `s * n`, `s.replace("_", "")`) |
| escapes.dfy | Escapes | the named-escape table as a parameter |
| numbers.dfy | Numbers | `int(s, base)` and `int.__repr__` |
| structure.dfy | Structure | values, nodes, node lists, documents |
| ast.dfy | Ast | the grammar's syntax tree, as an input datatype |
| decoder.dfy | Decoder | the decoder |
| decoder_props.dfy | DecoderProperties | properties of the decoder |
| encoder.dfy | Encoder | the encoder, as corrected and as written |
| encoder_props.dfy | EncoderProperties | tag table and node-layout properties |
| scanner.dfy | Scanner | a reading of single KDL 1.0 value tokens, used to state round trips and by the corrected identifier test |
| roundtrip.dfy | RoundTrip | encode, then scan, then decode, gives back the input |

How the model is built:

- Factories and value encoders are function-typed fields of the
  configurations.
- A factory's `None` is `Declined`. An exception escaping a factory is
  `Raised`. Likewise, a value encoder that raises answers
  `Encoder.Rendered.Raised`, and `Encoder.FormatValue` passes that on as
  `EncoderRaised`.
- The exceptions the library itself raises, and those escaping a factory
  or a value encoder, become variants of `Decoder.DecodeError` and
  `Encoder.EncodeError`.
- A property dict is an insertion-ordered list with one entry per key.
- `isinstance` follows Python's subclassing: `bool` is an `int` and a
  `datetime` is a `date`. The order of the encoders' tests therefore matters.
- The encoder configuration carries the test that lets an identifier be
  written bare (`Encoder.BareTest`). `Encoder.MakeEncoderConfig` builds the
  source's configuration, with `ident_re.match`; `Encoder.Corrected` swaps
  in the corrected test, under which a name is bare only when it reads back
  as that KDL 1.0 identifier (`Encoder.ReadsBackBare`). Every identifier the encoder writes, tags
  and the formatter handed to value encoders included, goes through
  `Encoder.FormatIdentifierFor` with that test.
- The encoder's layout exists twice. The `...AsWritten` members
  (`Encoder.EncodeAsWritten` and below) are the source's layout; `Encoder.Encode`
  and below are the per-depth (corrected) layout. With a configuration from
  `Encoder.MakeEncoderConfig`, `Encoder.EncodeAsWritten` is the source's
  `KDLEncoder.encode` in full; `Encoder.Encode` of `Encoder.Corrected` of it
  is the encoder with every finding corrected.

## Model

| member | source | states |
|---|---|---|
| Structure.Lookup | cuddle/structure.py:52 | `properties[k]` fails exactly when no entry has key `k`, and otherwise gives the value stored under `k` |
| Structure.Put | cuddle/decoder.py:115 | after `props[k] = v`, `k` maps to `v` and every other key maps to what it did before |
| Structure.PutKeepsKeys | cuddle/decoder.py:115 | assigning to a key already present leaves the key order unchanged |
| Structure.PutAppendsNewKey | cuddle/decoder.py:115 | assigning to a new key appends it at the end |
| Structure.PutKeepsKeysUnique | cuddle/decoder.py:115 | the dict keeps one entry per key |
| Structure.MakeNode | cuddle/structure.py:7-31 | an omitted arguments, properties or children keyword gives `[]`, `{}` or an empty `NodeList`; a plain list of children is wrapped; a given `NodeList` is kept as it is |
| Structure.GetItem | cuddle/structure.py:48-52 | an int key indexes the arguments Python style, negative from the end, and fails exactly when out of range; a str key looks up the properties and fails exactly when absent; nothing else is consulted |
| Structure.IterNode | cuddle/structure.py:45-46 | iterating a node always fails with "KDL nodes are not iterable." |
| Structure.ReprFields | cuddle/structure.py:33-43 | `repr` always lists the name; it lists the type, arguments, properties and children exactly when each is truthy, and no other field |
| Structure.ReprFieldsOrdered | cuddle/structure.py:33-43 | the listed fields come in the order name, type, arguments, properties, children |
| Structure.Truthy | cuddle/structure.py:59-63 | a node list is truthy exactly when its length is positive, that is, when it holds a node |
| Structure.GetNodesByName | cuddle/structure.py:71-73 | the result holds only nodes with the name, and every node with the name as often as the list does |
| Structure.FilterNameAppend | cuddle/structure.py:71-73 | filtering distributes over concatenation, so the result keeps the list's order |
| Structure.DocumentNodes | cuddle/structure.py:80-81 | iterating a document yields its node list's nodes, in order |
| Text.RemoveUnderscoresLeavesNone | cuddle/decoder.py:69 | no underscore survives `replace("_", "")` |
| Numbers.IntToDecimalShape | cuddle/encoder.py:21 | `int.__repr__` is an optional minus followed by decimal digits, with no leading zero except for 0 itself |
| Numbers.DecimalRoundTrip | cuddle/encoder.py:97-98 | `int()` of the decimal text of an int is that int |
| Decoder.ExtendedStrParser | cuddle/decoder.py:154-182 | the default string factory declines exactly when there is no tag or the tag is not one it knows; it never raises; a known tag gives an extension value over the text, of the kind that tag names |
| Decoder.MakeDecoderConfig | cuddle/decoder.py:186-197 | each factory not given is the default one: `int(val, base)` for ints, `float(val)` for floats, `extended_str_parser` for strings |
| Decoder.ParseElems | cuddle/decoder.py:37-48 | an escaped string is its elements' characters in order; it fails exactly when an element has no character, and then with the first such element's error |
| Decoder.ParseString | cuddle/decoder.py:33-48 | a raw string decodes to its content unchanged; an escaped one as its elements |
| Decoder.StripRadixPrefix | cuddle/decoder.py:70 | stripping the prefix fails exactly on an empty literal |
| Decoder.Prepare | cuddle/decoder.py:68-96 | radix literals go to the int factory of their base with no underscore left; a decimal goes to the float factory exactly when its underscore-free text holds `.`, `e` or `E`, and otherwise to the base-10 int factory; a string goes to the string factory as its decoded text |
| Decoder.DecodeValue | cuddle/decoder.py:56-65 | `true`, `false` and `null` decode to their values whatever the annotation, and cannot fail; an unresolved-value error needs an annotation and `ignore_unknown_types` off |
| Decoder.ParseNode | cuddle/decoder.py:120-139 | an empty or commented node gives no node; otherwise the node decodes exactly when its name, its arguments and properties, its uncommented children block and its type all decode, a bad name fails with the name's error, and the node is made of their results: the decoded name and type, the arguments and properties `parse_args_and_props` collects (none without a list), and the nodes `parse_nodes` decodes from the children block (none when it is missing or commented) |
| Decoder.ParseNodes | cuddle/decoder.py:141-149 | the grammar's empty placeholder gives no nodes; an empty sequence fails as Python's `ast[0]` does; any other sequence is decoded entry by entry |
| Decoder.Decode | cuddle/decoder.py:199-209 | a grammar failure is the error "Failed to parse the document."; otherwise the document holds exactly the nodes `parse_nodes` decodes, or the decode fails with its error; an empty document decodes to no nodes |
| DecoderProperties.SanitisedRadixKeepsSign | cuddle/decoder.py:68-82 | `[sign]0<marker><digits>` loses every underscore and its two prefix characters, and keeps its sign in front of the digits |
| DecoderProperties.DefaultRadix | cuddle/decoder.py:68-82 | with the default factories an unannotated radix literal decodes to the integer its sanitised text denotes in its base |
| DecoderProperties.BinaryExample | cuddle/decoder.py:78-82 | `0b1_010` decodes to 10 |
| DecoderProperties.OctalExample | cuddle/decoder.py:73-77 | `0o12_37` decodes to 671 |
| DecoderProperties.HexExample | cuddle/decoder.py:68-72 | `0xdead_beef` decodes to 3735928559 |
| DecoderProperties.FactoryThenFallbackThenError | cuddle/decoder.py:100-106 | a factory's value is returned as it is and its exception passes through; on a decline an unannotated literal, or any literal under `ignore_unknown_types`, gets the fallback conversion of the sanitised text; otherwise the error "Failed to decode value '<raw>'." |
| DecoderProperties.DecimalSplit | cuddle/decoder.py:83-91 | with the default factories a decimal is a float exactly when its underscore-free text holds `.`, `e` or `E`; otherwise it is the base-10 int, or the factory's error when the text is no int |
| DecoderProperties.DefaultNumbersIgnoreAnnotation | cuddle/decoder.py:194-195 | with the default factories an annotation never changes how a number decodes |
| DecoderProperties.StringTagTable | cuddle/decoder.py:154-182 | the tags `extended_str_parser` knows are exactly those with a kind; `datetime` is another spelling of `date-time`; `date-time`, `date` and `base64` give a date-time, a date and bytes over the text |
| DecoderProperties.DefaultStringsAndUnresolved | cuddle/decoder.py:92-106 | with the default factories an unannotated string passes through unchanged, and a literal fails as an unresolved value exactly when it is a string whose tag `extended_str_parser` does not know |
| DecoderProperties.CollectIgnoresCommented | cuddle/decoder.py:111-113 | commented elements contribute nothing, not even their errors |
| DecoderProperties.AddElemArgs | cuddle/decoder.py:114-117 | an element is either a property, which leaves the arguments alone, or an argument, which is appended and leaves the properties alone |
| DecoderProperties.CollectArgsInOrder | cuddle/decoder.py:108-118 | the arguments are the uncommented argument values, in source order, after those collected before |
| DecoderProperties.CollectLastPropWins | cuddle/decoder.py:115 | each key holds the value of its last uncommented property, or what it held before when there is none |
| DecoderProperties.ArgsAndPropsSemantics | cuddle/decoder.py:108-118 | `parse_args_and_props` as a whole: commented elements are skipped, the arguments are the uncommented argument values in order, and each key holds the value of its last uncommented property |
| DecoderProperties.DuplicatePropertyExample | cuddle/decoder.py:115 | `node a=1 a=2` keeps `a` once, holding 2 |
| DecoderProperties.UnorderedArgsAndPropsDecoded | cuddle/decoder.py:108-118 | the elements of `node prop1=123 "arg1" "arg2" prop2="foo" 987` give the properties `prop1=123, prop2="foo"` and the arguments `"arg1", "arg2", 987`, each group in source order |
| DecoderProperties.ParseNodeSeqDropsSuppressed | cuddle/decoder.py:148-149 | empty and commented nodes are dropped without being decoded, so their errors never surface |
| DecoderProperties.ParseNodeSeqKeepsOrder | cuddle/decoder.py:148-149 | every other node entry gives exactly one node, in order |
| DecoderProperties.AllSuppressedIsEmpty | cuddle/decoder.py:120-122 | a document whose entries are all empty or commented decodes to no nodes |
| DecoderProperties.CommentedNodeExample | cuddle/decoder.py:121-122 | `/-bare 1 2 { x }` decodes to an empty document |
| DecoderProperties.GrammarFailureMessage | cuddle/decoder.py:200-203 | a grammar failure is reported as "Failed to parse the document." |
| Encoder.EscapeCharsAppend | cuddle/encoder.py:32-34 | the quoted form escapes character by character |
| Encoder.EscapeCharsIdle | cuddle/encoder.py:32-34 | a character without a named escape is copied unchanged |
| Encoder.FormatString | cuddle/encoder.py:28-35 | the raw form `r#"..."#` is used exactly when the string has a backslash and no quote; otherwise the string is quoted |
| Encoder.FormatIdentifierAsWritten | cuddle/encoder.py:37-41 | as written, an identifier is left bare exactly when `ident_re.match` accepts it and it is no keyword |
| Encoder.FormatIdentifier | cuddle/encoder.py:37-41 | corrected: an identifier is left bare exactly when the whole string matches `ident_re`, is no keyword and reads back as a KDL 1.0 bare identifier (no `( ) { } < > [ ]`, no leading digit or sign followed by a digit); otherwise it is `format_string` of it |
| Encoder.IdentifierVersionsDiffer | cuddle/encoder.py:17-19 | the two versions differ exactly on the non-keyword strings `ident_re.match` accepts that do not read back as a bare identifier, which the source leaves bare |
| Encoder.TrailingNewlineLeftBare | cuddle/encoder.py:17-19 | as written, `format_identifier("a\n")` returns `a` and a newline unquoted |
| Encoder.FormatIdentifierFor | cuddle/encoder.py:37-41 | whichever test the configuration carries, a name that reads back as a bare identifier stays bare and a changed one becomes `format_string` of it; under the source's test every bare identifier of `ident_re` that is no keyword stays bare |
| Encoder.EncoderTables | cuddle/encoder.py:92-142 | the extended encoder writes None as `null`, a bool as `true`/`false` rather than as an int, an int as its decimal text, a str as a plain string, a datetime as `date-time` rather than `date`, and each library type as a string under its tag; the default encoder knows only the first five and Decimal |
| Encoder.IndentUnit | cuddle/encoder.py:152-158 | the indent unit is a given str as it is, `n` spaces for an int `n` (none when `n` is not positive), and two spaces by default |
| Encoder.MakeEncoderConfig | cuddle/encoder.py:145-164 | the encoder uses that indent unit and the given value encoder, or the extended one when none is given; `ident_re.match` decides which identifiers stay bare |
| Encoder.FormatValue | cuddle/encoder.py:43-57 | a value fails to encode exactly when the value encoder, handed the configuration's identifier formatter, returns None (then with the value's class name) or raises (then with its exception); a plain string result is written verbatim; a pair is written as the string with its tag, if any, as a parenthesised identifier formatted by the configuration's test |
| Encoder.JoinEach | cuddle/encoder.py:70-74 | a run of pieces is written when every piece can be |
| Encoder.FormatArgs | cuddle/encoder.py:70-71 | the arguments can be written exactly when each argument value can be |
| Encoder.FormatProps | cuddle/encoder.py:73-74 | the properties can be written exactly when each property value can be |
| Encoder.FormatArgsAppend | cuddle/encoder.py:70-71 | arguments are written one after the other, in order |
| Encoder.FormatPropsAppend | cuddle/encoder.py:73-74 | properties are written one after the other, in the dict's order |
| Encoder.FormatHeader | cuddle/encoder.py:66-74 | a node's line can be written exactly when its arguments and its properties can |
| Encoder.FormatHeaderText | cuddle/encoder.py:66-74 | the line is the type in parentheses, if any, then the name, then every argument, then every property, identifiers formatted by the configuration's test: arguments always precede properties |
| Encoder.FormatNodeAt | cuddle/encoder.py:59-82 | per-depth (corrected): a node is written exactly when every value in its subtree can be |
| Encoder.NodeLayout | cuddle/encoder.py:59-82 | per-depth (corrected): a node's text starts with its depth's indentation and its header; a node without children is that line alone; a node with children opens ` {` and a new line after the header, and ends with `}` at its own indentation |
| Encoder.FormatChildren | cuddle/encoder.py:76-81 | per-depth (corrected): the children are written exactly when each can be |
| Encoder.EncodeNodes | cuddle/encoder.py:84-87 | per-depth (corrected): the top-level nodes are written exactly when each can be; no nodes give the empty text |
| Encoder.Encode | cuddle/encoder.py:166-170 | per-depth (corrected): a document is written exactly when each node can be; an empty document encodes to the empty text |
| Encoder.EncodeNodesAppend | cuddle/encoder.py:84-87 | per-depth (corrected): a document's text is its nodes' texts one after the other |
| Encoder.FormatNodeAsWritten | cuddle/encoder.py:59-82 | as written: a node is written exactly when every value in its subtree can be |
| Encoder.NodeLayoutAsWritten | cuddle/encoder.py:59-82 | as written: a node's text starts with one indent unit (none at the top level) and its header; a node without children is that line alone; a node with children opens ` {` and a new line after the header, and ends with `}` after that same indent |
| Encoder.ChildrenAsWritten | cuddle/encoder.py:76-81 | as written: the children are written exactly when each can be |
| Encoder.TopLevelAsWritten | cuddle/encoder.py:84-87 | as written: the top-level nodes are written exactly when each can be; no nodes give the empty text |
| Encoder.EncodeAsWritten | cuddle/encoder.py:166-170 | as written: a document is written exactly when each node can be; an empty document encodes to the empty text |
| Encoder.AsWrittenAgreesWhenShallow | cuddle/encoder.py:59-82 | the layout as written equals the per-depth layout when no node below the second level has children |
| EncoderProperties.ExtTagsReadBack | cuddle/encoder.py:125-142 | every tag the extended encoder writes is a bare identifier that `extended_str_parser` reads back as the same kind |
| EncoderProperties.ParentAsWritten | cuddle/encoder.py:76-82 | as written, a node's only child is preceded by the parent's own indent, and the closing brace is too |
| EncoderProperties.ParentAt | cuddle/encoder.py:76-82 | per depth, a node's only child is at the next depth and the closing brace is at the node's own depth |
| EncoderProperties.SingleNodeDocumentAt | cuddle/encoder.py:84-87 | a one-node document is the node's text and a newline |
| EncoderProperties.DeepLayoutAsWritten | cuddle/encoder.py:59-82 | as written, with a two-space unit, `a { b { c { d } } }` gives `d` only four spaces and the brace closing `c` only two |
| EncoderProperties.DeepLayout | cuddle/encoder.py:59-82 | per depth, the same document puts every line at its depth's indentation |
| EncoderProperties.UnorderedArgsAndPropsEncoded | cuddle/encoder.py:59-87 | with the source's default encoder, the node with arguments `"arg1", "arg2", 987` and properties `prop1=123, prop2="foo"` is written `node "arg1" "arg2" 987 prop1=123 prop2="foo"` and a newline |
| EncoderProperties.RaisedPropagates | cuddle/encoder.py:43-57 | an exception the value encoder raises for a node's only argument is the error of `format_value` and of the whole `encode` |
| EncoderProperties.NewlineNameDocument | cuddle/encoder.py:37-41 | the source's encoder writes a node named `a` and a newline as `a`, a newline and an empty line; with the corrected test the name is quoted |
| RoundTrip.RawRoundTrip | cuddle/encoder.py:29-30 | a string with a backslash and no quote, written as `r#"..."#`, reads back as a raw string with exactly that content: the fence cannot close early |
| RoundTrip.StringRoundTrip | cuddle/encoder.py:28-35 | `parse_string` of `format_string` of a string is the string, in both forms |
| RoundTrip.IdentifierRoundTrip | cuddle/encoder.py:37-41 | for every string, `parse_identifier` of the corrected `format_identifier` (`Encoder.FormatIdentifier`) of it is the string |
| RoundTrip.TrailingNewlineNotReadBack | cuddle/encoder.py:17-19 | the as-written identifier `a` plus newline does not read back as one identifier |
| RoundTrip.SignedDigitNotReadBack | cuddle/encoder.py:18 | as written, `format_identifier("-1")` is `-1`, which reads back as the number -1 and not as an identifier; the corrected version quotes it |
| RoundTrip.ParenthesisNotReadBack | cuddle/encoder.py:18 | as written, `format_identifier("(a")` is `(a`, which does not read back as an identifier; the corrected version quotes it |
| RoundTrip.IntRoundTrip | cuddle/encoder.py:97-98 | an int is written as decimal text that decodes to the same int |
| RoundTrip.FloatRoundTrip | cuddle/encoder.py:99-100 | a float with a plain decimal text is written as that text and decodes to the same float |
| RoundTrip.StrRoundTrip | cuddle/encoder.py:102-103 | a str is written as a string token that decodes to the same str |
| RoundTrip.ExtRoundTrip | cuddle/encoder.py:125-142 | an extension value is written as `(tag)` and its string, which decodes to the same kind and text |
| RoundTrip.ValueRoundTrip | cuddle/encoder.py:43-57 | every value the extended encoder knows is written as one token that the default decoder turns back into the same value |
| RoundTrip.OtherObjectsRefused | cuddle/encoder.py:45-48 | an object no encoder knows is refused with "Object of type <class> is not KDL serializable" |

## Behaviour of the code worth noting

The following points of the code's behaviour are easy to misread. The model
follows the code in each:

- The default int and float factories ignore the annotation and always
  convert (cuddle/decoder.py:194-195). They do not decline on unknown tags.
- The fallback conversion is applied to the sanitised text, without prefix
  or underscores (cuddle/decoder.py:104).
- The unresolved-value error names only the raw text (cuddle/decoder.py:106).
  It does not name the annotation.
- There are no factories for `null` or booleans. The keywords are decided
  before any factory is asked (cuddle/decoder.py:57-61). The upstream test
  module nevertheless imports `default_null_parser` and
  `default_bool_parser` and passes `parse_null` and `parse_bool` to the
  decoder (tests/test_upstream.py:7-19, 41-54 and 107-108); the decoder
  defines neither.
- The layout is not per-depth. `Encoder.EncodeAsWritten` and the members
  below it model what the code does; `Encoder.Encode` and the members below
  it model the per-depth layout (see Findings).

## Left out

- The grammar. `cuddle/grammar.py` is not part of this model. Its output is
  the input datatype `Ast.Parsed`. The probe for an empty document at
  cuddle/decoder.py:142-146 becomes the `NoNodes` case, and an empty node
  sequence becomes the `EmptyNodeSequence` error that Python's `ast[0]`
  raises.
- `Scanner` is a reconstruction of KDL 1.0 value tokens. It covers only the
  forms the encoder writes, and reads an annotation up to the first `)`. It
  exists to state the round trips and to decide which names the corrected
  identifier test leaves bare. Whitespace, comments and whole
  documents are not scanned.
- The "Unknown AST node!" error (cuddle/decoder.py:97-98) cannot arise: the
  literal datatype is closed.
- Floating point. A float is `Float(repr)` holding the literal's
  underscore-free text. `float(...)` and `float.__repr__` are modelled as
  keeping that text.
- The library-backed extension parsers and renderers: base64, ISO dates and
  times, `Decimal`, ip addresses, regular expressions, URLs and UUIDs. An
  extension value is `Ext(kind, payload)` with its text, so
  `Decoder.ExtendedStrParser` never raises.
- Decoder.ExtendedStrParser: never raises, weaker than the source, whose
  library parsers (base64, ISO dates and times, `Decimal`, ip addresses,
  regular expressions, URLs, UUIDs) raise on malformed text; the payload is
  kept as text instead.
- The escape table. `cuddle/_escaping.py` is not part of this model. The
  table is a parameter, constrained by `EscapeTable.Valid` in the round
  trips. `Escapes.Kdl1Escapes` is the KDL 1.0 table.
- The `regex` engine. `ident_re` is written as character predicates.
- Class identity beyond the encoders' tests:
  - The three URL result classes are one class, named "ParseResult".
  - The two pattern classes are one class, named "Pattern".
  - User subclasses of the known classes are not modelled.
- `iterencode` chunking (cuddle/encoder.py:166-174). The output is the
  concatenation of the chunks.
- An indent given as a bool. Python treats it as an int; here it is the
  caller's `IndentWidth(0)` or `IndentWidth(1)`.
- `NodeList.__iter__` and `NodeList.__getitem__` (cuddle/structure.py:65-69).
  They are plain sequence access on `NodeList.nodes`.
- `cuddle/parser.py` and `cuddle/formatter.py`. They are an older,
  superseded reader and writer.
- Decoder.ParseElems: a `\u{...}` escape naming a surrogate code point
  (U+D800 to U+DFFF) fails with `BadCodePoint`, because a Dafny `char` cannot
  hold a lone surrogate. Python's `chr` accepts those code points
  (cuddle/decoder.py:46). Above U+10FFFF both fail.
- Decoder.ParseString: an escaped string holding such a surrogate escape
  fails for the same reason; Python returns a string with the lone
  surrogate in it.
- RoundTrip.IdentifierRoundTrip: proved for the corrected
  `Encoder.FormatIdentifier`, not for the source's `format_identifier`, which
  fails to read back on `"a\n"`, `"-1"` and `"(a"` (see Findings). Reading
  back is judged by `Scanner`, a reconstruction of KDL 1.0 identifiers,
  since the grammar is not part of this model.
- RoundTrip.ValueRoundTrip: floats are covered only when their text is a
  plain KDL decimal with a fraction or an exponent. Python's float repr of
  infinities and NaN is not modelled.
- RoundTrip.FloatRoundTrip: limited to a plain decimal text, for the same
  reason.
- U+FFEF appears in both whitespace classes of `ident_re`
  (cuddle/encoder.py:18). U+FEFF, the byte order mark, was probably meant.
  It is modelled as written in `ident_re`. The corrected
  `Encoder.FormatIdentifier` quotes a name holding U+FEFF anyway, because that
  is no KDL 1.0 identifier character.

## Findings

| source | as written | input that shows it | evidently intended | confidence | as-written member | corrected member |
|---|---|---|---|---|---|---|
| cuddle/encoder.py:17-19 | `ident_re` is anchored with `$`, which in Python also matches just before a final newline, so `format_identifier` leaves an identifier that ends in a newline bare | `format_identifier("a\n")` returns `a` and a newline unquoted, and that text does not read back as the identifier | only a whole bare identifier is left unquoted; `"a\n"` is written as the string `"a\n"` | not executed | Encoder.TrailingNewlineLeftBare | Encoder.FormatIdentifier |
| cuddle/encoder.py:59-82 | a nested node yields one indent unit, and its children and closing brace are preceded only by the parent's own indent, so the indentation does not grow below the second level | `a { b { c { d } } }` with a two-space unit gives `a {\n  b {\n    c {\n    d\n  }\n  }\n}\n` | each line at its depth's indentation: `a {\n  b {\n    c {\n      d\n    }\n  }\n}\n` | not executed | EncoderProperties.DeepLayoutAsWritten | EncoderProperties.DeepLayout |
| cuddle/encoder.py:18 | the character classes of `ident_re` admit names that are no KDL 1.0 bare identifier: the first class admits a leading sign that the second lets a digit follow, the first lets `(`, `)`, `}`, `>` and `]` come first, and the second lets any of `( ) { } < > [ ]` follow | `format_identifier("-1")` returns `-1`, which reads back as the number -1; `format_identifier("(a")` returns `(a`, which opens a type annotation | a name is left bare only when it reads back as that identifier; `"-1"` and `"(a"` are written as strings | not executed | RoundTrip.SignedDigitNotReadBack | Encoder.FormatIdentifier |

For the first row:
- `Encoder.FormatIdentifierAsWritten` models the code as written. The
  source's configuration (`Encoder.MakeEncoderConfig`) uses it for every
  identifier the encoder writes; `EncoderProperties.NewlineNameDocument` shows the
  effect on a whole document.
- `Encoder.IdentifierVersionsDiffer` shows that it differs from the
  corrected `Encoder.FormatIdentifier` exactly on the names `ident_re.match`
  accepts that do not read back; a final newline is one such case.
- `RoundTrip.TrailingNewlineNotReadBack` shows that the as-written output
  fails to read back.
- `RoundTrip.IdentifierRoundTrip` proves the round trip of the corrected
  version, which `Encoder.Corrected` puts into a configuration.

For the second row:
- `Encoder.FormatNodeAsWritten` models the code as written, and
  `Encoder.EncodeAsWritten` is the whole encoder as written.
- `Encoder.FormatNodeAt` is the per-depth layout. `Encoder.Encode` uses it,
  and `Encoder.NodeLayout` proves the indentation property about it.
- `Encoder.AsWrittenAgreesWhenShallow` shows that the two agree whenever no
  node below the second level has children.

For the third row:
- `Encoder.FormatIdentifierAsWritten` models the code as written, with
  `ident_re`'s two classes as `Encoder.IsIdentifierStart` and
  `Encoder.IsIdentifierChar`.
- `RoundTrip.SignedDigitNotReadBack` shows that `-1` is left bare and reads
  back as a number; `RoundTrip.ParenthesisNotReadBack` does the same for `(a`.
- The corrected `Encoder.FormatIdentifier` writes a name bare only under
  `Encoder.ReadsBackBare`, and `RoundTrip.IdentifierRoundTrip` proves that
  every string then reads back as itself.
