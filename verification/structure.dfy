/** The in-memory tree: values, nodes, node lists and documents
    (cuddle/structure.py), with the lookup and filtering operations. */
module Structure {
  import opened Wrappers

  /** The extension types the default string parser and value encoder know. */
  datatype ExtKind = Bytes | DateTime | Date | Time | Decimal | IPv4 | IPv6 | Regex | Url | Uuid

  /** A decoded value. `Float` and `Ext` keep their text form: the IEEE
      number and the library objects behind them are not modelled. `Opaque`
      is any other object a user factory may return, known by its class name. */
  datatype Value =
    | Null
    | Bool(b: bool)
    | Int(i: int)
    | Float(repr: string)
    | Str(s: string)
    | Ext(kind: ExtKind, payload: string)
    | Opaque(className: string, payload: string)

  /** A property mapping is a Python dict: insertion-ordered, one entry per key. */
  datatype Property = Property(key: string, value: Value)
  type Props = seq<Property>

  function Keys(ps: Props): seq<string> {
    seq(|ps|, i requires 0 <= i < |ps| => ps[i].key)
  }

  predicate UniqueKeys(ps: Props) {
    forall i, j :: 0 <= i < j < |ps| ==> ps[i].key != ps[j].key
  }

  /** `d[k]` on the dict, `None` standing for the KeyError. */
  function Lookup(ps: Props, k: string): (r: Option<Value>)
    ensures r.None? <==> forall i :: 0 <= i < |ps| ==> ps[i].key != k
    ensures r.Some? ==> exists i :: 0 <= i < |ps| && ps[i] == Property(k, r.value)
  {
    if |ps| == 0 then None
    else if ps[0].key == k then Some(ps[0].value)
    else
      var r := Lookup(ps[1..], k);
      assert forall i :: 1 <= i < |ps| ==> ps[i] == ps[1..][i - 1];
      r
  }

  /** `d[k] = v`: a new key goes to the end, an existing key keeps its place. */
  function Put(ps: Props, k: string, v: Value): (r: Props)
    ensures Lookup(r, k) == Some(v)
    ensures forall k' :: k' != k ==> Lookup(r, k') == Lookup(ps, k')
  {
    if |ps| == 0 then [Property(k, v)]
    else if ps[0].key == k then [Property(k, v)] + ps[1..]
    else [ps[0]] + Put(ps[1..], k, v)
  }

  /** Where `Put` leaves the keys: in place when the key was there... */
  lemma {:induction false} PutKeepsKeys(ps: Props, k: string, v: Value)
    requires Lookup(ps, k).Some?
    ensures Keys(Put(ps, k, v)) == Keys(ps)
  {
    var r := Put(ps, k, v);
    KeysCons(ps[0], ps[1..]);
    assert ps == [ps[0]] + ps[1..];
    if ps[0].key == k {
      KeysCons(Property(k, v), ps[1..]);
    } else {
      PutKeepsKeys(ps[1..], k, v);
      KeysCons(ps[0], Put(ps[1..], k, v));
    }
  }

  lemma KeysCons(p: Property, ps: Props)
    ensures Keys([p] + ps) == [p.key] + Keys(ps)
  {
  }

  /** ...and appended at the end when it was not. */
  lemma PutAppendsNewKey(ps: Props, k: string, v: Value)
    requires Lookup(ps, k).None?
    ensures Put(ps, k, v) == ps + [Property(k, v)]
  {
    PutAbsent(ps, k, v);
  }

  lemma {:induction false} PutAbsent(ps: Props, k: string, v: Value)
    requires forall i :: 0 <= i < |ps| ==> ps[i].key != k
    ensures Put(ps, k, v) == ps + [Property(k, v)]
  {
    if |ps| > 0 {
      var tail := ps[1..];
      assert ps == [ps[0]] + tail;
      PutAbsent(tail, k, v);
      PutCons(ps[0], tail, k, v);
      assert [ps[0]] + (tail + [Property(k, v)]) == ps + [Property(k, v)];
    }
  }

  lemma PutCons(p: Property, ps: Props, k: string, v: Value)
    requires p.key != k
    ensures Put([p] + ps, k, v) == [p] + Put(ps, k, v)
  {
    assert ([p] + ps)[1..] == ps;
  }

  /** A dict keeps one entry per key. */
  lemma PutKeepsKeysUnique(ps: Props, k: string, v: Value)
    requires UniqueKeys(ps)
    ensures UniqueKeys(Put(ps, k, v))
  {
    var r := Put(ps, k, v);
    if Lookup(ps, k).Some? {
      PutKeepsKeys(ps, k, v);
      assert forall i :: 0 <= i < |r| ==> r[i].key == Keys(r)[i] == Keys(ps)[i] == ps[i].key;
    } else {
      PutAppendsNewKey(ps, k, v);
    }
  }

  datatype Node = Node(
    name: string,
    nodeType: Option<string>,
    arguments: seq<Value>,
    properties: Props,
    children: NodeList)

  datatype NodeList = NodeList(nodes: seq<Node>)

  datatype Document = Document(nodes: NodeList)

  /** What the constructor's `children` keyword may be given. */
  datatype ChildrenArg = ChildList(list: seq<Node>) | ChildNodeList(nodeList: NodeList)

  /** `Node(name, node_type, arguments=..., properties=..., children=...)`,
      each keyword `None` when omitted. */
  function MakeNode(
    name: string,
    nodeType: Option<string>,
    arguments: Option<seq<Value>>,
    properties: Option<Props>,
    children: Option<ChildrenArg>): (n: Node)
    ensures n.name == name && n.nodeType == nodeType
    ensures n.arguments == (if arguments.Some? then arguments.value else [])
    ensures n.properties == (if properties.Some? then properties.value else [])
    ensures children.None? ==> n.children == NodeList([])
    ensures children.Some? && children.value.ChildList? ==> n.children.nodes == children.value.list
    ensures children.Some? && children.value.ChildNodeList? ==> n.children == children.value.nodeList
  {
    var kids :=
      match children
      case None => NodeList([])
      case Some(ChildList(list)) => NodeList(list)
      case Some(ChildNodeList(nl)) => nl;
    Node(name, nodeType, arguments.GetOr([]), properties.GetOr([]), kids)
  }

  /** The two kinds of key `node[...]` accepts. */
  datatype Key = Index(i: int) | Name(k: string)

  datatype LookupError = IndexOutOfRange(index: int) | KeyNotFound(key: string)

  /** `node[key]`: an int indexes the arguments, Python style (negative
      indices count from the end); a str looks up the properties. */
  function GetItem(n: Node, key: Key): (r: Result<Value, LookupError>)
    ensures key.Index? ==> (r.Success? <==> -|n.arguments| <= key.i < |n.arguments|)
    ensures key.Index? && r.Success? ==>
      r.value == n.arguments[if key.i < 0 then |n.arguments| + key.i else key.i]
    ensures key.Index? && r.Failure? ==> r.error == IndexOutOfRange(key.i)
    ensures key.Name? ==> (r.Success? <==> Lookup(n.properties, key.k).Some?)
    ensures key.Name? && r.Success? ==> Some(r.value) == Lookup(n.properties, key.k)
    ensures key.Name? && r.Failure? ==> r.error == KeyNotFound(key.k)
  {
    match key
    case Index(i) =>
      var j := if i < 0 then |n.arguments| + i else i;
      if 0 <= j < |n.arguments| then Success(n.arguments[j]) else Failure(IndexOutOfRange(i))
    case Name(k) =>
      match Lookup(n.properties, k)
      case Some(v) => Success(v)
      case None => Failure(KeyNotFound(k))
  }

  const NotIterableMessage: string := "KDL nodes are not iterable."

  /** `iter(node)`: a node is never iterable, whatever it holds. */
  function IterNode(n: Node): (r: Result<seq<Value>, string>)
    ensures r.Failure? && r.error == NotIterableMessage
  {
    Failure(NotIterableMessage)
  }

  /** The fields `repr(node)` lists, in order. */
  datatype ReprField =
    | NameField(name: string)
    | TypeField(nodeType: string)
    | ArgumentsField(arguments: seq<Value>)
    | PropertiesField(properties: Props)
    | ChildrenField(children: NodeList)

  function FieldRank(f: ReprField): nat {
    match f
    case NameField(_) => 0
    case TypeField(_) => 1
    case ArgumentsField(_) => 2
    case PropertiesField(_) => 3
    case ChildrenField(_) => 4
  }

  /** Field selection of `repr(node)`: the name always, every other field
      only when it is truthy (a `""` type is falsy, like an empty list). */
  function ReprFields(n: Node): (r: seq<ReprField>)
    ensures |r| >= 1 && r[0] == NameField(n.name)
    ensures TypeField(n.nodeType.GetOr("")) in r <==> n.nodeType.Some? && n.nodeType.value != ""
    ensures ArgumentsField(n.arguments) in r <==> |n.arguments| > 0
    ensures PropertiesField(n.properties) in r <==> |n.properties| > 0
    ensures ChildrenField(n.children) in r <==> Truthy(n.children)
    ensures forall f :: f in r ==> f in [NameField(n.name), TypeField(n.nodeType.GetOr("")),
      ArgumentsField(n.arguments), PropertiesField(n.properties), ChildrenField(n.children)]
  {
    var ty := if n.nodeType.Some? && n.nodeType.value != "" then [TypeField(n.nodeType.value)] else [];
    var args := if |n.arguments| > 0 then [ArgumentsField(n.arguments)] else [];
    var props := if |n.properties| > 0 then [PropertiesField(n.properties)] else [];
    var kids := if Truthy(n.children) then [ChildrenField(n.children)] else [];
    [NameField(n.name)] + ty + args + props + kids
  }

  predicate RanksBelow(r: seq<ReprField>, bound: nat) {
    forall i :: 0 <= i < |r| ==> FieldRank(r[i]) < bound
  }

  predicate RanksIncrease(r: seq<ReprField>) {
    forall i, j :: 0 <= i < j < |r| ==> FieldRank(r[i]) < FieldRank(r[j])
  }

  lemma AppendHigherRank(r: seq<ReprField>, extra: seq<ReprField>, bound: nat)
    requires RanksIncrease(r) && RanksBelow(r, bound)
    requires |extra| <= 1 && forall i :: 0 <= i < |extra| ==> FieldRank(extra[i]) == bound
    ensures RanksIncrease(r + extra) && RanksBelow(r + extra, bound + 1)
  {
  }

  /** The listed fields come in the fixed order name, type, arguments,
      properties, children. */
  lemma ReprFieldsOrdered(n: Node)
    ensures RanksIncrease(ReprFields(n))
  {
    var r0: seq<ReprField> := [NameField(n.name)];
    var r1 := r0 + (if n.nodeType.Some? && n.nodeType.value != "" then [TypeField(n.nodeType.value)] else []);
    var r2 := r1 + (if |n.arguments| > 0 then [ArgumentsField(n.arguments)] else []);
    var r3 := r2 + (if |n.properties| > 0 then [PropertiesField(n.properties)] else []);
    var r4 := r3 + (if Truthy(n.children) then [ChildrenField(n.children)] else []);
    AppendHigherRank(r0, r1[1..], 1);
    assert r1 == r0 + r1[1..];
    AppendHigherRank(r1, r2[|r1|..], 2);
    assert r2 == r1 + r2[|r1|..];
    AppendHigherRank(r2, r3[|r2|..], 3);
    assert r3 == r2 + r3[|r2|..];
    AppendHigherRank(r3, r4[|r3|..], 4);
    assert r4 == r3 + r4[|r3|..];
    assert r4 == ReprFields(n);
  }

  /** `len(node_list)`. */
  function Len(nl: NodeList): nat {
    |nl.nodes|
  }

  /** `bool(node_list)`. */
  predicate Truthy(nl: NodeList)
    ensures Truthy(nl) <==> Len(nl) > 0 && nl.nodes != []
  {
    Len(nl) > 0
  }

  /** `node_list.get_nodes_by_name(name)`: the nodes so named, in order. */
  function GetNodesByName(nl: NodeList, name: string): (r: seq<Node>)
    ensures forall n :: n in r ==> n.name == name
    ensures forall n :: multiset(r)[n] == (if n.name == name then multiset(nl.nodes)[n] else 0)
    ensures |r| <= Len(nl)
  {
    FilterName(nl.nodes, name)
  }

  function FilterName(ns: seq<Node>, name: string): (r: seq<Node>)
    ensures forall n :: n in r ==> n.name == name
    ensures forall n :: multiset(r)[n] == (if n.name == name then multiset(ns)[n] else 0)
    ensures |r| <= |ns|
  {
    if |ns| == 0 then []
    else
      var rest := FilterName(ns[1..], name);
      assert ns == [ns[0]] + ns[1..];
      if ns[0].name == name then [ns[0]] + rest else rest
  }

  /** Filtering distributes over concatenation, so it keeps the order of the
      list: a node before another in the result was before it in the list. */
  lemma {:induction false} FilterNameAppend(a: seq<Node>, b: seq<Node>, name: string)
    ensures FilterName(a + b, name) == FilterName(a, name) + FilterName(b, name)
  {
    if |a| == 0 {
      assert a + b == b;
    } else {
      assert (a + b)[1..] == a[1..] + b;
      FilterNameAppend(a[1..], b, name);
    }
  }

  /** `iter(document)`: the nodes of its node list. */
  function DocumentNodes(d: Document): (r: seq<Node>)
    ensures |r| == Len(d.nodes)
    ensures forall i :: 0 <= i < |r| ==> r[i] == d.nodes.nodes[i]
  {
    d.nodes.nodes
  }
}
