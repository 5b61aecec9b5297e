// The JSON codec of KPI trees and of MPU definitions, over JSON values instead of text.
module KpiCodec {
  import opened Wrappers

  datatype JSON =
    | JNull
    | JBool(b: bool)
    | JNumber(x: real)
    | JString(s: string)
    | JArray(items: seq<JSON>)
    | JObject(fields: map<string, JSON>)

  /** What decoding gives: a value, an error, or the panic on an unknown node type or a missing object. */
  datatype Outcome<+T> = Ok(value: T) | Err | Panic

  type Uint32 = n: int | 0 <= n < 0x1_0000_0000

  // ---------------------------------------------------------------- nodes and their types

  datatype Equality = EQ | NEQ
  datatype Comparison = Equal | NotEqual | Greater | GreaterOrEqual | Less | LessOrEqual
  datatype ValueKind = OfString | OfBoolean | OfNumber

  datatype NodeType =
    | StringAtomType(equality: Equality)
    | BooleanAtomType(equality: Equality)
    | NumericAtomType(comparison: Comparison)
    | ExistenceType(kind: ValueKind, exists_: bool)
    | LogicalType

  datatype Parameter = Parameter(id: Uint32, specification: string)

  datatype KPINode =
    | StringAtom(equality: Equality, parameter: Parameter, text: string)
    | BooleanAtom(equality: Equality, parameter: Parameter, flag: bool)
    | NumericAtom(comparison: Comparison, parameter: Parameter, number: real)
    | Existence(kind: ValueKind, exists_: bool, parameter: Parameter)
    | LogicalOperation(operation: string, children: Children)

  /** An element of a slice of nodes, which can be nil. */
  datatype Child = NilNode | Child(node: KPINode)

  /** A slice of nodes: nil, or allocated and possibly empty. */
  datatype Children = Unallocated | Allocated(nodes: seq<Child>)

  /** The constants of KPINodeType. */
  function Discriminator(t: NodeType): string {
    match t
    case StringAtomType(EQ) => "string_eq_atom"
    case StringAtomType(NEQ) => "string_neq_atom"
    case BooleanAtomType(EQ) => "boolean_eq_atom"
    case BooleanAtomType(NEQ) => "boolean_neq_atom"
    case NumericAtomType(Equal) => "numeric_eq_atom"
    case NumericAtomType(NotEqual) => "numeric_neq_atom"
    case NumericAtomType(Greater) => "numeric_gt_atom"
    case NumericAtomType(GreaterOrEqual) => "numeric_geq_atom"
    case NumericAtomType(Less) => "numeric_lt_atom"
    case NumericAtomType(LessOrEqual) => "numeric_leq_atom"
    case ExistenceType(OfString, true) => "string_exists_atom"
    case ExistenceType(OfString, false) => "string_not_exists_atom"
    case ExistenceType(OfBoolean, true) => "boolean_exists_atom"
    case ExistenceType(OfBoolean, false) => "boolean_not_exists_atom"
    case ExistenceType(OfNumber, true) => "numeric_exists_atom"
    case ExistenceType(OfNumber, false) => "numeric_not_exists_atom"
    case LogicalType => "logical_operation"
  }

  const NODE_TYPES: seq<NodeType> :=
    [StringAtomType(EQ), StringAtomType(NEQ), ExistenceType(OfString, true), ExistenceType(OfString, false),
     BooleanAtomType(EQ), BooleanAtomType(NEQ), ExistenceType(OfBoolean, true), ExistenceType(OfBoolean, false),
     NumericAtomType(Equal), NumericAtomType(NotEqual), NumericAtomType(Greater), NumericAtomType(GreaterOrEqual),
     NumericAtomType(Less), NumericAtomType(LessOrEqual), ExistenceType(OfNumber, true), ExistenceType(OfNumber, false),
     LogicalType]

  /** The switch of getKPINode over the constants; None is its panic. */
  function FindType(name: string, types: seq<NodeType>): Option<NodeType> {
    if types == [] then None else if name == Discriminator(types[0]) then Some(types[0]) else FindType(name, types[1..])
  }

  function NodeTypeOf(name: string): Option<NodeType> { FindType(name, NODE_TYPES) }

  /** Length, first and ninth character tell the constants apart. */
  function Traits(t: NodeType): (int, char, char) {
    match t
    case StringAtomType(EQ) => (14, 's', 'q')
    case StringAtomType(NEQ) => (15, 's', 'e')
    case BooleanAtomType(EQ) => (15, 'b', 'e')
    case BooleanAtomType(NEQ) => (16, 'b', 'n')
    case NumericAtomType(Equal) => (15, 'n', 'e')
    case NumericAtomType(NotEqual) => (16, 'n', 'n')
    case NumericAtomType(Greater) => (15, 'n', 'g')
    case NumericAtomType(GreaterOrEqual) => (16, 'n', 'g')
    case NumericAtomType(Less) => (15, 'n', 'l')
    case NumericAtomType(LessOrEqual) => (16, 'n', 'l')
    case ExistenceType(OfString, true) => (18, 's', 'x')
    case ExistenceType(OfString, false) => (22, 's', 'o')
    case ExistenceType(OfBoolean, true) => (19, 'b', 'e')
    case ExistenceType(OfBoolean, false) => (23, 'b', 'n')
    case ExistenceType(OfNumber, true) => (19, 'n', 'e')
    case ExistenceType(OfNumber, false) => (23, 'n', 'n')
    case LogicalType => (17, 'l', 'o')
  }

  lemma TraitsOfDiscriminator(t: NodeType)
    ensures var d := Discriminator(t); |d| > 8 && Traits(t) == (|d|, d[0], d[8])
  {
  }

  lemma DiscriminatorIsInjective(t: NodeType, u: NodeType)
    ensures Discriminator(t) == Discriminator(u) ==> t == u
    ensures Discriminator(t) != ""
  {
    TraitsOfDiscriminator(t);
    TraitsOfDiscriminator(u);
    hide Discriminator;
  }

  lemma EveryTypeIsListed(t: NodeType)
    ensures t in NODE_TYPES
  {
    var i := match t
      case StringAtomType(EQ) => 0
      case StringAtomType(NEQ) => 1
      case ExistenceType(OfString, true) => 2
      case ExistenceType(OfString, false) => 3
      case BooleanAtomType(EQ) => 4
      case BooleanAtomType(NEQ) => 5
      case ExistenceType(OfBoolean, true) => 6
      case ExistenceType(OfBoolean, false) => 7
      case NumericAtomType(Equal) => 8
      case NumericAtomType(NotEqual) => 9
      case NumericAtomType(Greater) => 10
      case NumericAtomType(GreaterOrEqual) => 11
      case NumericAtomType(Less) => 12
      case NumericAtomType(LessOrEqual) => 13
      case ExistenceType(OfNumber, true) => 14
      case ExistenceType(OfNumber, false) => 15
      case LogicalType => 16;
    assert NODE_TYPES[i] == t;
  }

  lemma {:induction false} FindsListedType(t: NodeType, types: seq<NodeType>)
    ensures FindType(Discriminator(t), types) == if t in types then Some(t) else None
  {
    hide Discriminator;
    if types != [] {
      DiscriminatorIsInjective(t, types[0]);
      FindsListedType(t, types[1..]);
    }
  }

  /** The node type that is written is the node type that is found. */
  lemma DiscriminatorRoundTrip(t: NodeType)
    ensures NodeTypeOf(Discriminator(t)) == Some(t)
  {
    EveryTypeIsListed(t);
    FindsListedType(t, NODE_TYPES);
    hide Discriminator, FindType;
  }

  // ---------------------------------------------------------------- encoding

  const TYPE_KEY := "kpiNodeType"

  function TypeOf(n: KPINode): NodeType {
    match n
    case StringAtom(equality, _, _) => StringAtomType(equality)
    case BooleanAtom(equality, _, _) => BooleanAtomType(equality)
    case NumericAtom(comparison, _, _) => NumericAtomType(comparison)
    case Existence(kind, exists_, _) => ExistenceType(kind, exists_)
    case LogicalOperation(_, _) => LogicalType
  }

  datatype Field = Field(tag: string, value: JSON)

  function ParameterFields(p: Parameter): seq<Field> {
    [Field("sdParameterID", JNumber(p.id as real)), Field("sdParameterSpecification", JString(p.specification))]
  }

  /** The fields of the struct with their tags, in the order of their declaration. */
  function Fields(n: KPINode): seq<Field>
    decreases n, 0
  {
    match n
    case StringAtom(_, parameter, text) => ParameterFields(parameter) + [Field("referenceValue", JString(text))]
    case BooleanAtom(_, parameter, flag) => ParameterFields(parameter) + [Field("referenceValue", JBool(flag))]
    case NumericAtom(_, parameter, number) => ParameterFields(parameter) + [Field("referenceValue", JNumber(number))]
    case Existence(_, _, parameter) => ParameterFields(parameter)
    case LogicalOperation(operation, children) =>
      [Field("type", JString(operation)),
       Field("childNodes", match children case Unallocated => JNull case Allocated(nodes) => JArray(EncodeAll(nodes)))]
  }

  function ToMap(fields: seq<Field>): map<string, JSON> {
    if fields == [] then map[]
    else ToMap(fields[..|fields| - 1])[fields[|fields| - 1].tag := fields[|fields| - 1].value]
  }

  function Encode(n: KPINode): JSON
    decreases n, 1
  {
    JObject(ToMap(Fields(n))[TYPE_KEY := JString(Discriminator(TypeOf(n)))])
  }

  function EncodeChild(child: Child): JSON {
    match child case NilNode => JNull case Child(node) => Encode(node)
  }

  function EncodeAll(nodes: seq<Child>): (items: seq<JSON>)
    ensures |items| == |nodes|
  {
    if nodes == [] then [] else [EncodeChild(nodes[0])] + EncodeAll(nodes[1..])
  }

  /** marshalKPINode. */
  method MarshalKPINode(n: KPINode) returns (json: JSON)
    ensures json == Encode(n)
  {
    var fields := Fields(n);
    hide Fields, Discriminator;
    var nodeMap := map[];
    for index := 0 to |fields|
      invariant nodeMap == ToMap(fields[..index])
    {
      assert fields[..index + 1][..index] == fields[..index];
      nodeMap := nodeMap[fields[index].tag := fields[index].value];
    }
    assert fields[..|fields|] == fields;
    nodeMap := nodeMap[TYPE_KEY := JString(Discriminator(TypeOf(n)))];
    json := JObject(nodeMap);
  }

  // ---------------------------------------------------------------- decoding

  /** A key that is missing decodes like one that is null. */
  function At(fields: map<string, JSON>, tag: string): JSON { if tag in fields then fields[tag] else JNull }

  function DecodeString(j: JSON): Option<string> {
    match j case JNull => Some("") case JString(s) => Some(s) case _ => None
  }

  function DecodeBool(j: JSON): Option<bool> {
    match j case JNull => Some(false) case JBool(b) => Some(b) case _ => None
  }

  function DecodeNumber(j: JSON): Option<real> {
    match j case JNull => Some(0.0) case JNumber(x) => Some(x) case _ => None
  }

  function DecodeUint32(j: JSON): Option<Uint32> {
    match j
    case JNull => Some(0)
    case JNumber(x) => if x.Floor as real == x && 0 <= x.Floor < 0x1_0000_0000 then Some(x.Floor) else None
    case _ => None
  }

  function DecodeParameter(fields: map<string, JSON>): Option<Parameter> {
    var (id, specification) := (DecodeUint32(At(fields, "sdParameterID")),
                                DecodeString(At(fields, "sdParameterSpecification")));
    if id.None? || specification.None? then None else Some(Parameter(id.value, specification.value))
  }

  function DecodeAtom(t: NodeType, fields: map<string, JSON>): Outcome<KPINode>
    requires !t.LogicalType?
  {
    var parameter := DecodeParameter(fields);
    if parameter.None? then Err
    else
      match t
      case StringAtomType(equality) =>
        var text := DecodeString(At(fields, "referenceValue"));
        if text.None? then Err else Ok(StringAtom(equality, parameter.value, text.value))
      case BooleanAtomType(equality) =>
        var flag := DecodeBool(At(fields, "referenceValue"));
        if flag.None? then Err else Ok(BooleanAtom(equality, parameter.value, flag.value))
      case NumericAtomType(comparison) =>
        var number := DecodeNumber(At(fields, "referenceValue"));
        if number.None? then Err else Ok(NumericAtom(comparison, parameter.value, number.value))
      case ExistenceType(kind, exists_) => Ok(Existence(kind, exists_, parameter.value))
  }

  /** unmarshalKPINode. */
  function Decode(j: JSON): Outcome<KPINode> {
    match j
    case JNull => Panic
    case JObject(fields) =>
      var name := DecodeString(At(fields, TYPE_KEY));
      if name.None? then Err
      else
        var t := NodeTypeOf(name.value);
        if t.None? then Panic
        else if t.value != LogicalType then DecodeAtom(t.value, fields)
        else
          var (operation, childNodes) := (DecodeString(At(fields, "type")), At(fields, "childNodes"));
          if operation.None? || !(childNodes.JNull? || childNodes.JArray?) then Err
          else if childNodes.JNull? then Ok(LogicalOperation(operation.value, Unallocated))
          else
            var nodes := DecodeAll(childNodes.items);
            (match nodes
             case Ok(ns) => Ok(LogicalOperation(operation.value, Grown(ns)))
             case Err => Err
             case Panic => Panic)
    case _ => Err
  }

  /** A nil slice to which the nodes were appended: it stays nil if there are none. */
  function Grown(nodes: seq<KPINode>): Children {
    if nodes == [] then Unallocated else Allocated(NonNil(nodes))
  }

  function NonNil(nodes: seq<KPINode>): (s: seq<Child>)
    ensures |s| == |nodes| && forall i :: 0 <= i < |nodes| ==> s[i] == Child(nodes[i])
  {
    seq(|nodes|, i requires 0 <= i < |nodes| => Child(nodes[i]))
  }

  /** The children in order; the first that fails decides. */
  function DecodeAll(items: seq<JSON>): Outcome<seq<KPINode>> {
    if items == [] then Ok([])
    else
      match Decode(items[0])
      case Err => Err
      case Panic => Panic
      case Ok(first) =>
        match DecodeAll(items[1..])
        case Err => Err
        case Panic => Panic
        case Ok(rest) => Ok([first] + rest)
  }

  // ---------------------------------------------------------------- what the encoder writes

  /** The entries of the encoded object. */
  function Entries(n: KPINode): map<string, JSON> { ToMap(Fields(n))[TYPE_KEY := JString(Discriminator(TypeOf(n)))] }

  lemma ToMapOf2(a: Field, b: Field)
    ensures ToMap([a, b]) == map[a.tag := a.value][b.tag := b.value]
  {
    assert [a, b][..1] == [a] && [a][..0] == [];
    assert ToMap([a]) == map[a.tag := a.value];
  }

  lemma ToMapOf3(a: Field, b: Field, c: Field)
    ensures ToMap([a, b, c]) == map[a.tag := a.value][b.tag := b.value][c.tag := c.value]
  {
    ToMapOf2(a, b);
    assert [a, b, c][..2] == [a, b];
  }

  /** Tags of different lengths. */
  lemma TagsAreDistinct()
    ensures |"sdParameterID"| == 13 && |"sdParameterSpecification"| == 24 && |"referenceValue"| == 14
    ensures |"type"| == 4 && |"childNodes"| == 10 && |TYPE_KEY| == 11
  {
  }

  /** The discriminator is no field of any node, so it overwrites none. */
  lemma DiscriminatorOverwritesNothing(n: KPINode)
    ensures TYPE_KEY !in ToMap(Fields(n))
    ensures At(Entries(n), TYPE_KEY) == JString(Discriminator(TypeOf(n)))
    ensures forall tag :: tag in ToMap(Fields(n)) ==> At(Entries(n), tag) == ToMap(Fields(n))[tag]
  {
    hide Discriminator, EncodeAll;
    TagsAreDistinct();
    FieldsAsMap(n);
  }

  function ParameterMap(p: Parameter): map<string, JSON> {
    map["sdParameterID" := JNumber(p.id as real)]["sdParameterSpecification" := JString(p.specification)]
  }

  /** The fields of a node by tag. */
  lemma FieldsAsMap(n: KPINode)
    ensures ToMap(Fields(n)) == match n
      case StringAtom(_, p, text) => ParameterMap(p)["referenceValue" := JString(text)]
      case BooleanAtom(_, p, flag) => ParameterMap(p)["referenceValue" := JBool(flag)]
      case NumericAtom(_, p, number) => ParameterMap(p)["referenceValue" := JNumber(number)]
      case Existence(_, _, p) => ParameterMap(p)
      case LogicalOperation(operation, children) =>
        map["type" := JString(operation)]
           ["childNodes" := match children case Unallocated => JNull case Allocated(nodes) => JArray(EncodeAll(nodes))]
  {
    hide ToMap, EncodeAll;
    var f := Fields(n);
    if |f| == 2 {
      assert f == [f[0], f[1]];
      ToMapOf2(f[0], f[1]);
    } else {
      assert f == [f[0], f[1], f[2]];
      ToMapOf3(f[0], f[1], f[2]);
    }
  }

  lemma ParameterRoundTrip(n: KPINode)
    requires !n.LogicalOperation?
    ensures DecodeParameter(Entries(n)) == Some(n.parameter)
  {
    hide Discriminator, ToMap;
    TagsAreDistinct();
    FieldsAsMap(n);
    assert (n.parameter.id as real).Floor == n.parameter.id;
  }

  lemma AtomRoundTrip(n: KPINode)
    requires !n.LogicalOperation?
    ensures DecodeAtom(TypeOf(n), Entries(n)) == Ok(n)
  {
    ParameterRoundTrip(n);
    hide Discriminator, ToMap, DecodeParameter;
    TagsAreDistinct();
    FieldsAsMap(n);
  }

  lemma LogicalFields(n: KPINode)
    requires n.LogicalOperation?
    ensures DecodeString(At(Entries(n), "type")) == Some(n.operation)
    ensures At(Entries(n), "childNodes")
         == if n.children.Unallocated? then JNull else JArray(EncodeAll(n.children.nodes))
  {
    hide Discriminator, ToMap, EncodeAll;
    TagsAreDistinct();
    FieldsAsMap(n);
  }

  // ---------------------------------------------------------------- the round trip

  /** No element of a slice is nil, anywhere in the tree. */
  ghost predicate WithoutNil(n: KPINode) {
    match n
    case LogicalOperation(_, Allocated(nodes)) =>
      forall i :: 0 <= i < |nodes| ==> nodes[i].Child? && WithoutNil(nodes[i].node)
    case _ => true
  }

  /** No slice is allocated but empty, anywhere in the tree. */
  ghost predicate WithoutEmptySlice(n: KPINode) {
    match n
    case LogicalOperation(_, Allocated(nodes)) =>
      nodes != [] && forall i :: 0 <= i < |nodes| && nodes[i].Child? ==> WithoutEmptySlice(nodes[i].node)
    case _ => true
  }

  /** The same tree with nil for every empty slice. */
  function Normalize(n: KPINode): KPINode {
    match n
    case LogicalOperation(operation, Allocated(nodes)) =>
      LogicalOperation(operation, if nodes == [] then Unallocated else Allocated(NormalizeAll(nodes)))
    case _ => n
  }

  function NormalizeChild(child: Child): Child {
    match child case NilNode => NilNode case Child(node) => Child(Normalize(node))
  }

  function NormalizeAll(nodes: seq<Child>): (s: seq<Child>)
    ensures |s| == |nodes|
  {
    if nodes == [] then []
    else [NormalizeChild(nodes[0])] + NormalizeAll(nodes[1..])
  }

  ghost predicate NoneNil(nodes: seq<Child>) {
    forall i :: 0 <= i < |nodes| ==> nodes[i].Child? && WithoutNil(nodes[i].node)
  }

  lemma DecodeOfAtom(n: KPINode)
    requires !n.LogicalOperation?
    ensures Decode(Encode(n)) == Ok(n)
  {
    DiscriminatorOverwritesNothing(n);
    DiscriminatorRoundTrip(TypeOf(n));
    AtomRoundTrip(n);
    hide Discriminator, NodeTypeOf, Fields, ToMap, DecodeAtom;
  }

  lemma DecodeOfLogical(n: KPINode)
    requires n.LogicalOperation?
    ensures n.children.Unallocated? ==> Decode(Encode(n)) == Ok(n)
    ensures n.children.Allocated? ==> Decode(Encode(n)) == match DecodeAll(EncodeAll(n.children.nodes))
      case Ok(ns) => Ok(LogicalOperation(n.operation, Grown(ns)))
      case Err => Err
      case Panic => Panic
  {
    DiscriminatorOverwritesNothing(n);
    DiscriminatorRoundTrip(TypeOf(n));
    LogicalFields(n);
    assert Encode(n) == JObject(Entries(n));
    assert DecodeString(At(Entries(n), TYPE_KEY)) == Some(Discriminator(LogicalType));
    hide Discriminator, NodeTypeOf, Encode, Entries, At, DecodeString, DecodeAtom, EncodeAll, DecodeAll, Grown;
  }

  /** Decoding what was encoded gives the tree back with nil for empty slices. */
  lemma {:induction false} RoundTrip(n: KPINode)
    requires WithoutNil(n)
    ensures Decode(Encode(n)) == Ok(Normalize(n))
    decreases n, 1
  {
    if n.LogicalOperation? {
      DecodeOfLogical(n);
      if n.children.Allocated? {
        var ns := RoundTripAll(n.children.nodes);
      }
    } else {
      DecodeOfAtom(n);
    }
    hide Decode, Encode, DecodeAll, EncodeAll;
  }

  lemma {:induction false} RoundTripChild(child: Child)
    requires child.Child? && WithoutNil(child.node)
    ensures Decode(EncodeChild(child)) == Ok(Normalize(child.node))
    decreases child, 0
  {
    match child case Child(node) => RoundTrip(node);
  }

  lemma {:induction false} RoundTripAll(nodes: seq<Child>) returns (ns: seq<KPINode>)
    requires NoneNil(nodes)
    ensures DecodeAll(EncodeAll(nodes)) == Ok(ns) && NonNil(ns) == NormalizeAll(nodes)
    decreases nodes, 0
  {
    ns := [];
    if nodes != [] {
      var first := nodes[0];
      assert first.Child? && WithoutNil(first.node);
      RoundTripChild(first);
      var rest := RoundTripAll(nodes[1..]);
      ns := [Normalize(first.node)] + rest;
      NormalizedFirst(nodes, Normalize(first.node), rest);
      DecodedFirst(nodes, Normalize(first.node), rest);
    }
  }

  lemma DecodedFirst(nodes: seq<Child>, first: KPINode, rest: seq<KPINode>)
    requires nodes != [] && Decode(EncodeChild(nodes[0])) == Ok(first) && DecodeAll(EncodeAll(nodes[1..])) == Ok(rest)
    ensures DecodeAll(EncodeAll(nodes)) == Ok([first] + rest)
  {
    hide Decode, EncodeChild;
    assert EncodeAll(nodes)[1..] == EncodeAll(nodes[1..]);
  }

  lemma NormalizedFirst(nodes: seq<Child>, first: KPINode, rest: seq<KPINode>)
    requires nodes != [] && NormalizeChild(nodes[0]) == Child(first) && NonNil(rest) == NormalizeAll(nodes[1..])
    ensures NonNil([first] + rest) == NormalizeAll(nodes)
  {
    hide NormalizeChild;
  }

  /** A nil element is written as null, on which the decoder panics. */
  lemma {:induction false} NilPanics(n: KPINode)
    requires !WithoutNil(n)
    ensures Decode(Encode(n)) == Panic
    decreases n, 1
  {
    DecodeOfLogical(n);
    NilPanicsAll(n.children.nodes);
    hide Decode, Encode, DecodeAll, EncodeAll;
  }

  lemma {:induction false} NilPanicsChild(child: Child)
    requires child.Child? ==> !WithoutNil(child.node)
    ensures Decode(EncodeChild(child)) == Panic
    decreases child, 0
  {
    match child
    case NilNode =>
    case Child(node) => NilPanics(node);
  }

  lemma {:induction false} NilPanicsAll(nodes: seq<Child>)
    requires !NoneNil(nodes)
    ensures DecodeAll(EncodeAll(nodes)) == Panic
    decreases nodes, 0
  {
    var first := nodes[0];
    assert nodes == [first] + nodes[1..];
    if first.Child? && WithoutNil(first.node) {
      RoundTripChild(first);
      NilPanicsAll(nodes[1..]);
    } else {
      NilPanicsChild(first);
    }
    hide Decode, EncodeChild, Normalize, WithoutNil;
    assert EncodeAll(nodes)[1..] == EncodeAll(nodes[1..]);
  }

  lemma {:induction false} NormalizeKeeps(n: KPINode)
    requires WithoutNil(n)
    ensures Normalize(n) == n <==> WithoutEmptySlice(n)
    ensures WithoutEmptySlice(Normalize(n)) && WithoutNil(Normalize(n))
    decreases n, 1
  {
    if n.LogicalOperation? && n.children.Allocated? && n.children.nodes != [] {
      NormalizeAllKeeps(n.children.nodes);
    }
  }

  lemma {:induction false} NormalizeChildKeeps(child: Child)
    requires child.Child? && WithoutNil(child.node)
    ensures var normal := NormalizeChild(child);
      normal.Child? && (normal == child <==> WithoutEmptySlice(child.node)) && WithoutEmptySlice(normal.node)
          && WithoutNil(normal.node)
    decreases child, 0
  {
    match child case Child(node) => NormalizeKeeps(node);
  }

  ghost predicate NoneEmpty(nodes: seq<Child>) {
    forall i :: 0 <= i < |nodes| && nodes[i].Child? ==> WithoutEmptySlice(nodes[i].node)
  }

  lemma {:induction false} NormalizeAllKeeps(nodes: seq<Child>)
    requires NoneNil(nodes)
    ensures NormalizeAll(nodes) == nodes <==> NoneEmpty(nodes)
    ensures NoneEmpty(NormalizeAll(nodes)) && NoneNil(NormalizeAll(nodes))
    decreases nodes, 0
  {
    if nodes != [] {
      var first, rest := nodes[0], nodes[1..];
      assert first.Child? && WithoutNil(first.node);
      NormalizeChildKeeps(first);
      NormalizeAllKeeps(rest);
      assert nodes == [first] + rest;
      hide NormalizeChild, WithoutNil, WithoutEmptySlice;
      assert NormalizeAll(nodes)[0] == NormalizeChild(first) && NormalizeAll(nodes)[1..] == NormalizeAll(rest);
    }
  }

  /** The law of the codec, for every tree: it comes back equal if and only if no slice in it is empty and none holds a
      nil. */
  lemma RoundTripIsExact(n: KPINode)
    ensures Decode(Encode(n)) == Ok(n) <==> WithoutNil(n) && WithoutEmptySlice(n)
    ensures Decode(Encode(n)) == Panic <==> !WithoutNil(n)
    ensures Decode(Encode(n)) != Err
  {
    if WithoutNil(n) {
      RoundTrip(n);
      NormalizeKeeps(n);
    } else {
      NilPanics(n);
    }
    hide Decode, Encode, Normalize;
  }

  /** Whatever decodes, from any JSON, survives every later round trip unchanged. */
  lemma {:induction false} DecodedIsStable(j: JSON)
    requires Decode(j).Ok?
    ensures WithoutNil(Decode(j).value) && WithoutEmptySlice(Decode(j).value)
    ensures Decode(Encode(Decode(j).value)) == Decode(j)
    decreases j, 1
  {
    hide NodeTypeOf;
    var n := Decode(j).value;
    if n.LogicalOperation? && n.children.Allocated? {
      var items := At(j.fields, "childNodes").items;
      DecodedAllIsStable(items);
    }
    RoundTripIsExact(n);
  }

  lemma {:induction false} DecodedAllIsStable(items: seq<JSON>)
    requires DecodeAll(items).Ok?
    ensures forall i :: 0 <= i < |DecodeAll(items).value| ==>
        WithoutNil(DecodeAll(items).value[i]) && WithoutEmptySlice(DecodeAll(items).value[i])
    decreases items, 0
  {
    if items != [] {
      DecodedIsStable(items[0]);
      DecodedAllIsStable(items[1..]);
      hide Decode, WithoutNil, WithoutEmptySlice;
    }
  }
}
