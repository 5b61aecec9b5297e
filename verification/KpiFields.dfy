// The JSON of KPI nodes key by key: what the encoder writes and what the decoder accepts.
module KpiFields {
  import opened Wrappers
  import opened KpiCodec

  // ---------------------------------------------------------------- names

  /** The name of a node type is put together from its kind and its operation. */
  lemma DiscriminatorIsComposed(t: NodeType)
    ensures Discriminator(t) == match t
      case StringAtomType(equality) => "string_" + EqualityWord(equality) + "_atom"
      case BooleanAtomType(equality) => "boolean_" + EqualityWord(equality) + "_atom"
      case NumericAtomType(comparison) => "numeric_" + ComparisonWord(comparison) + "_atom"
      case ExistenceType(kind, exists_) => KindWord(kind) + (if exists_ then "_exists_atom" else "_not_exists_atom")
      case LogicalType => "logical_operation"
  {
    match t
    case StringAtomType(equality) =>
      EqualityNames(equality);
    case BooleanAtomType(equality) =>
      EqualityNames(equality);
    case NumericAtomType(comparison) =>
      ComparisonNames(comparison);
    case ExistenceType(kind, exists_) =>
      ExistsNames(kind);
      NotExistsNames(kind);
    case LogicalType =>
    hide Discriminator, EqualityWord, ComparisonWord, KindWord;
  }

  lemma EqualityNames(equality: Equality)
    ensures Discriminator(StringAtomType(equality)) == "string_" + EqualityWord(equality) + "_atom"
    ensures Discriminator(BooleanAtomType(equality)) == "boolean_" + EqualityWord(equality) + "_atom"
  {
  }

  lemma ComparisonNames(comparison: Comparison)
    ensures Discriminator(NumericAtomType(comparison)) == "numeric_" + ComparisonWord(comparison) + "_atom"
  {
  }

  lemma ExistsNames(kind: ValueKind)
    ensures Discriminator(ExistenceType(kind, true)) == KindWord(kind) + "_exists_atom"
  {
  }

  lemma NotExistsNames(kind: ValueKind)
    ensures Discriminator(ExistenceType(kind, false)) == KindWord(kind) + "_not_exists_atom"
  {
    match kind
    case OfString => assert "string" + "_not_exists_atom" == "string_not_exists_atom";
    case OfBoolean => NotExistsBoolean();
    case OfNumber => NotExistsNumber();
  }

  lemma NotExistsBoolean()
    ensures "boolean" + "_not_exists_atom" == "boolean_not_exists_atom"
  {
  }

  lemma NotExistsNumber()
    ensures "numeric" + "_not_exists_atom" == "numeric_not_exists_atom"
  {
  }

  function EqualityWord(equality: Equality): string { if equality == EQ then "eq" else "neq" }

  function ComparisonWord(comparison: Comparison): string {
    match comparison
    case Equal => "eq" case NotEqual => "neq"
    case Greater => "gt" case GreaterOrEqual => "geq"
    case Less => "lt" case LessOrEqual => "leq"
  }

  function KindWord(kind: ValueKind): string {
    match kind case OfString => "string" case OfBoolean => "boolean" case OfNumber => "numeric"
  }

  // ---------------------------------------------------------------- what is written

  /** The object of a node that is no logical operation. */
  ghost function AtomObject(n: KPINode): map<string, JSON>
    requires !n.LogicalOperation?
  {
    var common := map["kpiNodeType" := JString(Discriminator(TypeOf(n))),
                      "sdParameterID" := JNumber(n.parameter.id as real),
                      "sdParameterSpecification" := JString(n.parameter.specification)];
    match n
    case StringAtom(_, _, text) => common["referenceValue" := JString(text)]
    case BooleanAtom(_, _, flag) => common["referenceValue" := JBool(flag)]
    case NumericAtom(_, _, number) => common["referenceValue" := JNumber(number)]
    case Existence(_, _, _) => common
  }

  /** A logical operation is written with its type and its children in order; a nil slice and a nil child are written as
      null. */
  ghost predicate IsLogicalObject(fields: map<string, JSON>, n: KPINode)
    requires n.LogicalOperation?
  {
    && fields.Keys == {"kpiNodeType", "type", "childNodes"}
    && fields["kpiNodeType"] == JString("logical_operation") && fields["type"] == JString(n.operation)
    && match n.children
       case Unallocated => fields["childNodes"] == JNull
       case Allocated(nodes) =>
         && fields["childNodes"].JArray? && |fields["childNodes"].items| == |nodes|
         && forall i :: 0 <= i < |nodes| ==>
              fields["childNodes"].items[i] == if nodes[i].NilNode? then JNull else Encode(nodes[i].node)
  }

  lemma {:induction false} EncodedChildren(nodes: seq<Child>)
    ensures forall i :: 0 <= i < |nodes| ==>
      EncodeAll(nodes)[i] == if nodes[i].NilNode? then JNull else Encode(nodes[i].node)
  {
    hide Encode;
    if nodes != [] {
      EncodedChildren(nodes[1..]);
      var items := EncodeAll(nodes);
      forall i | 0 <= i < |nodes|
        ensures items[i] == if nodes[i].NilNode? then JNull else Encode(nodes[i].node)
      {
        if i == 0 {
          assert items[0] == EncodeChild(nodes[0]);
        } else {
          assert items[i] == EncodeAll(nodes[1..])[i - 1] && nodes[1..][i - 1] == nodes[i];
        }
      }
    }
  }

  /** Every node is written as the object with exactly these keys. */
  lemma EncodedObject(n: KPINode)
    ensures Encode(n).JObject?
    ensures !n.LogicalOperation? ==> Encode(n).fields == AtomObject(n)
    ensures n.LogicalOperation? ==> IsLogicalObject(Encode(n).fields, n)
  {
    assert Encode(n) == JObject(Entries(n));
    FieldsAsMap(n);
    TagsAreDistinct();
    if n.LogicalOperation? {
      LogicalObject(n);
    } else {
      hide Discriminator, ToMap, Fields, Encode;
      assert Entries(n) == AtomObject(n);
    }
    hide Encode, Entries, AtomObject, IsLogicalObject;
  }

  lemma LogicalObject(n: KPINode)
    requires n.LogicalOperation?
    ensures IsLogicalObject(Entries(n), n)
  {
    FieldsAsMap(n);
    TagsAreDistinct();
    if n.children.Allocated? {
      EncodedChildren(n.children.nodes);
    }
    hide ToMap, Fields, Encode, EncodeAll;
  }

  // ---------------------------------------------------------------- what is accepted

  /** The key holds that value, or it is missing or null and the value is the zero value. */
  ghost predicate Gives(fields: map<string, JSON>, key: string, value: JSON, zero: JSON) {
    if key in fields && fields[key] != JNull then fields[key] == value else value == zero
  }

  ghost predicate GivesReference(fields: map<string, JSON>, n: KPINode) {
    match n
    case StringAtom(_, _, text) => Gives(fields, "referenceValue", JString(text), JString(""))
    case BooleanAtom(_, _, flag) => Gives(fields, "referenceValue", JBool(flag), JBool(false))
    case NumericAtom(_, _, number) => Gives(fields, "referenceValue", JNumber(number), JNumber(0.0))
    case Existence(_, _, _) => true
    case LogicalOperation(_, _) => true
  }

  ghost predicate GivesParameter(fields: map<string, JSON>, p: Parameter) {
    && Gives(fields, "sdParameterID", JNumber(p.id as real), JNumber(0.0))
    && Gives(fields, "sdParameterSpecification", JString(p.specification), JString(""))
  }

  lemma ParameterIsGiven(fields: map<string, JSON>, p: Parameter)
    ensures DecodeParameter(fields) == Some(p) <==> GivesParameter(fields, p)
  {
    IDIsGiven(fields, "sdParameterID", p.id);
    StringIsGiven(fields, "sdParameterSpecification", p.specification);
    hide DecodeUint32, DecodeString, Gives, At;
  }

  lemma StringIsGiven(fields: map<string, JSON>, key: string, s: string)
    ensures DecodeString(At(fields, key)) == Some(s) <==> Gives(fields, key, JString(s), JString(""))
  {
  }

  lemma IDIsGiven(fields: map<string, JSON>, key: string, id: Uint32)
    ensures DecodeUint32(At(fields, key)) == Some(id) <==> Gives(fields, key, JNumber(id as real), JNumber(0.0))
  {
    assert (id as real).Floor == id;
  }

  lemma ReferenceIsGiven(fields: map<string, JSON>, n: KPINode)
    requires !n.LogicalOperation?
    ensures DecodeAtom(TypeOf(n), fields) == Ok(n) <==> GivesParameter(fields, n.parameter) && GivesReference(fields, n)
  {
    ParameterIsGiven(fields, n.parameter);
    hide DecodeParameter, GivesParameter;
  }

  lemma AtomOfType(t: NodeType, fields: map<string, JSON>)
    requires !t.LogicalType?
    ensures DecodeAtom(t, fields) != Panic
    ensures DecodeAtom(t, fields).Ok? ==>
        !DecodeAtom(t, fields).value.LogicalOperation? && TypeOf(DecodeAtom(t, fields).value) == t
  {
    hide DecodeParameter, At;
  }

  /** An object decodes to a node without children exactly if it names the node's type and every other key of the type
      gives the node's value; other keys do not matter. */
  lemma DecodedAtomIsGiven(fields: map<string, JSON>, n: KPINode)
    requires !n.LogicalOperation?
    ensures Decode(JObject(fields)) == Ok(n)
       <==> "kpiNodeType" in fields && fields["kpiNodeType"] == JString(Discriminator(TypeOf(n)))
            && GivesParameter(fields, n.parameter) && GivesReference(fields, n)
  {
    ReferenceIsGiven(fields, n);
    DiscriminatorRoundTrip(TypeOf(n));
    NamedType(fields);
    DiscriminatorIsInjective(TypeOf(n), TypeOf(n));
    hide DecodeAtom, Discriminator, NodeTypeOf, GivesParameter, GivesReference;
    var name := DecodeString(At(fields, TYPE_KEY));
    if name.Some? && NodeTypeOf(name.value).Some? && !NodeTypeOf(name.value).value.LogicalType? {
      AtomOfType(NodeTypeOf(name.value).value, fields);
    }
  }

  lemma {:induction false} AllAreDecoded(items: seq<JSON>, ns: seq<KPINode>)
    ensures DecodeAll(items) == Ok(ns)
       <==> |ns| == |items| && forall i :: 0 <= i < |items| ==> Decode(items[i]) == Ok(ns[i])
  {
    hide Decode;
    if items != [] && ns != [] {
      AllAreDecoded(items[1..], ns[1..]);
      assert ns == [ns[0]] + ns[1..];
      assert forall i :: 0 < i < |items| ==> items[i] == items[1..][i - 1];
      assert forall i :: 0 < i < |ns| ==> ns[i] == ns[1..][i - 1];
      if DecodeAll(items).Ok? {
        assert DecodeAll(items).value[1..] == DecodeAll(items[1..]).value;
      }
    }
  }

  /** The children that the key gives, in order; a missing key, null and an empty list all give a nil slice. */
  ghost predicate GivesChildren(j: JSON, children: Children) {
    match children
    case Unallocated => j == JNull || j == JArray([])
    case Allocated(nodes) =>
      && nodes != [] && j.JArray? && |j.items| == |nodes|
      && forall i :: 0 <= i < |nodes| ==> nodes[i].Child? && Decode(j.items[i]) == Ok(nodes[i].node)
  }

  lemma ChildrenAreGiven(items: seq<JSON>, children: Children)
    ensures DecodeAll(items).Ok? && Grown(DecodeAll(items).value) == children <==> GivesChildren(JArray(items), children)
  {
    hide Decode, DecodeAll;
    if DecodeAll(items).Ok? {
      AllAreDecoded(items, DecodeAll(items).value);
    }
    if children.Allocated? && GivesChildren(JArray(items), children) {
      var nodes := children.nodes;
      var ns := seq(|nodes|, i requires 0 <= i < |nodes| => nodes[i].node);
      AllAreDecoded(items, ns);
      assert NonNil(ns) == nodes;
    }
    AllAreDecoded([], []);
  }

  /** An object decodes to a logical operation exactly if it names that type, gives the operation, and gives children
      that decode themselves. */
  lemma DecodedLogicalIsGiven(fields: map<string, JSON>, n: KPINode)
    requires n.LogicalOperation?
    ensures Decode(JObject(fields)) == Ok(n)
       <==> "kpiNodeType" in fields && fields["kpiNodeType"] == JString("logical_operation")
            && Gives(fields, "type", JString(n.operation), JString(""))
            && GivesChildren(At(fields, "childNodes"), n.children)
  {
    DiscriminatorRoundTrip(LogicalType);
    NamedType(fields);
    assert Discriminator(LogicalType) == "logical_operation";
    StringIsGiven(fields, "type", n.operation);
    hide DecodeAtom, Discriminator, NodeTypeOf, DecodeAll, Grown, Gives;
    var name, childNodes := DecodeString(At(fields, TYPE_KEY)), At(fields, "childNodes");
    if name.Some? && NodeTypeOf(name.value).Some? && !NodeTypeOf(name.value).value.LogicalType? {
      AtomOfType(NodeTypeOf(name.value).value, fields);
    }
    if childNodes.JArray? {
      ChildrenAreGiven(childNodes.items, n.children);
    }
    hide GivesChildren;
  }

  lemma {:induction false} FoundIsNamed(name: string, types: seq<NodeType>)
    ensures FindType(name, types).Some? ==> name == Discriminator(FindType(name, types).value)
    ensures FindType(name, types).None? ==> forall t :: t in types ==> name != Discriminator(t)
  {
    hide Discriminator;
    if types != [] {
      FoundIsNamed(name, types[1..]);
      assert forall t :: t in types <==> t == types[0] || t in types[1..];
    }
  }

  lemma TypeIsNamed(name: string)
    ensures NodeTypeOf(name).Some? ==> name == Discriminator(NodeTypeOf(name).value) && name != ""
    ensures NodeTypeOf(name).None? <==> forall t :: name != Discriminator(t)
  {
    FoundIsNamed(name, NODE_TYPES);
    forall t { EveryTypeIsListed(t); }
    if NodeTypeOf(name).Some? {
      DiscriminatorIsInjective(NodeTypeOf(name).value, NodeTypeOf(name).value);
    }
    hide Discriminator, FindType;
  }

  lemma NamedType(fields: map<string, JSON>)
    ensures var name := DecodeString(At(fields, TYPE_KEY));
      name.Some? && NodeTypeOf(name.value).Some? ==>
        TYPE_KEY in fields && fields[TYPE_KEY] == JString(Discriminator(NodeTypeOf(name.value).value))
  {
    var name := DecodeString(At(fields, TYPE_KEY));
    if name.Some? {
      TypeIsNamed(name.value);
    }
    hide Discriminator, NodeTypeOf;
  }

  /** The object names the type. */
  ghost predicate IsNamed(fields: map<string, JSON>, t: NodeType) {
    "kpiNodeType" in fields && fields["kpiNodeType"] == JString(Discriminator(t))
  }

  /** What is no object, or has a type that is no string, is an error. The decoder panics on null and on an object whose
      type is missing or none of the known ones; behind a known type that has no children nothing panics. */
  lemma WhereTheDecoderPanics(j: JSON)
    ensures j == JNull ==> Decode(j) == Panic
    ensures !j.JNull? && !j.JObject? ==> Decode(j) == Err
    ensures j.JObject? && !(exists t :: IsNamed(j.fields, t)) ==>
      Decode(j) == if "kpiNodeType" in j.fields && !j.fields["kpiNodeType"].JNull? && !j.fields["kpiNodeType"].JString?
                   then Err else Panic
    ensures j.JObject? && (exists t :: IsNamed(j.fields, t) && t != LogicalType) ==> Decode(j) != Panic
  {
    if j.JObject? {
      NamedOrNot(j.fields);
      if t :| IsNamed(j.fields, t) && t != LogicalType {
        DiscriminatorRoundTrip(t);
        hide Discriminator, NodeTypeOf, DecodeAtom;
        AtomOfType(t, j.fields);
      }
    }
  }

  lemma NamedOrNot(fields: map<string, JSON>)
    ensures !(exists t :: IsNamed(fields, t)) ==>
      Decode(JObject(fields))
      == if "kpiNodeType" in fields && !fields["kpiNodeType"].JNull? && !fields["kpiNodeType"].JString?
         then Err else Panic
  {
    NamedType(fields);
    hide Discriminator, NodeTypeOf, DecodeAtom;
    var name := DecodeString(At(fields, TYPE_KEY));
    if name.Some? && NodeTypeOf(name.value).Some? {
      assert IsNamed(fields, NodeTypeOf(name.value).value);
    }
  }
}
