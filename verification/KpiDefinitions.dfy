// The JSON codec of the KPI definitions that are sent to the message processing units.
module KpiDefinitions {
  import opened Wrappers
  import opened KpiCodec
  import opened KpiFields

  /** A slice of strings: nil, or allocated and possibly empty. */
  datatype Strings = NoStrings | Strings(items: seq<string>)

  datatype Definition = Definition(id: Option<Uint32>, userID: Uint32, sdTypeUID: string, rootNode: KPINode,
                                   sdInstanceMode: string,
                                   selected: Strings)

  // ---------------------------------------------------------------- encoding

  function EncodeStrings(s: Strings): JSON {
    match s
    case NoStrings => JNull
    case Strings(items) => JArray(seq(|items|, i requires 0 <= i < |items| => JString(items[i])))
  }

  function AlwaysWritten(d: Definition): map<string, JSON> {
    map["sdTypeSpecification" := JString(d.sdTypeUID), "sdInstanceMode" := JString(d.sdInstanceMode),
        "selectedSDInstanceUIDs" := EncodeStrings(d.selected), "rootNode" := Encode(d.rootNode)]
  }

  /** `id` and `userID` are omitted when they are empty. */
  function Written(d: Definition): map<string, JSON> {
    var fields := AlwaysWritten(d);
    var withUser := if d.userID == 0 then fields else fields["userID" := JNumber(d.userID as real)];
    if d.id.None? then withUser else withUser["id" := JNumber(d.id.value as real)]
  }

  function EncodeDefinition(d: Definition): JSON { JObject(Written(d)) }

  // ---------------------------------------------------------------- decoding

  function DecodePointer(j: JSON): Option<Option<Uint32>> {
    if j.JNull? then Some(None)
    else
      var n := DecodeUint32(j);
      if n.None? then None else Some(Some(n.value))
  }

  function DecodeEach(items: seq<JSON>): Option<seq<string>> {
    if items == [] then Some([])
    else
      var (first, rest) := (DecodeString(items[0]), DecodeEach(items[1..]));
      if first.None? || rest.None? then None else Some([first.value] + rest.value)
  }

  function DecodeStrings(j: JSON): Option<Strings> {
    match j
    case JNull => Some(NoStrings)
    case JArray(items) =>
      var strings := DecodeEach(items);
      if strings.None? then None else Some(Strings(strings.value))
    case _ => None
  }

  /** The fields but the root node. */
  function DecodeHeader(fields: map<string, JSON>, rootNode: KPINode): Option<Definition> {
    var id := DecodePointer(At(fields, "id"));
    var userID := DecodeUint32(At(fields, "userID"));
    var sdTypeUID := DecodeString(At(fields, "sdTypeSpecification"));
    var mode := DecodeString(At(fields, "sdInstanceMode"));
    var selected := DecodeStrings(At(fields, "selectedSDInstanceUIDs"));
    if id.None? || userID.None? || sdTypeUID.None? || mode.None? || selected.None? then None
    else Some(Definition(id.value, userID.value, sdTypeUID.value, rootNode, mode.value, selected.value))
  }

  const ANY_NODE := LogicalOperation("", Unallocated)

  /** UnmarshalJSON of a definition; a missing root node is an empty message, which does not parse. */
  function DecodeDefinition(j: JSON): Outcome<Definition> {
    match j
    case JNull => Panic
    case JObject(fields) =>
      var header := DecodeHeader(fields, ANY_NODE);
      if header.None? || "rootNode" !in fields then Err
      else
        (match Decode(fields["rootNode"])
         case Ok(rootNode) => Ok(header.value.(rootNode := rootNode))
         case Err => Err
         case Panic => Panic)
    case _ => Err
  }

  // ---------------------------------------------------------------- the round trip

  lemma {:induction false} StringsRoundTrip(items: seq<string>)
    ensures DecodeEach(seq(|items|, i requires 0 <= i < |items| => JString(items[i]))) == Some(items)
  {
    if items != [] {
      StringsRoundTrip(items[1..]);
      var encoded := seq(|items|, i requires 0 <= i < |items| => JString(items[i]));
      assert encoded[1..] == seq(|items[1..]|, i requires 0 <= i < |items[1..]| => JString(items[1..][i]));
      assert items == [items[0]] + items[1..];
    }
  }

  lemma KeysAreDistinct()
    ensures |"id"| == 2 && |"userID"| == 6 && |"sdTypeSpecification"| == 19 && |"sdInstanceMode"| == 14
    ensures |"selectedSDInstanceUIDs"| == 22 && |"rootNode"| == 8
  {
  }

  lemma WrittenFields(d: Definition)
    ensures var fields := Written(d);
      && At(fields, "id") == (if d.id.Some? then JNumber(d.id.value as real) else JNull)
      && At(fields, "userID") == (if d.userID == 0 then JNull else JNumber(d.userID as real))
      && At(fields, "sdTypeSpecification") == JString(d.sdTypeUID)
      && At(fields, "sdInstanceMode") == JString(d.sdInstanceMode)
      && At(fields, "selectedSDInstanceUIDs") == EncodeStrings(d.selected)
      && "rootNode" in fields && fields["rootNode"] == Encode(d.rootNode)
  {
    KeysAreDistinct();
    hide Encode, EncodeStrings;
  }

  lemma HeaderRoundTrip(d: Definition, rootNode: KPINode)
    ensures DecodeHeader(Written(d), rootNode) == Some(d.(rootNode := rootNode))
  {
    WrittenFields(d);
    if d.selected.Strings? {
      StringsRoundTrip(d.selected.items);
    }
    Uint32RoundTrip(d.userID);
    if d.id.Some? {
      Uint32RoundTrip(d.id.value);
    }
    hide Written, DecodeEach, At;
  }

  lemma Uint32RoundTrip(n: Uint32)
    ensures DecodeUint32(JNumber(n as real)) == Some(n)
  {
    assert (n as real).Floor == n;
  }

  /** The law for definitions, for every definition: only nil or empty slices of nodes in its tree can be lost. */
  lemma DefinitionRoundTripIsExact(d: Definition)
    ensures DecodeDefinition(EncodeDefinition(d)) == Ok(d) <==> WithoutNil(d.rootNode) && WithoutEmptySlice(d.rootNode)
    ensures WithoutNil(d.rootNode) ==>
        DecodeDefinition(EncodeDefinition(d)) == Ok(d.(rootNode := Normalize(d.rootNode)))
    ensures DecodeDefinition(EncodeDefinition(d)) == Panic <==> !WithoutNil(d.rootNode)
  {
    WrittenFields(d);
    HeaderRoundTrip(d, ANY_NODE);
    RoundTripIsExact(d.rootNode);
    if WithoutNil(d.rootNode) {
      RoundTrip(d.rootNode);
    }
    hide Written, DecodeHeader, Decode, Encode, WithoutNil, WithoutEmptySlice, Normalize;
  }

  // ---------------------------------------------------------------- what is accepted

  /** The keys of the object give the fields of the definition, the root node aside. */
  ghost predicate GivesHeader(fields: map<string, JSON>, d: Definition) {
    && At(fields, "id") == (if d.id.Some? then JNumber(d.id.value as real) else JNull)
    && Gives(fields, "userID", JNumber(d.userID as real), JNumber(0.0))
    && Gives(fields, "sdTypeSpecification", JString(d.sdTypeUID), JString(""))
    && Gives(fields, "sdInstanceMode", JString(d.sdInstanceMode), JString(""))
    && DecodeStrings(At(fields, "selectedSDInstanceUIDs")) == Some(d.selected)
  }

  lemma HeaderIsGiven(fields: map<string, JSON>, rootNode: KPINode, d: Definition)
    ensures DecodeHeader(fields, rootNode) == Some(d) <==> d.rootNode == rootNode && GivesHeader(fields, d)
  {
    IDIsGiven(fields, "userID", d.userID);
    StringIsGiven(fields, "sdTypeSpecification", d.sdTypeUID);
    StringIsGiven(fields, "sdInstanceMode", d.sdInstanceMode);
    PointerIsGiven(At(fields, "id"), d.id);
    hide DecodePointer, DecodeUint32, DecodeString, DecodeStrings, Gives, At;
  }

  lemma PointerIsGiven(j: JSON, id: Option<Uint32>)
    ensures DecodePointer(j) == Some(id) <==> j == if id.Some? then JNumber(id.value as real) else JNull
  {
    if id.Some? {
      assert (id.value as real).Floor == id.value;
    }
  }

  /** A definition is read from an object exactly if the keys give its fields and the root node is read; null panics,
      and whatever else is no object is an error. */
  lemma DefinitionIsGiven(j: JSON, d: Definition)
    ensures DecodeDefinition(j) == Ok(d)
       <==> j.JObject? && GivesHeader(j.fields, d) && "rootNode" in j.fields
            && Decode(j.fields["rootNode"]) == Ok(d.rootNode)
    ensures DecodeDefinition(j) == Panic
       <==> j.JNull? || (j.JObject? && "rootNode" in j.fields && Decode(j.fields["rootNode"]) == Panic
                         && exists header :: GivesHeader(j.fields, header))
  {
    hide DecodeHeader, GivesHeader, Decode;
    if j.JObject? {
      var header := DecodeHeader(j.fields, ANY_NODE);
      HeaderIsGiven(j.fields, ANY_NODE, d.(rootNode := ANY_NODE));
      if header.Some? {
        HeaderIsGiven(j.fields, ANY_NODE, header.value);
        OtherRoot(j.fields, header.value, d.rootNode);
      }
      OtherRoot(j.fields, d, ANY_NODE);
      forall other | GivesHeader(j.fields, other) ensures header.Some? {
        OtherRoot(j.fields, other, ANY_NODE);
        HeaderIsGiven(j.fields, ANY_NODE, other.(rootNode := ANY_NODE));
      }
    }
  }

  lemma OtherRoot(fields: map<string, JSON>, d: Definition, rootNode: KPINode)
    ensures GivesHeader(fields, d.(rootNode := rootNode)) <==> GivesHeader(fields, d)
  {
  }
}
