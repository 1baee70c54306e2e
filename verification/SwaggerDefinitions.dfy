/** The Swagger definitions worklist of chameleon/protoc_plugins/swagger_template.py. */
module SwaggerDefinitions {
  import opened Wrappers

  type Name = string

  datatype FieldType = Scalar(kind: nat) | MessageField(typeName: Name) | EnumField(typeName: Name) | GroupField

  datatype Field = Field(name: Name, fieldType: FieldType, repeated: bool)

  datatype TypeDesc = EnumType(values: seq<Name>) | MessageType(fields: seq<Field>, mapEntry: bool)

  type Types = map<Name, TypeDesc>

  const TIMESTAMP: Name := "google.protobuf.Timestamp"

  /** A JSON schema property; Ref stands for '$ref' into the definitions. */
  datatype Property =
    | Plain(kind: nat) | DateTime | Ref(target: Name)
    | MapOf(values: Property) | ArrayOf(items: Property)

  datatype Definition = EnumDefinition(values: seq<Name>) | ObjectDefinition(properties: map<Name, Property>)

  // ----- make_property, make_definition -----

  function Wrap(repeated: bool, p: Property): Property {
    if repeated then ArrayOf(p) else p
  }

  /** The property of a field and the types it refers to. A map entry is inlined and what its value
      refers to is discarded. `left` are the map entries the call is not inside of: one that leads
      back to itself exhausts the interpreter's stack. */
  function MakeProperty(types: Types, field: Field, left: set<Name>): Result<(Property, set<Name>)>
    decreases left
  {
    match field.fieldType
    case Scalar(kind) => Ok((Wrap(field.repeated, Plain(kind)), {}))
    case EnumField(name) => Ok((Wrap(field.repeated, Ref(name)), {name}))
    case GroupField => Raised
    case MessageField(name) =>
      if name !in types then Raised
      else if types[name].MessageType? && types[name].mapEntry then
        if |types[name].fields| < 2 || name !in left then Raised
        else
          var value :- MakeProperty(types, types[name].fields[1], left - {name});
          Ok((MapOf(value.0), {}))
      else if name == TIMESTAMP then Ok((Wrap(field.repeated, DateTime), {}))
      else Ok((Wrap(field.repeated, Ref(name)), {name}))
  }

  /** What a property says of a field that is no map, repeated or not: the kind of a scalar, a reference
      to an enumeration or a message, a date for a timestamp. */
  predicate Describes(p: Property, fieldType: FieldType) {
    match fieldType
    case Scalar(kind) => p == Plain(kind)
    case EnumField(name) => p == Ref(name)
    case MessageField(name) => if name == "google.protobuf.Timestamp" then p == DateTime else p == Ref(name)
    case GroupField => false
  }

  predicate IsMap(types: Types, fieldType: FieldType) {
    && fieldType.MessageField? && fieldType.typeName in types
    && types[fieldType.typeName].MessageType? && types[fieldType.typeName].mapEntry
  }

  /** A field that is no map becomes an array if and only if it is repeated, and the items are then what
      it would be alone; a map becomes an object of what its second field, the value, becomes, and
      is an array in no case. Groups and messages of unknown type raise. */
  lemma {:induction false} PropertyShape(types: Types, field: Field, left: set<Name>)
    ensures var made := MakeProperty(types, field, left);
            && (made.Ok? && !IsMap(types, field.fieldType) ==>
                  && made.value.0.ArrayOf? == field.repeated
                  && Describes(if field.repeated then made.value.0.items else made.value.0, field.fieldType)
                  && MakeProperty(types, field.(repeated := false), left) ==
                     Ok((if field.repeated then made.value.0.items else made.value.0, made.value.1)))
            && (made.Ok? && IsMap(types, field.fieldType) ==>
                  && made.value.0.MapOf? && made.value.1 == {}
                  && var name := field.fieldType.typeName;
                  && name in left && |types[name].fields| >= 2
                  && var value := MakeProperty(types, types[name].fields[1], left - {name});
                  value.Ok? && made.value.0.values == value.value.0)
            && (field.fieldType.GroupField? ==> made.Raised?)
            && (field.fieldType.MessageField? && field.fieldType.typeName !in types ==> made.Raised?)
  {}

  function MakeObject(types: Types, fields: seq<Field>): Result<(map<Name, Property>, set<Name>)> {
    if fields == [] then Ok((map[], {}))
    else
      var before :- MakeObject(types, fields[..|fields| - 1]);
      var last := fields[|fields| - 1];
      var made :- MakeProperty(types, last, types.Keys);
      Ok((before.0[last.name := made.0], before.1 + made.1))
  }

  function MakeDefinition(types: Types, t: TypeDesc): Result<(Definition, set<Name>)> {
    match t
    case EnumType(values) => if values == [] then Raised else Ok((EnumDefinition(values), {}))
    case MessageType(fields, _) =>
      var made :- MakeObject(types, fields);
      Ok((ObjectDefinition(made.0), made.1))
  }

  method MakeObjectLoop(
    types: Types, fields: seq<Field>) returns (ok: bool, properties: map<Name, Property>, referenced: set<Name>)
    ensures ok <==> MakeObject(types, fields).Ok?
    ensures ok ==> MakeObject(types, fields) == Ok((properties, referenced))
  {
    ok, properties, referenced := true, map[], {};
    for k := 0 to |fields|
      invariant ok && MakeObject(types, fields[..k]) == Ok((properties, referenced))
    {
      assert fields[..k + 1][..k] == fields[..k];
      var made := MakeProperty(types, fields[k], types.Keys);
      if made.Raised? {
        PrefixRaises(types, fields, k + 1);
        ok := false;
        return;
      }
      properties := properties[fields[k].name := made.value.0];
      referenced := referenced + made.value.1;
    }
    assert fields[..|fields|] == fields;
  }

  lemma {:induction false} PrefixRaises(types: Types, fields: seq<Field>, k: nat)
    requires k <= |fields| && MakeObject(types, fields[..k]).Raised?
    ensures MakeObject(types, fields).Raised?
  {
    if k == |fields| {
      assert fields[..k] == fields;
    } else {
      assert fields[..|fields| - 1][..k] == fields[..k];
      PrefixRaises(types, fields[..|fields| - 1], k);
    }
  }

  /** make_object raises if and only if make_property does for some field. */
  lemma {:induction false} ObjectIsMade(types: Types, fields: seq<Field>)
    ensures MakeObject(types, fields).Ok? <==>
            forall i :: 0 <= i < |fields| ==> MakeProperty(types, fields[i], types.Keys).Ok?
  {
    if fields != [] {
      var n := |fields| - 1;
      ObjectIsMade(types, fields[..n]);
      assert forall i :: 0 <= i < n ==> fields[..n][i] == fields[i];
    }
  }

  ghost predicate LastOfName(fields: seq<Field>, name: Name, i: nat) {
    i < |fields| && fields[i].name == name && forall j :: i < j < |fields| ==> fields[j].name != name
  }

  /** Its properties are those of its fields, by name; of fields with one name the last counts. */
  lemma {:induction false} ObjectProperties(types: Types, fields: seq<Field>, name: Name)
    requires MakeObject(types, fields).Ok?
    ensures var properties := MakeObject(types, fields).value.0;
            if name in properties then
              exists i: nat :: && LastOfName(fields, name, i)
                               && MakeProperty(types, fields[i], types.Keys).Ok?
                               && MakeProperty(types, fields[i], types.Keys).value.0 == properties[name]
            else forall i :: 0 <= i < |fields| ==> fields[i].name != name
  {
    if fields != [] {
      var n := |fields| - 1;
      var properties := MakeObject(types, fields).value.0;
      if fields[n].name == name {
        assert LastOfName(fields, name, n);
      } else {
        ObjectProperties(types, fields[..n], name);
        if name in properties {
          var i: nat :| LastOfName(fields[..n], name, i)
                        && MakeProperty(types, fields[..n][i], types.Keys).value.0 == properties[name];
          assert LastOfName(fields, name, i);
        }
      }
    }
  }

  ghost predicate RefersTo(types: Types, field: Field, name: Name) {
    var made := MakeProperty(types, field, types.Keys);
    made.Ok? && name in made.value.1
  }

  /** It refers to what its fields refer to. */
  lemma {:induction false} ObjectRefersTo(types: Types, fields: seq<Field>, name: Name)
    requires MakeObject(types, fields).Ok?
    ensures name in MakeObject(types, fields).value.1 <==> exists f :: f in fields && RefersTo(types, f, name)
  {
    if fields != [] {
      var n := |fields| - 1;
      ObjectRefersTo(types, fields[..n], name);
      assert forall f :: f in fields <==> f in fields[..n] || f == fields[n];
      var made := MakeProperty(types, fields[n], types.Keys).value;
      assert MakeObject(types, fields).value.1 == MakeObject(types, fields[..n]).value.1 + made.1;
      assert name in made.1 <==> RefersTo(types, fields[n], name);
    }
  }

  /** An enumeration is defined by its values, if it has any, and refers to nothing; a message by its
      fields. */
  lemma {:induction false} DefinitionShape(types: Types, t: TypeDesc)
    ensures t.EnumType? ==>
              if |t.values| > 0 then MakeDefinition(types, t) == Ok((EnumDefinition(t.values), {}))
              else MakeDefinition(types, t).Raised?
    ensures t.MessageType? ==>
              var made := MakeObject(types, t.fields);
              && MakeDefinition(types, t).Ok? == made.Ok?
              && (made.Ok? ==> MakeDefinition(types, t).value == (ObjectDefinition(made.value.0), made.value.1))
  {}

  // ----- generate_definitions -----

  /** make_definition for a name, or nothing if the name is unknown or the call raises. */
  type Maker = Name -> Option<(Definition, set<Name>)>

  function MakeNamed(types: Types, name: Name): Option<(Definition, set<Name>)> {
    if name in types && MakeDefinition(types, types[name]).Ok?
    then Some(MakeDefinition(types, types[name]).value) else None
  }

  /** The types the definition of a type asks for. */
  function References(make: Maker, name: Name): set<Name> {
    if make(name).Some? then make(name).value.1 else {}
  }

  ghost predicate ClosedFrom(make: Maker, roots: set<Name>, names: set<Name>) {
    roots <= names && forall n :: n in names ==> References(make, n) <= names
  }

  /** Reached from a root by following k references. */
  ghost predicate ReachedIn(make: Maker, roots: set<Name>, name: Name, k: nat)
    decreases k
  {
    if k == 0 then name in roots
    else exists from :: ReachedIn(make, roots, from, k - 1) && name in References(make, from)
  }

  ghost predicate Reachable(make: Maker, roots: set<Name>, name: Name) {
    exists k: nat :: ReachedIn(make, roots, name, k)
  }

  /** The reachable names lie in every set that is closed under references. */
  lemma {:induction false} ReachedIsLeast(make: Maker, roots: set<Name>, names: set<Name>, name: Name, k: nat)
    requires ClosedFrom(make, roots, names) && ReachedIn(make, roots, name, k)
    ensures name in names
    decreases k
  {
    if k > 0 {
      var from :| ReachedIn(make, roots, from, k - 1) && name in References(make, from);
      ReachedIsLeast(make, roots, names, from, k - 1);
    }
  }

  /** Where the worklist stands: some types defined, others wanted, nothing forgotten. */
  ghost predicate Underway(make: Maker, roots: set<Name>, wanted: set<Name>, defined: set<Name>) {
    && wanted !! defined
    && roots <= wanted + defined
    && (forall n :: n in wanted + defined ==> Reachable(make, roots, n))
    && (forall n :: n in defined ==> References(make, n) <= wanted + defined)
  }

  lemma WorkStart(make: Maker, roots: set<Name>)
    ensures Underway(make, roots, roots, {})
  {
    assert forall n :: n in roots ==> ReachedIn(make, roots, n, 0);
  }

  lemma ReachableStep(make: Maker, roots: set<Name>, name: Name)
    requires Reachable(make, roots, name)
    ensures forall n :: n in References(make, name) ==> Reachable(make, roots, n)
  {
    var k: nat :| ReachedIn(make, roots, name, k);
    forall n | n in References(make, name) ensures Reachable(make, roots, n) {
      assert ReachedIn(make, roots, n, k + 1);
    }
  }

  lemma WorkStep(make: Maker, roots: set<Name>, wanted: set<Name>, defined: set<Name>, name: Name)
    requires Underway(make, roots, wanted, defined) && name in wanted
    ensures Underway(make, roots, wanted - {name} + (References(make, name) - (defined + {name})), defined + {name})
  {
    ReachableStep(make, roots, name);
    var wanted' := wanted - {name} + (References(make, name) - (defined + {name}));
    assert wanted' + (defined + {name}) == wanted + defined + References(make, name);
  }

  lemma WorkEnd(make: Maker, roots: set<Name>, defined: set<Name>)
    requires Underway(make, roots, {}, defined)
    ensures ClosedFrom(make, roots, defined) && forall n :: n in defined ==> Reachable(make, roots, n)
  {
    assert {} + defined == defined;
  }

  /** Each definition is the one make_definition gives. */
  ghost predicate AsMade(make: Maker, definitions: map<Name, Definition>) {
    forall n :: n in definitions ==> make(n).Some? && definitions[n] == make(n).value.0
  }

  /** The names in the order they were defined: all of them, none twice. */
  ghost predicate EachOnce(order: seq<Name>, names: set<Name>) {
    && (forall n :: n in order <==> n in names)
    && forall i, j :: 0 <= i < j < |order| ==> order[i] != order[j]
  }

  /** The worklist, which pops in any order. It succeeds exactly when all reachable types can be
      defined, and then has defined the reachable types and no others, each in one round; otherwise
      it names a reachable type that cannot be defined. */
  method Worklist(make: Maker, universe: set<Name>, roots: set<Name>)
    returns (failed: Option<Name>, definitions: map<Name, Definition>, order: seq<Name>)
    requires forall n :: make(n).Some? ==> n in universe
    ensures failed.None? ==> ClosedFrom(make, roots, definitions.Keys)
    ensures failed.None? ==> forall n :: n in definitions.Keys ==> Reachable(make, roots, n)
    ensures failed.None? ==> AsMade(make, definitions) && EachOnce(order, definitions.Keys)
    ensures failed.Some? ==> Reachable(make, roots, failed.value) && make(failed.value).None?
  {
    definitions, order := map[], [];
    var wanted := roots;
    WorkStart(make, roots);
    while wanted != {}
      invariant EachOnce(order, definitions.Keys) && definitions.Keys <= universe
      invariant Underway(make, roots, wanted, definitions.Keys)
      invariant AsMade(make, definitions)
      decreases universe - definitions.Keys
    {
      var name :| name in wanted;
      var made := make(name);
      if made.None? {
        return Some(name), definitions, order;
      }
      WorkStep(make, roots, wanted, definitions.Keys, name);
      ghost var before := definitions.Keys;
      definitions := definitions[name := made.value.0];
      assert definitions.Keys == before + {name};
      wanted := wanted - {name} + (made.value.1 - definitions.Keys);
      order := order + [name];
    }
    WorkEnd(make, roots, definitions.Keys);
    return None, definitions, order;
  }

  // ----- dangling references -----

  function PropertyRefs(p: Property): set<Name> {
    match p
    case Ref(name) => {name}
    case MapOf(values) => PropertyRefs(values)
    case ArrayOf(items) => PropertyRefs(items)
    case Plain(_) => {}
    case DateTime => {}
  }

  /** A name that a definition points to, from inside a map or from elsewhere. */
  ghost predicate PointsTo(d: Definition, name: Name, inMap: bool) {
    d.ObjectDefinition? &&
    exists p :: p in d.properties && d.properties[p].MapOf? == inMap && name in PropertyRefs(d.properties[p])
  }

  /** Every reference of the generated document has its definition. */
  ghost predicate Complete(definitions: map<Name, Definition>) {
    forall n, x, inMap :: n in definitions && PointsTo(definitions[n], x, inMap) ==> x in definitions
  }

  /** What reachable types point to from inside their maps is reachable for some other reason. */
  ghost predicate MapsReachable(make: Maker, roots: set<Name>) {
    forall n, x :: Reachable(make, roots, n) && make(n).Some? && PointsTo(make(n).value.0, x, true) ==>
        Reachable(make, roots, x)
  }

  lemma {:induction false} PropertyReferences(types: Types, field: Field)
    requires MakeProperty(types, field, types.Keys).Ok? && !MakeProperty(types, field, types.Keys).value.0.MapOf?
    ensures var made := MakeProperty(types, field, types.Keys).value; PropertyRefs(made.0) == made.1
  {
    match field.fieldType
    case Scalar(kind) => assert PropertyRefs(Plain(kind)) == {};
    case EnumField(name) => assert PropertyRefs(Ref(name)) == {name};
    case MessageField(name) => assert PropertyRefs(Ref(name)) == {name} && PropertyRefs(DateTime) == {};
  }

  /** An object's reference set covers what its properties point to outside of maps. */
  lemma {:induction false} ObjectReferences(types: Types, fields: seq<Field>)
    requires MakeObject(types, fields).Ok?
    ensures var (properties, referenced) := MakeObject(types, fields).value;
            forall p :: p in properties && !properties[p].MapOf? ==> PropertyRefs(properties[p]) <= referenced
  {
    if fields != [] {
      var n := |fields| - 1;
      ObjectReferences(types, fields[..n]);
      if !MakeProperty(types, fields[n], types.Keys).value.0.MapOf? {
        PropertyReferences(types, fields[n]);
      }
    }
  }

  lemma NamedReferences(types: Types, name: Name, x: Name)
    requires MakeNamed(types, name).Some? && PointsTo(MakeNamed(types, name).value.0, x, false)
    ensures x in MakeNamed(types, name).value.1
  {
    ObjectReferences(types, types[name].fields);
  }

  /** Whether the document generated for the roots is complete hangs on the maps alone. */
  lemma DanglingCondition(types: Types, make: Maker, roots: set<Name>, definitions: map<Name, Definition>)
    requires (forall n :: make(n) == MakeNamed(types, n)) && ClosedFrom(make, roots, definitions.Keys)
    requires AsMade(make, definitions) && forall n :: n in definitions ==> Reachable(make, roots, n)
    ensures Complete(definitions) <==> MapsReachable(make, roots)
  {
    forall n ensures n in definitions <==> Reachable(make, roots, n) {
      if Reachable(make, roots, n) {
        var k: nat :| ReachedIn(make, roots, n, k);
        ReachedIsLeast(make, roots, definitions.Keys, n, k);
      }
    }
    forall n, x | n in definitions && PointsTo(definitions[n], x, false) ensures x in definitions {
      NamedReferences(types, n, x);
      assert x in References(make, n);
    }
    if MapsReachable(make, roots) {
      forall n, x, inMap | n in definitions && PointsTo(definitions[n], x, inMap) ensures x in definitions {
        if inMap {
          assert Reachable(make, roots, n) && PointsTo(make(n).value.0, x, true);
        }
      }
    }
  }

  /** generate_definitions over a type table, cyclic or not, and whether or not it has every type
      that is referred to: the reachable types, each defined once, or a reachable type that cannot
      be defined; and the document is complete if and only if the maps allow it. */
  method GenerateDefinitions(types: Types, roots: set<Name>)
    returns (failed: Option<Name>, definitions: map<Name, Definition>, order: seq<Name>)
    ensures var make := (n: Name) => MakeNamed(types, n);
            if failed.None? then
              && ClosedFrom(make, roots, definitions.Keys)
              && (forall n :: n in definitions.Keys ==> Reachable(make, roots, n))
              && AsMade(make, definitions) && EachOnce(order, definitions.Keys)
              && (Complete(definitions) <==> MapsReachable(make, roots))
            else Reachable(make, roots, failed.value) && make(failed.value).None?
  {
    var make := (n: Name) => MakeNamed(types, n);
    failed, definitions, order := Worklist(make, types.Keys, roots);
    if failed.None? {
      DanglingCondition(types, make, roots, definitions);
    }
  }

  lemma {:induction false} OnlyRootReached(make: Maker, root: Name, name: Name, k: nat)
    requires References(make, root) == {} && ReachedIn(make, {root}, name, k)
    ensures name == root
    decreases k
  {
    if k > 0 {
      var from :| ReachedIn(make, {root}, from, k - 1) && name in References(make, from);
      OnlyRootReached(make, root, from, k - 1);
    }
  }

  lemma MapMessageIsMade(types: Types, a: Field, v: Field)
    requires a == Field("m", MessageField("E"), true) && v == Field("value", MessageField("B"), false)
    requires types == map["A" := MessageType([a], false),
                          "E" := MessageType([Field("key", Scalar(9), false), v], true),
                          "B" := MessageType([], false)]
    ensures MakeNamed(types, "A") == Some((ObjectDefinition(map["m" := MapOf(Ref("B"))]), {}))
  {
    assert "A" in types && "E" in types && "B" in types;
    assert "B" != TIMESTAMP && "E" != TIMESTAMP by {
      assert |"B"| == 1 && |"E"| == 1 && |TIMESTAMP| > 1;
    }
    assert types["E"].fields[1] == v;
    assert MakeProperty(types, v, types.Keys - {"E"}) == Ok((Ref("B"), {"B"}));
    assert MakeProperty(types, a, types.Keys) == Ok((MapOf(Ref("B")), {}));
    var fields := types["A"].fields;
    assert fields == [a] && fields[..0] == [];
    assert MakeObject(types, fields[..0]) == Ok((map[], {}));
    var none: set<Name> := {};
    assert none + {} == {};
    assert MakeObject(types, fields) == Ok((map["m" := MapOf(Ref("B"))], {}));
  }

  /** A message with a map to messages: generate_definitions for it leaves the map's value type
      undefined. */
  lemma MapValueDangles(types: Types, make: Maker, a: Field, v: Field)
    requires a == Field("m", MessageField("E"), true) && v == Field("value", MessageField("B"), false)
    requires types == map["A" := MessageType([a], false),
                          "E" := MessageType([Field("key", Scalar(9), false), v], true),
                          "B" := MessageType([], false)]
    requires forall n :: make(n) == MakeNamed(types, n)
    ensures (forall n :: Reachable(make, {"A"}, n) <==> n == "A") && !MapsReachable(make, {"A"})
  {
    MapMessageIsMade(types, a, v);
    assert ReachedIn(make, {"A"}, "A", 0);
    forall n | Reachable(make, {"A"}, n) ensures n == "A" {
      var k: nat :| ReachedIn(make, {"A"}, n, k);
      OnlyRootReached(make, "A", n, k);
    }
    var d := make("A").value.0;
    assert "m" in d.properties && "B" in PropertyRefs(d.properties["m"]);
    assert PointsTo(d, "B", true);
    assert "B"[0] != "A"[0];
    assert !Reachable(make, {"A"}, "B");
  }
}
