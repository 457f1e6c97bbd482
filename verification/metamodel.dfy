/** The Scala metamodel extension: the typed records a class's "scala"
    annotation is parsed into (`ParameterDefinition`, `OperationDefinition`,
    `ScalaClassAnnotation`) and `ScalaClassAnnotation.from_annotation`, which
    reads them out of a loosely typed mapping, filling documented defaults. */
module Metamodel {
  import opened Wrappers

  /** A loosely typed annotation value, as JSON decoding or a plain dict
      delivers it. Mapping keys are strings. */
  datatype Value =
    | VNone
    | VBool(b: bool)
    | VInt(i: int)
    | VStr(s: string)
    | VList(items: seq<Value>)
    | VMap(entries: map<string, Value>)

  /** Python truthiness of a value. */
  predicate Truthy(v: Value) {
    match v
    case VNone => false
    case VBool(b) => b
    case VInt(i) => i != 0
    case VStr(s) => s != []
    case VList(xs) => xs != []
    case VMap(m) => m != map[]
  }

  /** `d.get(key, default)`. */
  function GetOr(m: map<string, Value>, key: string, default: Value): Value {
    if key in m then m[key] else default
  }

  /** A record field read from `m[key]`: the entry itself when the key is
      present, the documented default when it is absent. */
  predicate CopiedOrDefault(m: map<string, Value>, key: string, field: Value, default: Value) {
    if key in m then field == m[key] else field == default
  }

  /** `d[key]`, which raises KeyError when the key is absent. */
  function Index(m: map<string, Value>, key: string): (r: Result<Value>)
    ensures key in m <==> r.Success?
    ensures r.Success? ==> r.value == m[key]
    ensures r.Failure? ==> r.error == MissingKey(key)
  {
    if key in m then Success(m[key]) else Failure(MissingKey(key))
  }

  /** The elements `for x in v` hands to the loop body in `from_annotation`.
      A list gives its elements. An empty string or mapping runs no iteration.
      A non-empty string or mapping yields strings, on which the loop body's
      first `.get` or `["name"]` fails. None, booleans and numbers are not
      iterable at all. */
  function Items(v: Value): (r: Result<seq<Value>>)
    ensures v.VList? ==> r == Success(v.items)
  {
    match v
    case VList(xs) => Success(xs)
    case VStr(s) => if s == [] then Success([]) else Failure(NotAMapping)
    case VMap(m) => if m == map[] then Success([]) else Failure(NotAMapping)
    case _ => Failure(NotIterable)
  }

  /** `ParameterDefinition`: a parameter of an interface operation. */
  datatype ParameterDefinition = ParameterDefinition(name: Value, range: Value, defaultValue: Value)

  /** `OperationDefinition`: an operation declared on an interface. */
  datatype OperationDefinition = OperationDefinition(
    name: Value,
    parameters: seq<ParameterDefinition>,
    range: Value,
    multivalued: Value,
    required: Value,
    isAbstract: Value,
    body: Value)

  /** `ScalaClassAnnotation`: the parsed "scala" annotation of a class. */
  datatype ScalaClassAnnotation = ScalaClassAnnotation(
    operations: seq<OperationDefinition>,
    isInterface: Value,
    companionObject: Value)

  /** `ScalaClassAnnotation()`: no operations, both flags false. */
  const DefaultAnnotation := ScalaClassAnnotation([], VBool(false), VBool(false))

  // ---------------------------------------------------------------------------
  // Parsing, `from_annotation`.
  // ---------------------------------------------------------------------------

  /** One entry of an operation's "parameters" list. Its "name" and "range"
      are mandatory (read with `p[...]`), "default_value" is optional. */
  function ParseParameter(p: Value): (r: Result<ParameterDefinition>)
    ensures r.Success? <==> p.VMap? && "name" in p.entries && "range" in p.entries
    ensures p.VMap? && "name" !in p.entries ==> r == Failure(MissingKey("name"))
    ensures p.VMap? && "name" in p.entries && "range" !in p.entries ==> r == Failure(MissingKey("range"))
    ensures r.Success? ==> && r.value.name == p.entries["name"]
                           && r.value.range == p.entries["range"]
                           && CopiedOrDefault(p.entries, "default_value", r.value.defaultValue, VNone)
  {
    match p
    case VMap(m) =>
      var name :- Index(m, "name");
      var range :- Index(m, "range");
      Success(ParameterDefinition(name, range, GetOr(m, "default_value", VNone)))
    case _ => Failure(NotAMapping)
  }

  /** The parameters of one operation, in list order; the first malformed
      entry aborts the parse. */
  function ParseParameters(items: seq<Value>): (r: Result<seq<ParameterDefinition>>)
    ensures r.Success? <==> forall i :: 0 <= i < |items| ==> ParseParameter(items[i]).Success?
    ensures r.Success? ==> |r.value| == |items|
    ensures r.Success? ==> forall i :: 0 <= i < |items| ==> r.value[i] == ParseParameter(items[i]).value
  {
    if items == [] then Success([])
    else
      var p :- ParseParameter(items[0]);
      var rest :- ParseParameters(items[1..]);
      Success([p] + rest)
  }

  /** One entry of the "operations" list. The parameters are parsed first, then
      the mandatory "name" is read; every other key falls back to its default:
      no range, not multivalued, required, abstract, no body. */
  function ParseOperation(op: Value): (r: Result<OperationDefinition>)
    ensures !op.VMap? ==> r == Failure(NotAMapping)
    ensures (&& op.VMap? && ParameterItems(op.entries).Success?
             && ParseParameters(ParameterItems(op.entries).value).Success?
             && "name" !in op.entries) ==> r == Failure(MissingKey("name"))
    ensures op.VMap? && ParameterItems(op.entries).Failure? ==> r == Failure(ParameterItems(op.entries).error)
    ensures (&& op.VMap? && ParameterItems(op.entries).Success?
             && ParseParameters(ParameterItems(op.entries).value).Failure?)
            ==> r == Failure(ParseParameters(ParameterItems(op.entries).value).error)
    ensures r.Success? ==> op.VMap? && "name" in op.entries && r.value.name == op.entries["name"]
    ensures r.Success? ==> && ParameterItems(op.entries).Success?
                           && ParseParameters(ParameterItems(op.entries).value).Success?
                           && r.value.parameters == ParseParameters(ParameterItems(op.entries).value).value
    ensures r.Success? ==> && CopiedOrDefault(op.entries, "range", r.value.range, VNone)
                           && CopiedOrDefault(op.entries, "multivalued", r.value.multivalued, VBool(false))
                           && CopiedOrDefault(op.entries, "required", r.value.required, VBool(true))
                           && CopiedOrDefault(op.entries, "is_abstract", r.value.isAbstract, VBool(true))
                           && CopiedOrDefault(op.entries, "body", r.value.body, VNone)
  {
    match op
    case VMap(m) =>
      var items :- Items(GetOr(m, "parameters", VList([])));
      var params :- ParseParameters(items);
      var name :- Index(m, "name");
      Success(OperationDefinition(
        name, params,
        GetOr(m, "range", VNone),
        GetOr(m, "multivalued", VBool(false)),
        GetOr(m, "required", VBool(true)),
        GetOr(m, "is_abstract", VBool(true)),
        GetOr(m, "body", VNone)))
    case _ => Failure(NotAMapping)
  }

  /** The operations, in list order; the first malformed entry aborts the parse. */
  function ParseOperations(items: seq<Value>): (r: Result<seq<OperationDefinition>>)
    ensures r.Success? <==> forall i :: 0 <= i < |items| ==> ParseOperation(items[i]).Success?
    ensures r.Success? ==> |r.value| == |items|
    ensures r.Success? ==> forall i :: 0 <= i < |items| ==> r.value[i] == ParseOperation(items[i]).value
  {
    if items == [] then Success([])
    else
      var op :- ParseOperation(items[0]);
      var rest :- ParseOperations(items[1..]);
      Success([op] + rest)
  }

  /** `ScalaClassAnnotation.from_annotation`: anything but a mapping gives the
      default annotation; a mapping has its "operations" parsed and its two
      flags copied, each defaulting to false. */
  function FromAnnotation(v: Value): (r: Result<ScalaClassAnnotation>)
    ensures !v.VMap? ==> r == Success(DefaultAnnotation)
    ensures r.Success? && v.VMap? ==>
      && CopiedOrDefault(v.entries, "is_interface", r.value.isInterface, VBool(false))
      && CopiedOrDefault(v.entries, "companion_object", r.value.companionObject, VBool(false))
  {
    match v
    case VMap(m) =>
      var items :- Items(GetOr(m, "operations", VList([])));
      var ops :- ParseOperations(items);
      Success(ScalaClassAnnotation(
        ops,
        GetOr(m, "is_interface", VBool(false)),
        GetOr(m, "companion_object", VBool(false))))
    case _ => Success(DefaultAnnotation)
  }

  // ---------------------------------------------------------------------------
  // When parsing succeeds, and what it keeps.
  // ---------------------------------------------------------------------------

  /** The "operations" entry of an annotation mapping, as the loop sees it. */
  function OperationItems(m: map<string, Value>): Result<seq<Value>> {
    Items(GetOr(m, "operations", VList([])))
  }

  /** The "parameters" entry of an operation mapping, as the loop sees it. */
  function ParameterItems(m: map<string, Value>): Result<seq<Value>> {
    Items(GetOr(m, "parameters", VList([])))
  }

  predicate WellFormedParameter(p: Value) {
    p.VMap? && "name" in p.entries && "range" in p.entries
  }

  predicate WellFormedOperation(op: Value) {
    && op.VMap?
    && ParameterItems(op.entries).Success?
    && (forall q :: q in ParameterItems(op.entries).value ==> WellFormedParameter(q))
    && "name" in op.entries
  }

  /** What `from_annotation` needs in order not to raise: a non-mapping is
      always fine; a mapping needs an iterable "operations" entry whose every
      element is a mapping with a "name" and an iterable "parameters" entry
      whose every element is a mapping with a "name" and a "range". */
  predicate WellFormedAnnotation(v: Value) {
    v.VMap? ==>
      && OperationItems(v.entries).Success?
      && forall op :: op in OperationItems(v.entries).value ==> WellFormedOperation(op)
  }

  lemma ParseOperationSucceedsIffWellFormed(op: Value)
    ensures ParseOperation(op).Success? <==> WellFormedOperation(op)
  {
    if op.VMap? && ParameterItems(op.entries).Success? {
      var items := ParameterItems(op.entries).value;
      if ParseParameters(items).Success? {
        forall q | q in items
          ensures WellFormedParameter(q)
        {
          var i :| 0 <= i < |items| && items[i] == q;
        }
      }
      if forall q :: q in items ==> WellFormedParameter(q) {
        forall i | 0 <= i < |items|
          ensures ParseParameter(items[i]).Success?
        {
          assert items[i] in items;
        }
      }
    }
  }

  /** `from_annotation` returns (rather than raising) exactly on well-formed input. */
  lemma FromAnnotationSucceedsIffWellFormed(v: Value)
    ensures FromAnnotation(v).Success? <==> WellFormedAnnotation(v)
  {
    if v.VMap? && OperationItems(v.entries).Success? {
      var items := OperationItems(v.entries).value;
      forall i | 0 <= i < |items|
        ensures ParseOperation(items[i]).Success? <==> WellFormedOperation(items[i])
      {
        ParseOperationSucceedsIffWellFormed(items[i]);
      }
      if ParseOperations(items).Success? {
        forall op | op in items
          ensures WellFormedOperation(op)
        {
          var i :| 0 <= i < |items| && items[i] == op;
        }
      }
    }
  }

  /** The operations come out in the order, and the number, of the input list,
      and each operation keeps the order and number of its parameters. */
  lemma FromAnnotationKeepsOrder(v: Value)
    requires v.VMap? && FromAnnotation(v).Success?
    ensures OperationItems(v.entries).Success?
    ensures var items := OperationItems(v.entries).value;
            var ops := FromAnnotation(v).value.operations;
            && |ops| == |items|
            && forall i :: 0 <= i < |items| ==>
                 && ParseOperation(items[i]) == Success(ops[i])
                 && items[i].VMap?
                 && ops[i].name == items[i].entries["name"]
                 && ParameterItems(items[i].entries).Success?
                 && |ops[i].parameters| == |ParameterItems(items[i].entries).value|
                 && forall j :: 0 <= j < |ops[i].parameters| ==>
                      ops[i].parameters[j].name == ParameterItems(items[i].entries).value[j].entries["name"]
  {
    var items := OperationItems(v.entries).value;
    var ops := FromAnnotation(v).value.operations;
    forall i | 0 <= i < |items|
      ensures && items[i].VMap?
              && ParameterItems(items[i].entries).Success?
              && |ops[i].parameters| == |ParameterItems(items[i].entries).value|
              && forall j :: 0 <= j < |ops[i].parameters| ==>
                   ops[i].parameters[j].name == ParameterItems(items[i].entries).value[j].entries["name"]
    {
      assert ParseOperation(items[i]).Success?;
      assert ops[i] == ParseOperation(items[i]).value;
    }
  }

  /** The operations of a parsed annotation are the parses of its
      "operations" entries: each keeps or defaults its range, flags and body
      as `OperationDefinition` declares (no range, not multivalued, required,
      abstract, no body), and its parameters are the parses of its
      "parameters" entries. */
  lemma FromAnnotationOperations(v: Value)
    requires v.VMap? && FromAnnotation(v).Success?
    ensures OperationItems(v.entries).Success?
    ensures ParseOperations(OperationItems(v.entries).value) == Success(FromAnnotation(v).value.operations)
    ensures var items := OperationItems(v.entries).value;
            var ops := FromAnnotation(v).value.operations;
            forall i :: 0 <= i < |items| ==>
              && i < |ops| && items[i].VMap?
              && CopiedOrDefault(items[i].entries, "range", ops[i].range, VNone)
              && CopiedOrDefault(items[i].entries, "multivalued", ops[i].multivalued, VBool(false))
              && CopiedOrDefault(items[i].entries, "required", ops[i].required, VBool(true))
              && CopiedOrDefault(items[i].entries, "is_abstract", ops[i].isAbstract, VBool(true))
              && CopiedOrDefault(items[i].entries, "body", ops[i].body, VNone)
              && ParameterItems(items[i].entries).Success?
              && ParseParameters(ParameterItems(items[i].entries).value) == Success(ops[i].parameters)
  {
    var items := OperationItems(v.entries).value;
    var ops := FromAnnotation(v).value.operations;
    forall i | 0 <= i < |items|
      ensures && i < |ops| && ParseOperation(items[i]) == Success(ops[i])
    {
    }
  }

  /** An empty mapping gives the documented defaults. */
  lemma FromAnnotationEmpty()
    ensures FromAnnotation(VMap(map[])) == Success(DefaultAnnotation)
  {
  }

  // ---------------------------------------------------------------------------
  // The inverse: the mapping a parsed annotation is read back from.
  // ---------------------------------------------------------------------------

  /** The mapping that lists every field of a parameter. */
  function ParameterMapping(p: ParameterDefinition): Value {
    VMap(map["name" := p.name, "range" := p.range, "default_value" := p.defaultValue])
  }

  function ParameterMappings(ps: seq<ParameterDefinition>): (r: seq<Value>)
    ensures |r| == |ps|
    ensures forall i :: 0 <= i < |ps| ==> r[i] == ParameterMapping(ps[i])
  {
    seq(|ps|, i requires 0 <= i < |ps| => ParameterMapping(ps[i]))
  }

  /** The mapping that lists every field of an operation. */
  function OperationMapping(op: OperationDefinition): Value {
    VMap(map[
      "name" := op.name,
      "parameters" := VList(ParameterMappings(op.parameters)),
      "range" := op.range,
      "multivalued" := op.multivalued,
      "required" := op.required,
      "is_abstract" := op.isAbstract,
      "body" := op.body])
  }

  function OperationMappings(ops: seq<OperationDefinition>): (r: seq<Value>)
    ensures |r| == |ops|
    ensures forall i :: 0 <= i < |ops| ==> r[i] == OperationMapping(ops[i])
  {
    seq(|ops|, i requires 0 <= i < |ops| => OperationMapping(ops[i]))
  }

  /** The mapping that lists every field of an annotation. */
  function AnnotationMapping(a: ScalaClassAnnotation): Value {
    VMap(map[
      "operations" := VList(OperationMappings(a.operations)),
      "is_interface" := a.isInterface,
      "companion_object" := a.companionObject])
  }

  lemma ParseParameterOfMapping(p: ParameterDefinition)
    ensures ParseParameter(ParameterMapping(p)) == Success(p)
  {
    var m := ParameterMapping(p).entries;
    assert "name" in m && m["name"] == p.name;
    assert "range" in m && m["range"] == p.range;
    assert "default_value" in m && m["default_value"] == p.defaultValue;
  }

  lemma {:induction false} ParseParametersOfMappings(ps: seq<ParameterDefinition>)
    ensures ParseParameters(ParameterMappings(ps)) == Success(ps)
  {
    if ps != [] {
      var ms := ParameterMappings(ps);
      ParseParametersOfMappings(ps[1..]);
      assert ms[1..] == ParameterMappings(ps[1..]);
      ParseParameterOfMapping(ps[0]);
      assert ParseParameter(ms[0]) == Success(ps[0]);
      assert ParseParameters(ms) == Success([ps[0]] + ps[1..]);
      assert [ps[0]] + ps[1..] == ps;
    }
  }

  /** Every field of an operation can be looked up in its mapping. */
  lemma OperationMappingEntries(op: OperationDefinition)
    ensures var m := OperationMapping(op).entries;
            && "parameters" in m && m["parameters"] == VList(ParameterMappings(op.parameters))
            && "name" in m && m["name"] == op.name
            && "range" in m && m["range"] == op.range
            && "multivalued" in m && m["multivalued"] == op.multivalued
            && "required" in m && m["required"] == op.required
            && "is_abstract" in m && m["is_abstract"] == op.isAbstract
            && "body" in m && m["body"] == op.body
  {
  }

  lemma ParseOperationOfMapping(op: OperationDefinition)
    ensures ParseOperation(OperationMapping(op)) == Success(op)
  {
    ParseParametersOfMappings(op.parameters);
    OperationMappingEntries(op);
  }

  lemma {:induction false} ParseOperationsOfMappings(ops: seq<OperationDefinition>)
    ensures ParseOperations(OperationMappings(ops)) == Success(ops)
  {
    if ops != [] {
      var ms := OperationMappings(ops);
      ParseOperationsOfMappings(ops[1..]);
      assert ms[1..] == OperationMappings(ops[1..]);
      ParseOperationOfMapping(ops[0]);
      assert ParseOperation(ms[0]) == Success(ops[0]);
      assert ParseOperations(ms) == Success([ops[0]] + ops[1..]);
      assert [ops[0]] + ops[1..] == ops;
    }
  }

  /** Every field of an annotation can be looked up in its mapping. */
  lemma AnnotationMappingEntries(a: ScalaClassAnnotation)
    ensures var m := AnnotationMapping(a).entries;
            && "operations" in m && m["operations"] == VList(OperationMappings(a.operations))
            && "is_interface" in m && m["is_interface"] == a.isInterface
            && "companion_object" in m && m["companion_object"] == a.companionObject
  {
  }

  /** Reading back the mapping that lists every field of an annotation gives
      that annotation: `from_annotation` loses nothing that is present. */
  lemma FromAnnotationRoundTrip(a: ScalaClassAnnotation)
    ensures FromAnnotation(AnnotationMapping(a)) == Success(a)
  {
    ParseOperationsOfMappings(a.operations);
    AnnotationMappingEntries(a);
  }
}
