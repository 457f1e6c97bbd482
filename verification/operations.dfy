/** Interface operations: `get_operations` turns the operations of a class's
    "scala" annotation into what the trait template receives, a name, a
    parameter string, a return type and an optional body.

    As written, the source reads `op.return_type`, a field `OperationDefinition`
    does not have, so every annotation with an operation raises. That behaviour
    is `GetOperationsAsWritten`; `GetOperations` is the corrected definition,
    which computes the return type from the operation's range and flags the way
    a field's type is computed, and is what the trait declarations use. */
module Operations {
  import opened Wrappers
  import opened Text
  import opened TypeMap
  import opened Metamodel
  import opened SchemaModel
  import opened Fields
  import opened ScalaAnnotation

  /** `ScalaOperation`: what the trait template receives for one operation. */
  datatype ScalaOperation = ScalaOperation(name: Value, paramsStr: string, returnType: string, body: Value)

  /** `str(v)` as an f-string renders it, for the scalar values; lists and
      mappings get a fixed stand-in for their repr. */
  function Display(v: Value): string {
    match v
    case VNone => "None"
    case VBool(b) => if b then "True" else "False"
    case VInt(i) => IntToString(i)
    case VStr(s) => s
    case VList(_) => "[...]"
    case VMap(_) => "{...}"
  }

  /** `map_type` applied to a loosely typed range: None is `Any`, a string is
      looked up, and anything else has no `.lower()` and raises. */
  function MapTypeOf(v: Value): (r: Result<string>)
    ensures r.Success? <==> v.VNone? || v.VStr?
    ensures v.VNone? ==> r == Success("Any")
    ensures v.VStr? ==> r == Success(MapType(Some(v.s)))
  {
    match v
    case VNone => Success(MapType(None))
    case VStr(s) => Success(MapType(Some(s)))
    case _ => Failure(NotAString)
  }

  /** One parameter as the operation signature shows it: `name: Type`, the
      type being `map_type` of the range. A range that is neither None nor a
      string raises. */
  function ParameterText(p: ParameterDefinition): (r: Result<string>)
    ensures r.Success? <==> p.range.VNone? || p.range.VStr?
    ensures p.range.VNone? ==> r == Success(Display(p.name) + ": " + "Any")
    ensures p.range.VStr? ==> r == Success(Display(p.name) + ": " + MapType(Some(p.range.s)))
  {
    var t :- MapTypeOf(p.range);
    Success(Display(p.name) + ": " + t)
  }

  /** The parameter texts, in parameter order; the first unmappable range aborts. */
  function ParameterTexts(ps: seq<ParameterDefinition>): (r: Result<seq<string>>)
    ensures r.Success? <==> forall i :: 0 <= i < |ps| ==> ps[i].range.VNone? || ps[i].range.VStr?
    ensures r.Success? ==> |r.value| == |ps|
    ensures r.Success? ==> forall i :: 0 <= i < |ps| ==>
              r.value[i] == Display(ps[i].name) + ": " + MapTypeOf(ps[i].range).value
  {
    if ps == [] then Success([])
    else
      var t :- ParameterText(ps[0]);
      var rest :- ParameterTexts(ps[1..]);
      Success([t] + rest)
  }

  /** The parameter list of an operation signature: the texts joined by ", ". */
  function ParamsString(ps: seq<ParameterDefinition>): (r: Result<string>)
    ensures ps == [] ==> r == Success("")
    ensures |ps| == 1 && ParameterText(ps[0]).Success? ==> r == Success(ParameterText(ps[0]).value)
    ensures r.Success? <==> ParameterTexts(ps).Success?
  {
    var texts :- ParameterTexts(ps);
    Success(Join(texts, ", "))
  }

  /** Adding a parameter adds its text after a ", " separator. */
  lemma ParamsStringAppend(ps: seq<ParameterDefinition>, p: ParameterDefinition)
    requires ps != []
    requires ParamsString(ps).Success? && ParameterText(p).Success?
    ensures ParamsString(ps + [p]) == Success(ParamsString(ps).value + ", " + ParameterText(p).value)
  {
    var texts := ParameterTexts(ps).value;
    var all := ParameterTexts(ps + [p]);
    assert all.Success? by {
      forall i | 0 <= i < |ps + [p]|
        ensures (ps + [p])[i].range.VNone? || (ps + [p])[i].range.VStr?
      {
        if i < |ps| {
          assert (ps + [p])[i] == ps[i];
        }
      }
    }
    assert all.value == texts + [ParameterText(p).value];
    JoinAppend(texts, ParameterText(p).value, ", ");
  }

  lemma {:induction false} JoinAppend(xs: seq<string>, x: string, sep: string)
    requires xs != []
    ensures Join(xs + [x], sep) == Join(xs, sep) + sep + x
  {
    if |xs| == 1 {
      assert xs + [x] == [xs[0], x];
    } else {
      assert (xs + [x])[1..] == xs[1..] + [x];
      JoinAppend(xs[1..], x, sep);
    }
  }

  // ---------------------------------------------------------------------------
  // As written: `return_type=op.return_type or "Unit"`.
  // ---------------------------------------------------------------------------

  /** `get_operations` exactly as written: the parameters of the first
      operation are rendered, then reading `op.return_type` raises. */
  function OperationsAsWritten(ann: Option<ScalaClassAnnotation>): (r: Result<seq<ScalaOperation>>)
    ensures r.Success? <==> ann.None? || ann.value.operations == []
    ensures r.Success? ==> r.value == []
    ensures ann.Some? && ann.value.operations != [] && ParamsString(ann.value.operations[0].parameters).Success?
            ==> r == Failure(MissingAttribute("return_type"))
  {
    if ann.None? || ann.value.operations == [] then Success([])
    else
      var params :- ParamsString(ann.value.operations[0].parameters);
      Failure(MissingAttribute("return_type"))
  }

  function GetOperationsAsWritten(cls: ClassDef): (r: Result<seq<ScalaOperation>>)
    ensures var ann := GetScalaAnnotation(cls.annotations);
            ann.Success? && ann.value.Some? && ann.value.value.operations != [] ==> r.Failure?
  {
    var ann :- GetScalaAnnotation(cls.annotations);
    OperationsAsWritten(ann)
  }

  // ---------------------------------------------------------------------------
  // Corrected: the return type is computed from the operation's range.
  // ---------------------------------------------------------------------------

  /** The Scala result type of an operation: `Unit` without a range, otherwise
      the mapped range wrapped as `List[T]`, `Option[T]` or bare `T` exactly
      as a slot with the same flags would be. */
  function ReturnType(op: OperationDefinition): (r: Result<string>)
    ensures !Truthy(op.range) ==> r == Success("Unit")
    ensures Truthy(op.range) ==> (r.Success? <==> op.range.VStr?)
    ensures Truthy(op.range) && op.range.VStr? ==> r == Success(SlotToField(ResultSlot(op)).scalaType)
  {
    if !Truthy(op.range) then Success("Unit")
    else
      var base :- MapTypeOf(op.range);
      Success(WrapType(Truthy(op.multivalued), Truthy(op.required), base))
  }

  /** The slot an operation's result stands for: its range, with its
      `multivalued` and `required` flags read as Python truth values. */
  function ResultSlot(op: OperationDefinition): Slot
    requires op.range.VStr?
  {
    Slot([], Some(op.range.s), Truthy(op.multivalued), Truthy(op.required))
  }

  /** One operation as the trait template receives it: name and body copied,
      the parameter string and return type computed; it raises exactly when
      one of those two does. */
  function ToScalaOperation(op: OperationDefinition): (r: Result<ScalaOperation>)
    ensures r.Success? <==> ParamsString(op.parameters).Success? && ReturnType(op).Success?
    ensures r.Success? ==> && r.value.name == op.name && r.value.body == op.body
                           && r.value.paramsStr == ParamsString(op.parameters).value
                           && r.value.returnType == ReturnType(op).value
  {
    var params :- ParamsString(op.parameters);
    var returnType :- ReturnType(op);
    Success(ScalaOperation(op.name, params, returnType, op.body))
  }

  /** The operations of an annotation, in order; the first that cannot be
      rendered aborts. */
  function ToScalaOperations(ops: seq<OperationDefinition>): (r: Result<seq<ScalaOperation>>)
    ensures r.Success? <==> forall i :: 0 <= i < |ops| ==> ToScalaOperation(ops[i]).Success?
    ensures r.Success? ==> |r.value| == |ops|
    ensures r.Success? ==> forall i :: 0 <= i < |ops| ==>
              && r.value[i].name == ops[i].name
              && r.value[i].body == ops[i].body
              && r.value[i].paramsStr == ParamsString(ops[i].parameters).value
              && r.value[i].returnType == ReturnType(ops[i]).value
  {
    if ops == [] then Success([])
    else
      var op :- ToScalaOperation(ops[0]);
      var rest :- ToScalaOperations(ops[1..]);
      Success([op] + rest)
  }

  /** `get_operations`, corrected: no "scala" annotation means no operations;
      otherwise one operation per declared operation, in order, whose result
      type is `Unit` without a range and otherwise the type of the field a
      slot with the same range and flags lowers to. */
  function GetOperations(cls: ClassDef): (r: Result<seq<ScalaOperation>>)
    ensures GetScalaAnnotation(cls.annotations).Failure? ==> r.Failure?
    ensures GetScalaAnnotation(cls.annotations) == Success(None) ==> r == Success([])
    ensures var ann := GetScalaAnnotation(cls.annotations);
            ann.Success? && ann.value.Some? ==>
              var ops := ann.value.value.operations;
              && (r.Success? <==> forall i :: 0 <= i < |ops| ==> ToScalaOperation(ops[i]).Success?)
              && (r.Success? ==> |r.value| == |ops|)
              && (r.Success? ==> forall i :: 0 <= i < |ops| ==>
                    && r.value[i].name == ops[i].name
                    && r.value[i].body == ops[i].body
                    && r.value[i].paramsStr == ParamsString(ops[i].parameters).value
                    && (!Truthy(ops[i].range) ==> r.value[i].returnType == "Unit")
                    && (Truthy(ops[i].range) ==>
                          ops[i].range.VStr? && r.value[i].returnType == SlotToField(ResultSlot(ops[i])).scalaType))
  {
    var ann :- GetScalaAnnotation(cls.annotations);
    if ann.None? then Success([]) else ToScalaOperations(ann.value.operations)
  }

  // ---------------------------------------------------------------------------
  // The discrepancy, on the operations the generator's tests declare.
  // ---------------------------------------------------------------------------

  /** `findById(id: string)`, optional `Entity` result. */
  const FindById := OperationDefinition(
    VStr("findById"), [ParameterDefinition(VStr("id"), VStr("string"), VNone)],
    VStr("Entity"), VBool(false), VBool(false), VBool(true), VNone)

  /** `count()`, an `integer` result with a body. */
  const CountOp := OperationDefinition(
    VStr("count"), [], VStr("integer"), VBool(false), VBool(true), VBool(false), VStr("0"))

  /** `findAll()`, a multivalued `Entity` result. */
  const FindAll := OperationDefinition(
    VStr("findAll"), [], VStr("Entity"), VBool(true), VBool(true), VBool(true), VNone)

  /** On an annotation declaring any operation, the source as written raises. */
  lemma AsWrittenRaises(ann: ScalaClassAnnotation)
    requires ann.operations != []
    requires ParamsString(ann.operations[0].parameters).Success?
    ensures OperationsAsWritten(Some(ann)) == Failure(MissingAttribute("return_type"))
  {
  }

  lemma IdParameterExample(p: ParameterDefinition)
    requires p == ParameterDefinition(VStr("id"), VStr("string"), VNone)
    ensures ParameterTexts([p]) == Success(["id: String"])
  {
    assert MapType(Some("string")) == "String" by {
      assert LowerAll("string") == "string";
    }
    assert MapTypeOf(p.range) == Success("String");
    assert "id" + ": " + "String" == "id: String";
    var r := ParameterTexts([p]);
    assert [p][0] == p;
    assert r.Success?;
    assert r.value[0] == "id: String";
    assert r.value == ["id: String"];
  }

  /** The result type the generator's tests expect for `findById`. */
  lemma FindByIdReturnType(op: OperationDefinition)
    requires op == FindById
    ensures ReturnType(op) == Success("Option[Entity]")
  {
    assert MapType(Some("Entity")) == "Entity" by {
      assert LowerAll("Entity") == "entity";
    }
    assert "Option[" + "Entity" + "]" == "Option[Entity]";
  }

  /** The result type the generator's tests expect for `count`. */
  lemma CountReturnType(op: OperationDefinition)
    requires op == CountOp
    ensures ReturnType(op) == Success("Int")
  {
    assert MapType(Some("integer")) == "Int" by {
      assert LowerAll("integer") == "integer";
    }
  }

  /** The result type the generator's tests expect for `findAll`. */
  lemma FindAllReturnType(op: OperationDefinition)
    requires op == FindAll
    ensures ReturnType(op) == Success("List[Entity]")
  {
    assert MapType(Some("Entity")) == "Entity" by {
      assert LowerAll("Entity") == "entity";
    }
    assert "List[" + "Entity" + "]" == "List[Entity]";
  }

  /** The test's `findById`: as written the call raises; corrected, it is
      rendered with the signature the test expects. */
  lemma FindByIdExample(ann: ScalaClassAnnotation)
    requires ann == ScalaClassAnnotation([FindById], VBool(true), VBool(false))
    ensures OperationsAsWritten(Some(ann)).Failure?
    ensures ToScalaOperations(ann.operations)
            == Success([ScalaOperation(VStr("findById"), "id: String", "Option[Entity]", VNone)])
  {
    var op := ann.operations[0];
    IdParameterExample(op.parameters[0]);
    assert op.parameters == [op.parameters[0]];
    assert ParamsString(op.parameters) == Success("id: String");
    FindByIdReturnType(op);
    var r := ToScalaOperations(ann.operations);
    assert ToScalaOperation(op).Success?;
    assert r.Success?;
    assert ann.operations[0] == op;
    assert r.value[0] == ScalaOperation(VStr("findById"), "id: String", "Option[Entity]", VNone);
    assert |r.value| == 1;
    assert r.value == [ScalaOperation(VStr("findById"), "id: String", "Option[Entity]", VNone)];
  }
}
