/** Class role: `_get_scala_annotation` picks the class's "scala" annotation
    and parses it, and `_is_trait` decides from it and the class's flags
    whether the class becomes a Scala trait or a case class. */
module ScalaAnnotation {
  import opened Wrappers
  import opened Metamodel
  import opened SchemaModel

  /** The entry is named "scala" or is an annotation object tagged "scala". */
  predicate Selected(key: string, ann: Annotation) {
    key == "scala" || (ann.Tagged? && ann.tag == "scala")
  }

  /** The mapping an annotation value stands for, if it is one: JSON text that
      decodes to an object, or a structured value that is (or was turned into)
      a dict. Text that fails to decode and every other value stand for none. */
  function DecodedMapping(v: AnnotationValue): Option<map<string, Value>> {
    match v
    case JsonText(decoded) =>
      if decoded.Some? && decoded.value.VMap? then Some(decoded.value.entries) else None
    case Structured(x) =>
      if x.VMap? then Some(x.entries) else None
  }

  /** The entry is one `_get_scala_annotation` would parse. */
  predicate Qualifies(entry: (string, Annotation)) {
    Selected(entry.0, entry.1) && DecodedMapping(entry.1.value).Some?
  }

  /** `from_annotation` applied to the mapping of a qualifying entry. */
  function ParseEntry(entry: (string, Annotation)): Result<Option<ScalaClassAnnotation>>
    requires Qualifies(entry)
  {
    var a :- FromAnnotation(VMap(DecodedMapping(entry.1.value).value));
    Success(Some(a))
  }

  /** `_get_scala_annotation`: the first qualifying entry, in table order, is
      parsed and returned; entries that are not selected, or whose value is not
      a mapping, are skipped; with none left the answer is `None`. */
  function GetScalaAnnotation(anns: seq<(string, Annotation)>): (r: Result<Option<ScalaClassAnnotation>>)
    ensures (forall i :: 0 <= i < |anns| ==> !Qualifies(anns[i])) <==> r == Success(None)
    ensures forall i ::
              (0 <= i < |anns| && Qualifies(anns[i]) && forall j :: 0 <= j < i ==> !Qualifies(anns[j]))
              ==> r == ParseEntry(anns[i])
  {
    if anns == [] then Success(None)
    else if Qualifies(anns[0]) then ParseEntry(anns[0])
    else
      var r := GetScalaAnnotation(anns[1..]);
      assert forall i :: 1 <= i < |anns| ==> anns[i] == anns[1..][i - 1];
      r
  }

  /** Entries that cannot be parsed do not hide a later "scala" annotation. */
  lemma SkipsUnparsableEntries(skipped: seq<(string, Annotation)>, entry: (string, Annotation))
    requires forall i :: 0 <= i < |skipped| ==> !Qualifies(skipped[i])
    requires Qualifies(entry)
    ensures GetScalaAnnotation(skipped + [entry]) == ParseEntry(entry)
  {
    var anns := skipped + [entry];
    assert anns[|skipped|] == entry;
    assert forall j :: 0 <= j < |skipped| ==> anns[j] == skipped[j];
  }

  /** The class carries a "scala" annotation that parses and sets `is_interface`. */
  predicate InterfaceAnnotated(cls: ClassDef) {
    var r := GetScalaAnnotation(cls.annotations);
    r.Success? && r.value.Some? && Truthy(r.value.value.isInterface)
  }

  /** `_is_trait`: a mixin or abstract class is a trait without its annotations
      being looked at; any other class is one exactly when its "scala"
      annotation sets `is_interface`. Parsing that annotation can fail. */
  function IsTrait(cls: ClassDef): (r: Result<bool>)
    ensures cls.isMixin || cls.isAbstract ==> r == Success(true)
    ensures r.Success? ==> (r.value <==> cls.isMixin || cls.isAbstract || InterfaceAnnotated(cls))
    ensures r.Failure? <==> !cls.isMixin && !cls.isAbstract && GetScalaAnnotation(cls.annotations).Failure?
  {
    if cls.isMixin then Success(true)
    else if cls.isAbstract then Success(true)
    else
      var ann :- GetScalaAnnotation(cls.annotations);
      Success(ann.Some? && Truthy(ann.value.isInterface))
  }

  /** A class that is neither mixin nor abstract and has no "scala" annotation
      is a case class. */
  lemma PlainClassIsCaseClass(cls: ClassDef)
    requires !cls.isMixin && !cls.isAbstract
    requires forall i :: 0 <= i < |cls.annotations| ==> !Selected(cls.annotations[i].0, cls.annotations[i].1)
    ensures IsTrait(cls) == Success(false)
  {
  }
}
