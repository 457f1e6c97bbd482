/** Field lowering: `_slot_to_field` turns one slot into a Scala field
    (camel-cased name, wrapped type, default), and `_get_fields` does so for
    every induced slot of a class that the schema view can resolve. */
module Fields {
  import opened Wrappers
  import opened Text
  import opened CaseConversion
  import opened TypeMap
  import opened SchemaModel

  /** `ScalaField`: what the class templates receive for one field. */
  datatype ScalaField = ScalaField(name: string, scalaType: string, default: string)

  /** How many values a field holds: a list, an option, or exactly one. */
  datatype Multiplicity = Repeated | Optional | Single

  /** The multiplicity the slot's flags ask for; `multivalued` wins over `required`. */
  function MultiplicityOf(multivalued: bool, required: bool): Multiplicity {
    if multivalued then Repeated else if !required then Optional else Single
  }

  /** The Scala type of a field or operation result: `List[T]`, `Option[T]` or bare `T`. */
  function WrapType(multivalued: bool, required: bool, base: string): string {
    match MultiplicityOf(multivalued, required)
    case Repeated => "List[" + base + "]"
    case Optional => "Option[" + base + "]"
    case Single => base
  }

  /** The default that goes with the wrapping: an empty list, `None`, or none at all. */
  function DefaultFor(multivalued: bool, required: bool): string {
    match MultiplicityOf(multivalued, required)
    case Repeated => " = List.empty"
    case Optional => " = None"
    case Single => ""
  }

  /** The schema type a slot refers to: its range, or "string" when the range
      is missing or empty. */
  function EffectiveRange(slot: Slot): string {
    if Present(slot.range) then slot.range.value else "string"
  }

  /** `_slot_to_field`. */
  function SlotToField(slot: Slot): (f: ScalaField)
    ensures f.name == CamelCase(slot.name)
    ensures f.default == "" <==> slot.required && !slot.multivalued
    ensures ReadBack(f) == Some((MultiplicityOf(slot.multivalued, slot.required),
                                 MapType(Some(EffectiveRange(slot)))))
  {
    var base := MapType(Some(EffectiveRange(slot)));
    ReadBackWrap(slot.multivalued, slot.required, base);
    ScalaField(
      CamelCase(slot.name),
      WrapType(slot.multivalued, slot.required, base),
      DefaultFor(slot.multivalued, slot.required))
  }

  // ---------------------------------------------------------------------------
  // Reading a field back: the default names the wrapper, the type names the base.
  // ---------------------------------------------------------------------------

  predicate WrappedIn(prefix: string, t: string) {
    |t| >= |prefix| + 1 && t[..|prefix|] == prefix && t[|t| - 1] == ']'
  }

  /** What a rendered field says about its slot: the multiplicity its default
      stands for and the Scala type inside the wrapper. */
  function ReadBack(f: ScalaField): Option<(Multiplicity, string)> {
    if f.default == " = List.empty" && WrappedIn("List[", f.scalaType) then
      Some((Repeated, f.scalaType[5..|f.scalaType| - 1]))
    else if f.default == " = None" && WrappedIn("Option[", f.scalaType) then
      Some((Optional, f.scalaType[7..|f.scalaType| - 1]))
    else if f.default == "" then
      Some((Single, f.scalaType))
    else
      None
  }

  lemma ReadBackWrap(multivalued: bool, required: bool, base: string)
    ensures ReadBack(ScalaField([], WrapType(multivalued, required, base), DefaultFor(multivalued, required)))
            == Some((MultiplicityOf(multivalued, required), base))
  {
    var t := WrapType(multivalued, required, base);
    match MultiplicityOf(multivalued, required)
    case Repeated =>
      assert t[..5] == "List[";
      assert t[5..|t| - 1] == base;
    case Optional =>
      assert t[..7] == "Option[";
      assert t[7..|t| - 1] == base;
    case Single =>
  }

  /** A multivalued slot lowers the same way whatever its `required` flag says. */
  lemma MultivaluedWins(slot: Slot)
    requires slot.multivalued
    ensures SlotToField(slot) == SlotToField(slot.(required := !slot.required))
    ensures SlotToField(slot).scalaType == "List[" + MapType(Some(EffectiveRange(slot))) + "]"
    ensures SlotToField(slot).default == " = List.empty"
  {
  }

  /** A slot without a range lowers exactly like one whose range is "string". */
  lemma MissingRangeIsString(slot: Slot)
    requires !Present(slot.range)
    ensures SlotToField(slot) == SlotToField(slot.(range := Some("string")))
    ensures MapType(Some(EffectiveRange(slot))) == "String"
  {
    MapTypeExamples(EffectiveRange(slot));
  }

  /** An optional, single-valued boolean slot such as `in_stock` becomes an
      `Option[Boolean]` field defaulting to `None`. */
  lemma OptionalBooleanSlot(slot: Slot)
    requires slot.range == Some("boolean") && !slot.multivalued && !slot.required
    ensures SlotToField(slot) == ScalaField(CamelCase(slot.name), "Option[Boolean]", " = None")
  {
    BooleanMapsToBoolean(EffectiveRange(slot));
    assert "Option[" + "Boolean" + "]" == "Option[Boolean]";
  }

  // ---------------------------------------------------------------------------
  // `_get_fields`.
  // ---------------------------------------------------------------------------

  /** The fields of a class with the given induced slot names: one field per
      name `get_slot` resolves, in order; unresolved names are dropped. */
  function FieldsOf(names: seq<string>, slots: map<string, Slot>): (r: seq<ScalaField>)
    ensures |r| <= |names|
  {
    if names == [] then [] else FieldOf(names[0], slots) + FieldsOf(names[1..], slots)
  }

  /** The field one induced slot name contributes: none when `get_slot` cannot
      resolve it. */
  function FieldOf(name: string, slots: map<string, Slot>): seq<ScalaField> {
    if name in slots then [SlotToField(slots[name])] else []
  }

  /** Lowering a concatenation of slot lists lowers each in turn: the fields
      keep the order of the induced slots. */
  lemma {:induction false} FieldsOfAppend(a: seq<string>, b: seq<string>, slots: map<string, Slot>)
    ensures FieldsOf(a + b, slots) == FieldsOf(a, slots) + FieldsOf(b, slots)
  {
    if a == [] {
      assert a + b == b;
    } else {
      assert (a + b)[1..] == a[1..] + b;
      FieldsOfAppend(a[1..], b, slots);
    }
  }

  /** When every induced slot resolves, there is exactly one field per slot,
      and field `i` is the lowering of slot `i`. */
  lemma {:induction false} FieldsOfAllResolved(names: seq<string>, slots: map<string, Slot>)
    requires forall i :: 0 <= i < |names| ==> names[i] in slots
    ensures |FieldsOf(names, slots)| == |names|
    ensures forall i :: 0 <= i < |names| ==> FieldsOf(names, slots)[i] == SlotToField(slots[names[i]])
  {
    if names != [] {
      FieldsOfAllResolved(names[1..], slots);
    }
  }

  /** A slot name `get_slot` cannot resolve contributes no field. */
  lemma FieldsOfUnresolved(name: string, slots: map<string, Slot>)
    requires name !in slots
    ensures FieldsOf([name], slots) == []
  {
  }

  /** `_get_fields`, as the loop over the induced slots. */
  method GetFields(cls: ClassDef, slots: map<string, Slot>) returns (fields: seq<ScalaField>)
    ensures fields == FieldsOf(cls.inducedSlots, slots)
    ensures |fields| <= |cls.inducedSlots|
  {
    var names := cls.inducedSlots;
    fields := [];
    var i := 0;
    while i < |names|
      invariant 0 <= i <= |names|
      invariant fields == FieldsOf(names[..i], slots)
    {
      FieldsOfAppend(names[..i], [names[i]], slots);
      assert names[..i + 1] == names[..i] + [names[i]];
      if names[i] in slots {
        fields := fields + [SlotToField(slots[names[i]])];
      }
      i := i + 1;
    }
    assert names[..i] == names;
  }
}
