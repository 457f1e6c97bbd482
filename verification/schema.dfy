/** The schema as the generator reads it through the schema view: classes,
    slots, enums and types, with the view's queries (`all_classes`,
    `class_induced_slots`, `get_slot`) already answered as ordered sequences
    and a partial map. */
module SchemaModel {
  import opened Wrappers
  import opened Metamodel

  /** Python truthiness of an optional string: absent and empty are both false. */
  predicate Present(o: Option<string>) {
    o.Some? && o.value != []
  }

  /** `SlotDefinition`, as far as the generator reads it. */
  datatype Slot = Slot(name: string, range: Option<string>, multivalued: bool, required: bool)

  /** The value an annotation carries. `JsonText` is a string, given together
      with what `json.loads` makes of it (`None` when it raises). `Structured`
      is a value that is already a dict, or an object that `_as_dict` or
      `__dict__` turned into one, or any other non-string value. */
  datatype AnnotationValue = JsonText(decoded: Option<Value>) | Structured(structured: Value)

  /** An entry of a class's annotation table: an `Annotation` object with a
      tag and a value, or a bare value with neither attribute. */
  datatype Annotation = Tagged(tag: string, value: AnnotationValue) | Bare(value: AnnotationValue)

  /** `ClassDefinition`, with its induced slot names precomputed by the schema view. */
  datatype ClassDef = ClassDef(
    name: string,
    isA: Option<string>,
    mixins: seq<string>,
    isAbstract: bool,
    isMixin: bool,
    annotations: seq<(string, Annotation)>,
    inducedSlots: seq<string>)

  /** `EnumDefinition`: its name and the texts of its permissible values, in order. */
  datatype EnumDef = EnumDef(name: string, permissibleValues: seq<string>)

  /** `TypeDefinition`: its name and the type it is declared `typeof`. */
  datatype TypeDef = TypeDef(name: string, typeof: Option<string>)

  /** The schema: its own types and enums in declaration order, every class
      `all_classes` lists, in that order, and the slots `get_slot` can find. */
  datatype SchemaDef = SchemaDef(
    name: string,
    types: seq<TypeDef>,
    enums: seq<EnumDef>,
    classes: seq<ClassDef>,
    slots: map<string, Slot>)
}
