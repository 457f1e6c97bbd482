# linkml-scala generator core, in Dafny

This project models the lowering logic of the linkml-scala Scala 3 code
generator. It covers two parts:

- `ScalaGenerator` in `src/linkml_scala/scalagen.py`. It turns a LinkML schema
  (classes, slots, enums, types and class annotations) into the inputs of its
  Scala templates, and fixes the order of the generated file.
- The "scala" annotation parser `ScalaClassAnnotation.from_annotation` in
  `src/linkml_scala/scala_metamodel.py`.

Every operation of that core is a pure Dafny function over immutable
datatypes. `Fields.GetFields` is the one loop, written as a method.

| file | module | what it holds |
|---|---|---|
| wrappers.dfy | `Wrappers` | `Option`, and `Result` with the Python exceptions the core can raise |
| text.dfy | `Text` | ASCII `upper`/`lower`, `str.split`/`str.join` with their round trip, `str.replace` on one character, `str(int)` |
| case_conversion.dfy | `CaseConversion` | `_to_pascal_case` and `_to_camel_case`, each proved equal to an independent one-pass scan of the characters |
| type_map.dfy | `TypeMap` | `TYPE_MAP` and `map_type` |
| metamodel.dfy | `Metamodel` | loosely typed annotation values, the records `ParameterDefinition`, `OperationDefinition` and `ScalaClassAnnotation`, and `from_annotation` with its inverse |
| schema.dfy | `SchemaModel` | the schema as the schema view presents it: classes, slots, enums, types, annotations |
| fields.dfy | `Fields` | `_slot_to_field` and `_get_fields` |
| scala_annotation.dfy | `ScalaAnnotation` | `_get_scala_annotation` and `_is_trait` |
| operations.dfy | `Operations` | `get_operations`, both as written and corrected (see Findings) |
| grouping.dfy | `Grouping` | the classification loop of `serialize` |
| declarations.dfy | `Declarations` | `_get_parent`, `_get_mixins`, `generate_class`, `generate_enum`, `generate_type_alias` and `serialize` |

Modelling choices:

- Python values that the source handles without checking their type are the
  datatype `Metamodel.Value`: None, bool, int, str, list or dict. Typed
  records keep such values exactly as the source copies them.
- A Python exception is `Failure(e)` of a `Result`. The cases are:
  - `MissingKey`: a `KeyError` from `d[key]`;
  - `NotAMapping`: `.get` or `[...]` called on a non-dict;
  - `NotIterable`: iterating over None, a bool or a number;
  - `NotAString`: `.lower()` called on a non-string;
  - `MissingAttribute`: reading an attribute a dataclass does not have.
- The schema view's answers are inputs:
  - `all_classes` is the ordered sequence `SchemaDef.classes`;
  - `class_induced_slots` is `ClassDef.inducedSlots`;
  - `get_slot` is the partial map `SchemaDef.slots`.
- JSON decoding is an input. A JSON-text annotation value carries what
  `json.loads` makes of it, or `None` when decoding raises.
- A template is a parameter. A class or enum becomes the `Declarations.Decl`
  that its template is rendered with. `Declarations.Serialize` takes the
  rendering function as an argument.

## Model

| member | source | states |
|---|---|---|
| TypeMap.MapType | src/linkml_scala/scalagen.py:83-91 | a missing type maps to `Any`; a name whose lower-cased form is a table key maps to a table value; any other name is returned unchanged, case kept |
| TypeMap.TableKeysAreLowerCase | src/linkml_scala/scalagen.py:26-40 | every table key is lower case, so a key looked up as written maps to its own table entry |
| TypeMap.MapTypeCaseInsensitive | src/linkml_scala/scalagen.py:87-89 | two names that lower-case to the same table key map to the same Scala type |
| TypeMap.TableValueIsFixedPoint | src/linkml_scala/scalagen.py:26-40 | for every table key, mapping its Scala type again gives that type back unchanged |
| TypeMap.MapTypeIdempotent | src/linkml_scala/scalagen.py:83-91 | `map_type(map_type(t)) == map_type(t)` for every input, including a missing one |
| TypeMap.BooleanMapsToBoolean | src/linkml_scala/scalagen.py:26-40 | `boolean` maps to `Boolean` |
| TypeMap.MapTypeExamples | tests/test_scalagen.py:19-47 | None gives `Any` and `string` gives `String` |
| TypeMap.ClassNameKept | tests/test_scalagen.py:43-44 | `Person`, not a built-in type, is kept as given |
| TypeMap.DateTimeIsInstant | src/linkml_scala/scalagen.py:83-91 | `DateTime` is looked up case-insensitively and gives `java.time.Instant` |
| Text.LowerAllMeaning | src/linkml_scala/scalagen.py:87 | `str.lower()` on ASCII leaves no upper-case letter, keeps every character's upper-case form, and leaves every character that is not an upper-case letter as it is |
| Text.LowerAllIdempotent | src/linkml_scala/scalagen.py:87 | lower-casing twice is lower-casing once |
| Text.Split | src/linkml_scala/scalagen.py:110 | `str.split(sep)` gives one more part than there are separators, and no part contains the separator |
| Text.JoinSplit | src/linkml_scala/scalagen.py:115 | joining the parts of a split with the separator gives back the input |
| Text.Join | src/linkml_scala/scalagen.py:261 | `sep.join(parts)` is empty for no parts; otherwise its length is the parts' lengths plus one separator between each two |
| Text.JoinPieces | src/linkml_scala/scalagen.py:261 | in a join followed by a newline, each part sits at the offset of the earlier parts and separators, a separator follows every part but the last, and the newline comes last |
| Text.SplitWithoutSeparator | src/linkml_scala/scalagen.py:110 | a string without the separator splits into itself alone |
| Text.SplitAtFirst | src/linkml_scala/scalagen.py:110 | splitting at the first separator gives the text before it, then the split of the rest |
| Text.Replace | src/linkml_scala/scalagen.py:233 | `str.replace` of one character: same length, that character replaced everywhere, every other character kept |
| CaseConversion.PascalCase | src/linkml_scala/scalagen.py:113-115 | split-on-`_`, upper-case each segment's first character, concatenate equals a one-pass scan that drops each `_` and upper-cases the character after it and the first one |
| CaseConversion.PascalCaseShape | src/linkml_scala/scalagen.py:113-115 | the Pascal-cased name has no `_`, and its length is the input's length minus the number of underscores |
| CaseConversion.PascalCaseIdempotent | src/linkml_scala/scalagen.py:113-115 | Pascal-casing a Pascal-cased name changes nothing |
| CaseConversion.PascalCaseExample | src/linkml_scala/scalagen.py:113-115 | `low` becomes `Low` |
| CaseConversion.CamelCase | src/linkml_scala/scalagen.py:108-111 | first segment verbatim plus later segments `capitalize`d equals a one-pass scan that copies up to the first `_`, then upper-cases each segment's first character and lower-cases the rest |
| CaseConversion.CamelCaseShape | src/linkml_scala/scalagen.py:108-111 | the camel-cased name has no `_`, and its length is the input's length minus the number of underscores |
| CaseConversion.CamelCaseWithoutUnderscore | src/linkml_scala/scalagen.py:108-111 | a name without `_` is returned unchanged |
| CaseConversion.CamelCaseIdempotent | src/linkml_scala/scalagen.py:108-111 | camel-casing a camel-cased name changes nothing |
| CaseConversion.CapitalizedSegmentsScan | src/linkml_scala/scalagen.py:108-111 | from every position and mode, the segment-wise reading agrees with the one-pass scan |
| CaseConversion.CamelCaseTwoSegments | src/linkml_scala/scalagen.py:108-111 | `x_y` with no `_` in `x` or `y` becomes `x` followed by `y` capitalized |
| CaseConversion.CamelCaseExample | src/linkml_scala/scalagen.py:108-111 | `in_stock` becomes `inStock` |
| Fields.SlotToField | src/linkml_scala/scalagen.py:93-106 | the field name is the camel-cased slot name; the default is empty exactly when the slot is required and not multivalued; reading the field back recovers the multiplicity (list, option or single) and the mapped range, with a missing or empty range read as `string` |
| Fields.ReadBackWrap | src/linkml_scala/scalagen.py:96-104 | the type wrapper and the default always agree, so the wrapped base type and the multiplicity can be read back from any field |
| Fields.MultivaluedWins | src/linkml_scala/scalagen.py:96-98 | a multivalued slot gives `List[T]` with `= List.empty`, whatever `required` says |
| Fields.MissingRangeIsString | src/linkml_scala/scalagen.py:95 | a slot with a missing or empty range lowers exactly as one with range `string`, to a `String` field |
| Fields.OptionalBooleanSlot | src/linkml_scala/scalagen.py:93-106 | an optional single-valued `boolean` slot, such as `in_stock`, becomes an `Option[Boolean]` field defaulting to `None` |
| Fields.FieldsOf | src/linkml_scala/scalagen.py:167-175 | there are never more fields than induced slots |
| Fields.FieldsOfAppend | src/linkml_scala/scalagen.py:171-174 | the fields of two runs of slots are the fields of each in turn, so induced-slot order is kept |
| Fields.FieldsOfAllResolved | src/linkml_scala/scalagen.py:171-174 | when every induced slot resolves there is one field per slot, and field `i` is the lowering of slot `i` |
| Fields.FieldsOfUnresolved | src/linkml_scala/scalagen.py:172-173 | a slot name that `get_slot` cannot resolve contributes no field |
| Fields.GetFields | src/linkml_scala/scalagen.py:167-175 | the loop builds exactly the resolved slots' fields, in order, at most one per induced slot |
| Metamodel.ParseParameter | src/linkml_scala/scala_metamodel.py:45-49 | a parameter parses exactly when it is a mapping with `name` and `range`; a missing `name`, then a missing `range`, is a `KeyError` for that key; both are copied verbatim; `default_value` is copied or defaults to None |
| Metamodel.ParseParameters | src/linkml_scala/scala_metamodel.py:43-49 | all parameters parse exactly when each does; the result keeps their number and order |
| Metamodel.ParseOperation | src/linkml_scala/scala_metamodel.py:44-58 | a non-mapping fails; the parameters are parsed before `name` is read, so a missing `name` is a `KeyError` only once they parse; the parameters are the parses of the `parameters` entries; `name` is copied; `range`, `multivalued`, `required`, `is_abstract` and `body` are copied or default to None, False, True, True and None |
| Metamodel.ParseOperations | src/linkml_scala/scala_metamodel.py:41-58 | all operations parse exactly when each does; the result keeps their number and order |
| Metamodel.FromAnnotation | src/linkml_scala/scala_metamodel.py:37-63 | a non-mapping gives no operations with both flags false; for a mapping, `is_interface` and `companion_object` are copied or default to False |
| Metamodel.ParseOperationSucceedsIffWellFormed | src/linkml_scala/scala_metamodel.py:44-58 | an operation parses exactly when it is a mapping with `name` whose parameters are iterable mappings each with `name` and `range` |
| Metamodel.FromAnnotationSucceedsIffWellFormed | src/linkml_scala/scala_metamodel.py:37-63 | parsing succeeds exactly when the input is not a mapping, or its `operations` entry (an empty list when absent) iterates over mappings that each have a `name` and parameters that each have a `name` and a `range` |
| Metamodel.FromAnnotationKeepsOrder | src/linkml_scala/scala_metamodel.py:42-58 | operations, and within each the parameters, keep the number and order of the input lists; operation `i` is the parse of entry `i` |
| Metamodel.FromAnnotationOperations | src/linkml_scala/scala_metamodel.py:41-58 | the operations of the result are the parses of the `operations` entries: each keeps or defaults `range`, `multivalued`, `required`, `is_abstract` and `body` (None, False, True, True, None), and its parameters are the parses of its `parameters` entries |
| Metamodel.FromAnnotationEmpty | src/linkml_scala/scala_metamodel.py:41-63 | the empty mapping gives no operations and both flags false |
| Metamodel.ParseParameterOfMapping | src/linkml_scala/scala_metamodel.py:45-49 | writing a parameter out as a mapping and parsing it back gives the same parameter |
| Metamodel.ParseParametersOfMappings | src/linkml_scala/scala_metamodel.py:43-49 | the round trip holds for every list of parameters |
| Metamodel.ParseOperationOfMapping | src/linkml_scala/scala_metamodel.py:50-58 | writing an operation out as a mapping and parsing it back gives the same operation |
| Metamodel.ParseOperationsOfMappings | src/linkml_scala/scala_metamodel.py:41-58 | the round trip holds for every list of operations |
| Metamodel.FromAnnotationRoundTrip | src/linkml_scala/scala_metamodel.py:37-63 | every annotation record, written out as a mapping, parses back to itself |
| ScalaAnnotation.GetScalaAnnotation | src/linkml_scala/scalagen.py:135-154 | no entry is named or tagged "scala" with a mapping value exactly when the result is None; otherwise the first such entry, in table order, is parsed and returned |
| ScalaAnnotation.SkipsUnparsableEntries | src/linkml_scala/scalagen.py:143-147 | unselected entries, text that fails to decode and non-mapping values do not hide a later "scala" annotation |
| ScalaAnnotation.IsTrait | src/linkml_scala/scalagen.py:156-165 | a mixin or abstract class is a trait without its annotations being read; otherwise a class is a trait exactly when its "scala" annotation sets `is_interface`; it raises exactly when that annotation is read and fails to parse |
| ScalaAnnotation.PlainClassIsCaseClass | src/linkml_scala/scalagen.py:156-165 | a class that is neither mixin nor abstract and has no "scala" annotation is not a trait |
| Operations.ParameterText | src/linkml_scala/scalagen.py:125 | one parameter renders as `name: Any` without a range and `name: <map_type(range)>` with a string range; any other range raises |
| Operations.ParameterTexts | src/linkml_scala/scalagen.py:124-126 | one `name: Type` text per parameter, in order; this fails exactly when some range is neither None nor a string |
| Operations.ParamsString | src/linkml_scala/scalagen.py:124-126 | no parameters give the empty string and one parameter gives its own text; the string fails exactly when a parameter text does |
| Operations.ParamsStringAppend | src/linkml_scala/scalagen.py:124-126 | adding a parameter appends `, ` and its text |
| Operations.IdParameterExample | src/linkml_scala/scalagen.py:124-126 | the parameter `id` of range `string` renders as `id: String` |
| Operations.OperationsAsWritten | src/linkml_scala/scalagen.py:120-133 | as written, the loop succeeds exactly when there is no annotation or it declares no operation, and then yields none; once the first operation's parameters render it raises `AttributeError` on `return_type` |
| Operations.GetOperationsAsWritten | src/linkml_scala/scalagen.py:117-133 | as written, every class whose "scala" annotation declares an operation makes `get_operations` raise |
| Operations.AsWrittenRaises | src/linkml_scala/scalagen.py:130 | once the first operation's parameters are rendered, reading `op.return_type` raises `AttributeError` |
| Operations.ReturnType | src/linkml_scala/scalagen.py:130 | corrected: an operation without a range returns `Unit`; otherwise its mapped range is wrapped as a field of the same `multivalued` and `required` flags would be |
| Operations.FindByIdReturnType | tests/test_metamodel_overlay.py:127-128 | corrected, `findById` returns `Option[Entity]` |
| Operations.CountReturnType | tests/test_metamodel_overlay.py:129-130 | corrected, `count` returns `Int` |
| Operations.FindAllReturnType | tests/test_metamodel_overlay.py:131-132 | corrected, `findAll` returns `List[Entity]` |
| Operations.ToScalaOperation | src/linkml_scala/scalagen.py:123-132 | one operation keeps its name and body and gets the parameter string and return type; it fails exactly when one of those does |
| Operations.ToScalaOperations | src/linkml_scala/scalagen.py:123-132 | one operation per declared operation, in order, with name and body copied and the parameter string and return type computed |
| Operations.GetOperations | src/linkml_scala/scalagen.py:117-133 | an annotation that fails to parse fails; no "scala" annotation gives no operations; otherwise one operation per declared operation, in order, succeeding exactly when each converts, with name, body and parameter string copied and a return type that is `Unit` without a range and otherwise the type of the field a slot with the same range, `multivalued` and `required` lowers to |
| Operations.FindByIdExample | src/linkml_scala/scalagen.py:117-133 | the tests' `findById` operation raises as written; corrected, it renders as `findById(id: String): Option[Entity]` |
| Declarations.PascalAll | src/linkml_scala/scalagen.py:183 | one Pascal-cased name per input name, same count and order, none containing `_` |
| Declarations.PascalAllAppend | src/linkml_scala/scalagen.py:183 | Pascal-casing a concatenation of lists is the concatenation of the Pascal-cased lists |
| Declarations.GetParent | src/linkml_scala/scalagen.py:177-180 | a parent is present exactly when `is_a` is set and non-empty, and is then its Pascal-cased form, without `_` |
| Declarations.GetMixins | src/linkml_scala/scalagen.py:182-183 | one Pascal-cased mixin per declared mixin, in declaration order |
| Declarations.GenerateEnum | src/linkml_scala/scalagen.py:212-219 | the enum's Pascal-cased name, and one Pascal-cased member per permissible value, in declaration order |
| Declarations.AliasTarget | src/linkml_scala/scalagen.py:223 | an alias stands for `map_type` of its `typeof`, and for `String` when `typeof` is missing or empty |
| Declarations.GenerateTypeAlias | src/linkml_scala/scalagen.py:221-224 | the line is `type `, then the Pascal-cased name (whatever it contains, spaces included), then ` = `, then the target, each at its position |
| Declarations.ParseAliasLine | src/linkml_scala/scalagen.py:224 | a line `type <n> = <t>` reads back as `n` and `t` whenever ` = ` does not start inside `n` |
| Declarations.SeparatorFreeWithoutEquals | src/linkml_scala/scalagen.py:224 | a name without `=` (spaces allowed) never hides the line's separator |
| Declarations.AliasReadBack | src/linkml_scala/scalagen.py:221-224 | the name and the target can be read back from an alias line: the Pascal-cased type name, and the mapped `typeof` (or the mapping of `string`), for every name in which ` = ` does not start |
| Declarations.AliasWithoutTypeof | src/linkml_scala/scalagen.py:223 | a type without `typeof` aliases `String`, exactly as if it were declared `typeof: string` |
| Declarations.GenerateCaseClass | src/linkml_scala/scalagen.py:191-199 | a case class declaration with the Pascal-cased name, the class's fields, its parent and its mixins |
| Declarations.GenerateTrait | src/linkml_scala/scalagen.py:201-210 | a trait declaration with the same name, fields, parent and mixins, plus the class's operations; it fails exactly when they cannot be computed |
| Declarations.GenerateClass | src/linkml_scala/scalagen.py:185-189 | exactly what `generate_trait` produces when `_is_trait` holds and what `generate_case_class` produces when it does not; failure comes from `_is_trait` or from a trait's operations |
| Declarations.MixinOrAbstractIsTrait | src/linkml_scala/scalagen.py:156-161 | a mixin or abstract class whose operations can be computed is generated as a trait (with the corrected `get_operations`; as written, such a class raises as soon as its annotation declares an operation) |
| Declarations.PackageName | src/linkml_scala/scalagen.py:233 | an explicit package name wins; otherwise the schema name with every `-` and `_` turned into `.`, with nothing else changed |
| Declarations.PackageNameExample | src/linkml_scala/scalagen.py:233 | `test_schema` gives package `test.schema`, and `com.example.model` when that is given |
| Grouping.Keep | src/linkml_scala/scalagen.py:248-253 | the kept classes are no more than the input and all have the requested role under the classifier (`_is_trait` in `serialize`) |
| Grouping.KeepAppend | src/linkml_scala/scalagen.py:248-253 | keeping distributes over concatenation, so schema order is kept within each group |
| Grouping.KeepMembers | src/linkml_scala/scalagen.py:248-253 | a class is kept exactly when it is in the schema and has the requested role |
| Grouping.Partition | src/linkml_scala/scalagen.py:246-253 | the loop succeeds exactly when the classifier (`_is_trait`) succeeds on every class; traits and case classes are each the classes of that role, in schema order, and together are the input as a multiset |
| Declarations.AliasParts | src/linkml_scala/scalagen.py:236-239 | only `type ` lines, at most one per type; a single type gives its alias line exactly when its `typeof` is set |
| Declarations.AliasPartsAppend | src/linkml_scala/scalagen.py:237-239 | the alias lines of two lists of types are those of the first followed by those of the second |
| Declarations.AliasPartsCount | src/linkml_scala/scalagen.py:237-239 | exactly one alias line per type that has a non-empty `typeof` |
| Declarations.EnumParts | src/linkml_scala/scalagen.py:241-243 | one enum declaration per enum, in order |
| Declarations.TraitPart | src/linkml_scala/scalagen.py:255-256 | a trait's part is the declaration `generate_trait` builds for it; it exists exactly when the trait's operations can be computed, and sorts in the trait group |
| Declarations.TraitParts | src/linkml_scala/scalagen.py:255-256 | one trait declaration per trait, in order, declaration `i` being that of trait `i`; this fails exactly when some trait's operations cannot be computed |
| Declarations.CaseClassParts | src/linkml_scala/scalagen.py:258-259 | one case class declaration per case class, in order |
| Declarations.Layout | src/linkml_scala/scalagen.py:226-259 | the file's pieces start with the package header; they can be built exactly when every class classifies and every trait's operations can be computed |
| Declarations.LayoutOrdered | src/linkml_scala/scalagen.py:232-259 | header and aliases, then enums, then traits, then case classes: no piece of a later group comes before one of an earlier group |
| Declarations.LayoutCount | src/linkml_scala/scalagen.py:232-259 | one header, one line per typed type, one declaration per enum and one per class |
| Declarations.LayoutClasses | src/linkml_scala/scalagen.py:245-259 | every class appears exactly once: after the enums come the traits' declarations in schema order, then the case classes' in schema order |
| Text.JoinStartsWith | src/linkml_scala/scalagen.py:261 | a join of one or more parts starts with the first part |
| Declarations.Header | src/linkml_scala/scalagen.py:234 | the header is `package `, the package name and a newline, and the package name reads back from it |
| Declarations.Serialize | src/linkml_scala/scalagen.py:226-261 | the output exists exactly when the layout does, and it ends with a newline |
| Declarations.Render | src/linkml_scala/scalagen.py:234-261 | each part becomes one text, in order: a literal part its own text, a class or enum declaration what its template renders for it |
| Declarations.SerializeLayout | src/linkml_scala/scalagen.py:230-261 | the output is the rendered parts in layout order, each at the offset the earlier parts and `"\n\n"` separators add up to, with `"\n\n"` between consecutive parts and a final newline |
| Declarations.SerializeStartsWithPackage | src/linkml_scala/scalagen.py:233-261 | the output starts with `package <pkg>` and a newline |

## Left out

- Declarations.AliasReadBack: a type whose Pascal-cased name contains ` = ` (or ends in ` =`) gives a line that no reader can split back unambiguously, for example `type A = b = String`; the read-back is promised for every other name, and the line's content is stated for all names on `GenerateTypeAlias`.
- Jinja template rendering (`scalagen.py:191-219`). The templates are not part of this model. A class or enum is modelled as the `Decl` its template receives, and `Declarations.Serialize` takes the rendering function as a parameter.
- The schema view (`SchemaView`, `class_induced_slots`, `get_slot`, `all_classes`, `get_class`). Its answers are inputs: ordered sequences and a partial map. The view's induced-slot computation and schema imports are not modelled.
- `json.loads`. A JSON-text annotation value carries its decoded value, or `None` when decoding raises. The `_as_dict` and `__dict__` conversions of annotation objects are folded into the `Structured` case.
- Floats, and any other Python value besides None, bool, int, str, list and dict. Annotation values are modelled only as those.
- Operations.Display: `str()` of a list or dict used as a parameter name is a fixed stand-in, not Python's `repr`, because a dict's insertion order is not kept in a Dafny map.
- CaseConversion.PascalCase: upper- and lower-casing are ASCII only. Python's Unicode case mapping, which can change a string's length, is not modelled.
- CaseConversion.CamelCase: ASCII only, for the same reason.
- Caching the schema view (`_get_schemaview`) has no effect on the results and is not modelled.
- The command line (`cli`, click) and file output (`scalagen.py:264-278`): plumbing around `serialize`.
- `scripts/check_metamodel_sync.py`: CI plumbing over YAML loading and dataclass reflection. It is not part of this model.
- Generator features that only the tests exercise and `scalagen.py` does not implement: rules, codec generation, slot_usage merging and `validate` companions, `union_of` sealed traits, and extending the first mixin. The compile-and-run tests (`scalac`, `coursier`) are out of scope too.
- Declarations.GenerateTrait and Declarations.Serialize use the corrected `get_operations` (see Findings). As written, `generate_trait` raises for any class whose "scala" annotation declares an operation, and `serialize` raises for any trait whose "scala" annotation declares one (`scalagen.py:250-256`); a case class's operations are never read.

## Findings

| source | as written | input that shows it | evidently intended | confidence | as-written member | corrected member |
|---|---|---|---|---|---|---|
| src/linkml_scala/scalagen.py:130 | `return_type=op.return_type or "Unit"` reads a field that `OperationDefinition` (src/linkml_scala/scala_metamodel.py:20-27) does not declare, so `AttributeError` is raised for every operation | a class annotated `{"is_interface": true, "operations": [{"name": "findById", "parameters": [{"name": "id", "range": "string"}], "range": "Entity", "required": false}]}` | the return type is computed from the operation's `range`, `multivalued` and `required` the way a field's type is, and is `Unit` without a range; the tests expect `Option[Entity]`, `Int` and `List[Entity]` (tests/test_metamodel_overlay.py:128-132) | high, not executed | Operations.GetOperationsAsWritten | Operations.GetOperations |
