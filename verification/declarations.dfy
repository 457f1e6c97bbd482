/** Declaration assembly: what `generate_class`, `generate_enum` and
    `generate_type_alias` produce for one schema element, and the order in
    which `serialize` lays the pieces of a Scala file out.

    The Jinja templates are not modelled: a class or enum becomes the `Decl`
    its template receives, and `Serialize` takes the rendering as a
    parameter. */
module Declarations {
  import opened Wrappers
  import opened Text
  import opened CaseConversion
  import opened TypeMap
  import opened SchemaModel
  import opened Fields
  import opened ScalaAnnotation
  import opened Operations
  import opened Grouping

  /** What a class or enum template is rendered with. */
  datatype Decl =
    | CaseClassDecl(name: string, fields: seq<ScalaField>, parent: Option<string>, mixins: seq<string>)
    | TraitDecl(name: string, fields: seq<ScalaField>, parent: Option<string>, mixins: seq<string>,
                operations: seq<ScalaOperation>)
    | EnumDecl(name: string, values: seq<string>)

  // ---------------------------------------------------------------------------
  // Supertypes.
  // ---------------------------------------------------------------------------

  /** Every name Pascal-cased, in order. */
  function PascalAll(names: seq<string>): (r: seq<string>)
    ensures |r| == |names|
    ensures forall i :: 0 <= i < |names| ==> r[i] == PascalCase(names[i]) && '_' !in r[i]
  {
    if names == [] then []
    else
      PascalCaseShape(names[0]);
      [PascalCase(names[0])] + PascalAll(names[1..])
  }

  /** Pascal-casing a concatenation of lists Pascal-cases each in turn. */
  lemma {:induction false} PascalAllAppend(a: seq<string>, b: seq<string>)
    ensures PascalAll(a + b) == PascalAll(a) + PascalAll(b)
  {
    if a == [] {
      assert a + b == b;
    } else {
      assert (a + b)[1..] == a[1..] + b;
      PascalAllAppend(a[1..], b);
    }
  }

  /** `_get_parent`: present exactly when `is_a` is set (non-empty), and then
      its Pascal-cased form. */
  function GetParent(cls: ClassDef): (r: Option<string>)
    ensures r.Some? <==> Present(cls.isA)
    ensures r.Some? ==> r.value == PascalCase(cls.isA.value) && '_' !in r.value
  {
    if Present(cls.isA) then
      PascalCaseShape(cls.isA.value);
      Some(PascalCase(cls.isA.value))
    else None
  }

  /** `_get_mixins`: one Pascal-cased name per mixin, in declaration order. */
  function GetMixins(cls: ClassDef): (r: seq<string>)
    ensures |r| == |cls.mixins|
    ensures forall i :: 0 <= i < |r| ==> r[i] == PascalCase(cls.mixins[i]) && '_' !in r[i]
  {
    PascalAll(cls.mixins)
  }

  // ---------------------------------------------------------------------------
  // Enums and type aliases.
  // ---------------------------------------------------------------------------

  /** `generate_enum`: the enum's Pascal-cased name and one Pascal-cased member
      per permissible value, in declaration order. */
  function GenerateEnum(e: EnumDef): (r: Decl)
    ensures r.EnumDecl? && r.name == PascalCase(e.name)
    ensures |r.values| == |e.permissibleValues|
    ensures forall i :: 0 <= i < |r.values| ==>
              r.values[i] == PascalCase(e.permissibleValues[i]) && '_' !in r.values[i]
  {
    EnumDecl(PascalCase(e.name), PascalAll(e.permissibleValues))
  }

  /** The Scala type an alias stands for: the mapped `typeof`, or the mapping
      of "string" when `typeof` is missing or empty. */
  function AliasTarget(td: TypeDef): (r: string)
    ensures Present(td.typeof) ==> r == MapType(Some(td.typeof.value))
    ensures !Present(td.typeof) ==> r == "String"
  {
    MapTypeExamples("string");
    MapType(Some(if Present(td.typeof) then td.typeof.value else "string"))
  }

  /** `generate_type_alias`: `type <Name> = <Target>`, the name Pascal-cased
      whatever it contains. */
  function GenerateTypeAlias(td: TypeDef): (r: string)
    ensures var name := PascalCase(td.name);
            && |r| == 8 + |name| + |AliasTarget(td)|
            && r[..5] == "type "
            && r[5..5 + |name|] == name
            && r[5 + |name|..8 + |name|] == " = "
            && r[8 + |name|..] == AliasTarget(td)
  {
    "type " + PascalCase(td.name) + " = " + AliasTarget(td)
  }

  /** `" = "` starts at position `i` of `s`. */
  predicate SeparatorAt(s: string, i: int) {
    0 <= i && i + 3 <= |s| && s[i] == ' ' && s[i + 1] == '=' && s[i + 2] == ' '
  }

  /** The first position at which `" = "` starts in `s`, or `|s|` when it
      does not occur. */
  function FirstSeparator(s: string): (k: nat)
    ensures k <= |s|
    ensures k == |s| || SeparatorAt(s, k)
    ensures forall i :: 0 <= i < k ==> !SeparatorAt(s, i)
  {
    if |s| < 3 then |s|
    else if SeparatorAt(s, 0) then 0
    else
      var k := FirstSeparator(s[1..]);
      assert forall i :: 1 <= i <= |s| ==> (SeparatorAt(s, i) <==> SeparatorAt(s[1..], i - 1));
      1 + k
  }

  /** Reads an alias line back into its name and target: the name ends at the
      first `" = "` after `type `. */
  function ParseAlias(line: string): Option<(string, string)> {
    if |line| < 5 || line[..5] != "type " then None
    else
      var rest := line[5..];
      var k := FirstSeparator(rest);
      if k < |rest| then Some((rest[..k], rest[k + 3..])) else None
  }

  /** A name whose alias line has its own separator as the first `" = "`:
      `" = "` starts nowhere in the name, not even running into the separator
      after it. */
  predicate SeparatorFree(n: string) {
    forall i :: 0 <= i < |n| ==> !SeparatorAt(n + " = ", i)
  }

  /** A name without `=` is separator-free, spaces and all. */
  lemma SeparatorFreeWithoutEquals(n: string)
    requires '=' !in n
    ensures SeparatorFree(n)
  {
    forall i | 0 <= i < |n|
      ensures !SeparatorAt(n + " = ", i)
    {
      if i + 1 < |n| {
        assert (n + " = ")[i + 1] == n[i + 1];
      }
    }
  }

  /** Any line `type <n> = <t>` reads back as `(n, t)` when `n` is separator-free. */
  lemma ParseAliasLine(n: string, t: string)
    requires SeparatorFree(n)
    ensures ParseAlias("type " + n + " = " + t) == Some((n, t))
  {
    var line := "type " + n + " = " + t;
    var rest := n + " = " + t;
    assert line == "type " + rest;
    assert line[..5] == "type " && line[5..] == rest;
    forall i | 0 <= i < |n|
      ensures !SeparatorAt(rest, i)
    {
      assert !SeparatorAt(n + " = ", i);
      assert rest[i..i + 3] == (n + " = ")[i..i + 3];
    }
    assert SeparatorAt(rest, |n|);
    assert FirstSeparator(rest) == |n|;
    assert rest[..|n|] == n;
    assert rest[|n| + 3..] == t;
  }

  /** An alias line names the Pascal-cased type and its target, and both can
      be read back from it, whenever the Pascal-cased name is separator-free
      (a name without `=`, for one). */
  lemma AliasReadBack(td: TypeDef)
    requires SeparatorFree(PascalCase(td.name))
    ensures ParseAlias(GenerateTypeAlias(td)) == Some((PascalCase(td.name), AliasTarget(td)))
  {
    ParseAliasLine(PascalCase(td.name), AliasTarget(td));
  }

  /** A type without `typeof` aliases `String`, as one declared `typeof: string`. */
  lemma AliasWithoutTypeof(td: TypeDef)
    requires !Present(td.typeof)
    ensures GenerateTypeAlias(td) == GenerateTypeAlias(td.(typeof := Some("string")))
    ensures AliasTarget(td) == "String"
  {
    assert LowerAll("string") == "string";
  }

  // ---------------------------------------------------------------------------
  // Classes.
  // ---------------------------------------------------------------------------

  /** `generate_case_class`. */
  function GenerateCaseClass(cls: ClassDef, slots: map<string, Slot>): (r: Decl)
    ensures r.CaseClassDecl? && r.name == PascalCase(cls.name) && '_' !in r.name
    ensures r.fields == FieldsOf(cls.inducedSlots, slots)
    ensures r.parent == GetParent(cls) && r.mixins == GetMixins(cls)
  {
    PascalCaseShape(cls.name);
    CaseClassDecl(PascalCase(cls.name), FieldsOf(cls.inducedSlots, slots), GetParent(cls), GetMixins(cls))
  }

  /** `generate_trait`, with the corrected operations; it fails exactly when
      they cannot be computed. */
  function GenerateTrait(cls: ClassDef, slots: map<string, Slot>): (r: Result<Decl>)
    ensures r.Success? <==> GetOperations(cls).Success?
    ensures r.Success? ==>
              && r.value.TraitDecl? && r.value.name == PascalCase(cls.name) && '_' !in r.value.name
              && r.value.fields == FieldsOf(cls.inducedSlots, slots)
              && r.value.parent == GetParent(cls) && r.value.mixins == GetMixins(cls)
              && r.value.operations == GetOperations(cls).value
  {
    var ops :- GetOperations(cls);
    PascalCaseShape(cls.name);
    Success(TraitDecl(PascalCase(cls.name), FieldsOf(cls.inducedSlots, slots), GetParent(cls), GetMixins(cls), ops))
  }

  /** `generate_class`: a trait declaration exactly for the classes `_is_trait`
      accepts, a case class declaration for the others. */
  function GenerateClass(cls: ClassDef, slots: map<string, Slot>): (r: Result<Decl>)
    ensures r.Success? <==>
              IsTrait(cls).Success? && (IsTrait(cls).value ==> GetOperations(cls).Success?)
    ensures r.Success? ==> (r.value.TraitDecl? <==> IsTrait(cls) == Success(true))
    ensures r.Success? ==> (r.value.CaseClassDecl? <==> IsTrait(cls) == Success(false))
    ensures r.Success? ==> r.value.name == PascalCase(cls.name)
    ensures IsTrait(cls) == Success(true) ==> r == GenerateTrait(cls, slots)
    ensures IsTrait(cls) == Success(false) ==> r == Success(GenerateCaseClass(cls, slots))
  {
    var isTrait :- IsTrait(cls);
    if isTrait then GenerateTrait(cls, slots) else Success(GenerateCaseClass(cls, slots))
  }

  /** A mixin or abstract class becomes a trait whatever its annotations say,
      as long as its operations can be computed. */
  lemma MixinOrAbstractIsTrait(cls: ClassDef, slots: map<string, Slot>)
    requires cls.isMixin || cls.isAbstract
    requires GetOperations(cls).Success?
    ensures GenerateClass(cls, slots).Success? && GenerateClass(cls, slots).value.TraitDecl?
  {
  }

  // ---------------------------------------------------------------------------
  // `serialize`.
  // ---------------------------------------------------------------------------

  /** The package of the generated file: the explicit name when one is given,
      otherwise the schema name with every `-` and `_` turned into `.`. */
  function PackageName(schemaName: string, packageName: Option<string>): (r: string)
    ensures Present(packageName) ==> r == packageName.value
    ensures !Present(packageName) ==> |r| == |schemaName| && '-' !in r && '_' !in r
    ensures !Present(packageName) ==> forall i :: 0 <= i < |schemaName| ==>
              r[i] == (if schemaName[i] == '-' || schemaName[i] == '_' then '.' else schemaName[i])
  {
    if Present(packageName) then packageName.value
    else Replace(Replace(schemaName, '-', '.'), '_', '.')
  }

  /** The schema `test_schema` goes into package `test.schema` unless a
      package is given. The name is a parameter pinned by `requires`, not a
      literal, so that the verifier does not unfold `Replace` on it wherever
      it appears. */
  lemma PackageNameExample(name: string)
    requires name == "test_schema"
    ensures PackageName(name, None) == "test.schema"
    ensures PackageName(name, Some("com.example.model")) == "com.example.model"
  {
    var r := PackageName(name, None);
    assert |r| == 11;
    assert r[4] == '.';
    assert forall i :: 0 <= i < 11 && i != 4 ==> r[i] == name[i];
    assert r == "test.schema";
  }

  /** A piece of the generated file: literal text, or a declaration handed to
      its template. */
  datatype Part = Literal(text: string) | Rendered(decl: Decl)

  /** The position of a part's group in the file: header and aliases, enums,
      traits, case classes. */
  function Rank(p: Part): nat {
    match p
    case Literal(_) => 0
    case Rendered(d) => if d.EnumDecl? then 1 else if d.TraitDecl? then 2 else 3
  }

  predicate RankedAs(parts: seq<Part>, k: nat) {
    forall i :: 0 <= i < |parts| ==> Rank(parts[i]) == k
  }

  predicate Ordered(parts: seq<Part>) {
    forall i, j :: 0 <= i < j < |parts| ==> Rank(parts[i]) <= Rank(parts[j])
  }

  /** One alias line per type that declares a (non-empty) `typeof`, in order:
      a single type gives its alias line exactly when it is typed, and the
      lines of a concatenation are those of each half (`AliasPartsAppend`). */
  function AliasParts(types: seq<TypeDef>): (r: seq<Part>)
    ensures RankedAs(r, 0)
    ensures |r| <= |types|
    ensures forall i :: 0 <= i < |r| ==> r[i].Literal? && |r[i].text| >= 5 && r[i].text[..5] == "type "
    ensures |types| == 1 && Present(types[0].typeof) ==> r == [Literal(GenerateTypeAlias(types[0]))]
    ensures |types| == 1 && !Present(types[0].typeof) ==> r == []
  {
    if types == [] then []
    else
      (if Present(types[0].typeof) then [Literal(GenerateTypeAlias(types[0]))] else [])
      + AliasParts(types[1..])
  }

  lemma {:induction false} AliasPartsAppend(a: seq<TypeDef>, b: seq<TypeDef>)
    ensures AliasParts(a + b) == AliasParts(a) + AliasParts(b)
  {
    if a == [] {
      assert a + b == b;
    } else {
      assert (a + b)[1..] == a[1..] + b;
      AliasPartsAppend(a[1..], b);
    }
  }

  /** The number of types `serialize` emits an alias for. */
  function TypedCount(types: seq<TypeDef>): nat {
    if types == [] then 0 else (if Present(types[0].typeof) then 1 else 0) + TypedCount(types[1..])
  }

  lemma {:induction false} AliasPartsCount(types: seq<TypeDef>)
    ensures |AliasParts(types)| == TypedCount(types)
  {
    if types != [] {
      AliasPartsCount(types[1..]);
    }
  }

  /** One enum declaration per enum, in order. */
  function EnumParts(enums: seq<EnumDef>): (r: seq<Part>)
    ensures |r| == |enums| && RankedAs(r, 1)
    ensures forall i :: 0 <= i < |r| ==> r[i] == Rendered(GenerateEnum(enums[i]))
  {
    seq(|enums|, i requires 0 <= i < |enums| => Rendered(GenerateEnum(enums[i])))
  }

  /** One trait's piece of the file. */
  function TraitPart(c: ClassDef, slots: map<string, Slot>): (r: Result<Part>)
    ensures r.Success? <==> GetOperations(c).Success?
    ensures r.Success? ==> Rank(r.value) == 2
    ensures r.Success? ==> GenerateTrait(c, slots).Success? && r.value == Rendered(GenerateTrait(c, slots).value)
  {
    var d :- GenerateTrait(c, slots);
    Success(Rendered(d))
  }

  /** One trait declaration per trait, in order; the first whose operations
      cannot be computed aborts. */
  function TraitParts(traits: seq<ClassDef>, slots: map<string, Slot>): (r: Result<seq<Part>>)
    ensures r.Success? <==> forall i :: 0 <= i < |traits| ==> GetOperations(traits[i]).Success?
    ensures r.Success? ==> |r.value| == |traits| && RankedAs(r.value, 2)
    ensures r.Success? ==> forall i :: 0 <= i < |traits| ==> TraitPart(traits[i], slots) == Success(r.value[i])
  {
    MapAll(traits, c => TraitPart(c, slots))
  }

  /** One case class declaration per case class, in order. */
  function CaseClassParts(cases: seq<ClassDef>, slots: map<string, Slot>): (r: seq<Part>)
    ensures |r| == |cases| && RankedAs(r, 3)
    ensures forall i :: 0 <= i < |r| ==> r[i] == Rendered(GenerateCaseClass(cases[i], slots))
  {
    seq(|cases|, i requires 0 <= i < |cases| => Rendered(GenerateCaseClass(cases[i], slots)))
  }

  /** The package line that opens the file; the package reads back from it. */
  function Header(schema: SchemaDef, packageName: Option<string>): (r: string)
    ensures |r| == 9 + |PackageName(schema.name, packageName)|
    ensures r[..8] == "package " && r[|r| - 1] == '\n'
    ensures r[8..|r| - 1] == PackageName(schema.name, packageName)
  {
    "package " + PackageName(schema.name, packageName) + "\n"
  }

  /** The pieces of the generated file, in the order `serialize` appends them. */
  function Layout(schema: SchemaDef, packageName: Option<string>): (r: Result<seq<Part>>)
    ensures r.Success? <==>
              && (forall i :: 0 <= i < |schema.classes| ==> IsTrait(schema.classes[i]).Success?)
              && (forall i :: 0 <= i < |schema.classes| && IsTrait(schema.classes[i]) == Success(true) ==>
                    GetOperations(schema.classes[i]).Success?)
    ensures r.Success? ==> r.value != [] && r.value[0] == Literal(Header(schema, packageName))
  {
    var p :- Partition(schema.classes, IsTrait);
    KeepMembers(schema.classes, IsTrait, true);
    var traits :- TraitParts(p.0, schema.slots);
    Success([Literal(Header(schema, packageName))] + AliasParts(schema.types) + EnumParts(schema.enums)
            + traits + CaseClassParts(p.1, schema.slots))
  }

  /** `serialize`: the parts, rendered, joined by blank lines, with a final newline. */
  function Serialize(schema: SchemaDef, packageName: Option<string>, template: Decl -> string): (r: Result<string>)
    ensures r.Success? <==> Layout(schema, packageName).Success?
    ensures r.Success? ==> |r.value| > 0 && r.value[|r.value| - 1] == '\n'
  {
    var parts :- Layout(schema, packageName);
    Success(Join(Render(parts, template), "\n\n") + "\n")
  }

  /** The generated file is the rendered parts, in layout order, each at the
      offset the earlier parts and their blank-line separators add up to,
      with "\n\n" between consecutive parts and one final newline. */
  lemma SerializeLayout(schema: SchemaDef, packageName: Option<string>, template: Decl -> string)
    requires Serialize(schema, packageName, template).Success?
    ensures var out := Serialize(schema, packageName, template).value;
            var texts := Render(Layout(schema, packageName).value, template);
            && |out| + 2 == Offset(texts, "\n\n", |texts|) + 1
            && out[|out| - 1] == '\n'
            && PiecesAt(out, texts, "\n\n")
  {
    var texts := Render(Layout(schema, packageName).value, template);
    JoinPieces(texts, "\n\n", Serialize(schema, packageName, template).value);
  }

  function Render(parts: seq<Part>, template: Decl -> string): (r: seq<string>)
    ensures |r| == |parts|
    ensures forall i :: 0 <= i < |parts| && parts[i].Literal? ==> r[i] == parts[i].text
    ensures forall i :: 0 <= i < |parts| && parts[i].Rendered? ==> r[i] == template(parts[i].decl)
  {
    seq(|parts|, i requires 0 <= i < |parts| =>
      match parts[i] case Literal(t) => t case Rendered(d) => template(d))
  }

  // ---------------------------------------------------------------------------
  // Properties of the layout.
  // ---------------------------------------------------------------------------

  lemma OrderedConcat(a: seq<Part>, b: seq<Part>, k: nat)
    requires Ordered(a) && Ordered(b)
    requires forall i :: 0 <= i < |a| ==> Rank(a[i]) <= k
    requires forall i :: 0 <= i < |b| ==> k <= Rank(b[i])
    ensures Ordered(a + b)
  {
    forall i, j | 0 <= i < j < |a + b|
      ensures Rank((a + b)[i]) <= Rank((a + b)[j])
    {
      if j < |a| {
        assert (a + b)[i] == a[i] && (a + b)[j] == a[j];
      } else if i >= |a| {
        assert (a + b)[i] == b[i - |a|] && (a + b)[j] == b[j - |a|];
      } else {
        assert (a + b)[i] == a[i] && (a + b)[j] == b[j - |a|];
      }
    }
  }

  /** The header and aliases, then the enums, then the traits, then the case
      classes: no part of a later group comes before one of an earlier group. */
  lemma LayoutOrdered(schema: SchemaDef, packageName: Option<string>)
    requires Layout(schema, packageName).Success?
    ensures Ordered(Layout(schema, packageName).value)
  {
    var p := Partition(schema.classes, IsTrait).value;
    LayoutGroups(schema, packageName);
    HeaderRanked(Header(schema, packageName), AliasParts(schema.types));
    OrderedGroups([Literal(Header(schema, packageName))] + AliasParts(schema.types), EnumParts(schema.enums),
                  TraitParts(p.0, schema.slots).value, CaseClassParts(p.1, schema.slots));
  }

  lemma HeaderRanked(header: string, aliases: seq<Part>)
    requires RankedAs(aliases, 0)
    ensures RankedAs([Literal(header)] + aliases, 0)
  {
    var head := [Literal(header)] + aliases;
    forall i | 0 <= i < |head| ensures Rank(head[i]) == 0 {
      if i > 0 {
        assert head[i] == aliases[i - 1];
      }
    }
  }

  /** Four groups of constant, increasing rank are ordered once concatenated. */
  lemma OrderedGroups(head: seq<Part>, enums: seq<Part>, traits: seq<Part>, cases: seq<Part>)
    requires RankedAs(head, 0) && RankedAs(enums, 1) && RankedAs(traits, 2) && RankedAs(cases, 3)
    ensures Ordered(head + enums + traits + cases)
  {
    OrderedConcat(head, enums, 0);
    OrderedConcat(head + enums, traits, 1);
    forall i | 0 <= i < |head + enums + traits|
      ensures Rank((head + enums + traits)[i]) <= 2
    {
      if i < |head + enums| {
        assert (head + enums + traits)[i] == (head + enums)[i];
      }
    }
    OrderedConcat(head + enums + traits, cases, 2);
  }

  /** Every class appears exactly once: the header, one line per typed type,
      one declaration per enum and one per class. */
  lemma LayoutCount(schema: SchemaDef, packageName: Option<string>)
    requires Layout(schema, packageName).Success?
    ensures |Layout(schema, packageName).value|
            == 1 + TypedCount(schema.types) + |schema.enums| + |schema.classes|
  {
    var p := Partition(schema.classes, IsTrait).value;
    AliasPartsCount(schema.types);
    assert |multiset(p.0) + multiset(p.1)| == |schema.classes|;
  }

  /** The layout as its four groups: header, aliases and enums; traits; case classes. */
  lemma LayoutGroups(schema: SchemaDef, packageName: Option<string>)
    requires Layout(schema, packageName).Success?
    ensures var p := Partition(schema.classes, IsTrait).value;
            Layout(schema, packageName).value
            == ([Literal(Header(schema, packageName))] + AliasParts(schema.types) + EnumParts(schema.enums))
               + TraitParts(p.0, schema.slots).value + CaseClassParts(p.1, schema.slots)
  {
  }

  lemma ConcatSlices(a: seq<Part>, b: seq<Part>, c: seq<Part>)
    ensures (a + b + c)[|a|..|a| + |b|] == b
    ensures (a + b + c)[|a| + |b|..] == c
  {
    assert (a + b + c)[|a|..|a| + |b|] == ((a + b) + c)[|a|..|a| + |b|];
  }

  /** Each class becomes exactly one declaration: after the enums come the
      declarations of the traits, in schema order, then those of the case
      classes, in schema order. */
  lemma LayoutClasses(schema: SchemaDef, packageName: Option<string>)
    requires Layout(schema, packageName).Success?
    ensures var parts := Layout(schema, packageName).value;
            var start := 1 + TypedCount(schema.types) + |schema.enums|;
            var traits := Keep(schema.classes, IsTrait, true);
            var cases := Keep(schema.classes, IsTrait, false);
            && multiset(traits) + multiset(cases) == multiset(schema.classes)
            && |parts| == start + |traits| + |cases|
            && TraitParts(traits, schema.slots).Success?
            && parts[start..start + |traits|] == TraitParts(traits, schema.slots).value
            && parts[start + |traits|..] == CaseClassParts(cases, schema.slots)
  {
    var p := Partition(schema.classes, IsTrait).value;
    AliasPartsCount(schema.types);
    LayoutGroups(schema, packageName);
    var head := [Literal(Header(schema, packageName))] + AliasParts(schema.types) + EnumParts(schema.enums);
    ConcatSlices(head, TraitParts(p.0, schema.slots).value, CaseClassParts(p.1, schema.slots));
  }

  /** The generated file starts with the package declaration and its newline. */
  lemma SerializeStartsWithPackage(schema: SchemaDef, packageName: Option<string>, template: Decl -> string)
    requires Serialize(schema, packageName, template).Success?
    ensures var out := Serialize(schema, packageName, template).value;
            var header := "package " + PackageName(schema.name, packageName) + "\n";
            |out| >= |header| && out[..|header|] == header
  {
    var parts := Layout(schema, packageName).value;
    var texts := Render(parts, template);
    JoinStartsWith(texts, "\n\n");
    var joined := Join(texts, "\n\n");
    assert texts[0] == Header(schema, packageName);
    assert (joined + "\n")[..|texts[0]|] == joined[..|texts[0]|];
  }
}
