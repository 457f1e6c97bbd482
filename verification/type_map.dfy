/** Type resolution: the fixed table from schema type names to Scala type
    names, and `map_type`, which looks a name up case-insensitively. */
module TypeMap {
  import opened Wrappers
  import opened Text

  /** `TYPE_MAP`: the built-in schema types and the Scala type each becomes. */
  const TypeTable: map<string, string> := map[
    "string" := "String",
    "integer" := "Int",
    "float" := "Double",
    "boolean" := "Boolean",
    "double" := "Double",
    "decimal" := "BigDecimal",
    "date" := "java.time.LocalDate",
    "datetime" := "java.time.Instant",
    "uri" := "java.net.URI",
    "uriorcurie" := "java.net.URI",
    "ncname" := "String",
    "nodeidentifier" := "String",
    "objectidentifier" := "java.net.URI"
  ]

  /** `map_type`: a missing name is `Any`; a name whose lower-cased form is a
      table key becomes that key's Scala type; any other name is taken to be a
      class reference and is returned exactly as given. */
  function MapType(t: Option<string>): (r: string)
    ensures t.None? ==> r == "Any"
    ensures t.Some? && LowerAll(t.value) in TypeTable ==> r in TypeTable.Values
    ensures t.Some? && LowerAll(t.value) !in TypeTable ==> r == t.value
  {
    match t
    case None => "Any"
    case Some(name) =>
      var lower := LowerAll(name);
      if lower in TypeTable then TypeTable[lower] else name
  }

  /** Every table key is already lower case, so each one is reachable. */
  lemma TableKeysAreLowerCase(k: string)
    requires k in TypeTable
    ensures LowerAll(k) == k
    ensures MapType(Some(k)) == TypeTable[k]
  {
    assert NoUpper(k);
    LowerAllOfNoUpper(k);
  }

  /** `boolean` maps to `Boolean`.

      This and the other examples take the name as a parameter pinned by
      `requires` rather than as a literal: given a literal, the verifier
      unfolds `LowerAll` on it wherever it appears, which costs far more. */
  lemma BooleanMapsToBoolean(t: string)
    requires t == "boolean"
    ensures MapType(Some(t)) == "Boolean"
  {
    TableKeysAreLowerCase(t);
  }

  /** Lookup ignores case: two names that lower-case alike resolve alike. */
  lemma MapTypeCaseInsensitive(a: string, b: string)
    requires LowerAll(a) == LowerAll(b)
    requires LowerAll(a) in TypeTable
    ensures MapType(Some(a)) == MapType(Some(b))
  {
  }

  /** The Scala built-ins of the table resolve to themselves. */
  lemma ScalaNameResolvesToItself(v: string)
    requires v in {"String", "Int", "Double", "Boolean", "BigDecimal"}
    ensures MapType(Some(v)) == v
  {
    if v == "String" {
      assert LowerAll(v) == "string";
    } else if v == "Int" {
      assert LowerAll(v) == "int";
    } else if v == "Double" {
      assert LowerAll(v) == "double";
    } else if v == "Boolean" {
      assert LowerAll(v) == "boolean";
    } else {
      assert LowerAll(v) == "bigdecimal";
    }
  }

  /** The Java classes of the table resolve to themselves. */
  lemma JavaNameResolvesToItself(v: string)
    requires v in {"java.time.LocalDate", "java.time.Instant", "java.net.URI"}
    ensures MapType(Some(v)) == v
  {
    if v == "java.time.LocalDate" {
      assert LowerAll(v) == "java.time.localdate";
    } else if v == "java.time.Instant" {
      assert LowerAll(v) == "java.time.instant";
    } else {
      assert LowerAll(v) == "java.net.uri";
    }
  }

  /** Each Scala name in the table resolves to itself. */
  lemma TableValueIsFixedPoint(k: string)
    requires k in TypeTable
    ensures MapType(Some(TypeTable[k])) == TypeTable[k]
  {
    var v := TypeTable[k];
    if v in {"String", "Int", "Double", "Boolean", "BigDecimal"} {
      ScalaNameResolvesToItself(v);
    } else {
      JavaNameResolvesToItself(v);
    }
  }

  /** A resolved type name resolves to itself: every Scala name in the table,
      and `Any`, is a fixed point of the lookup. */
  lemma MapTypeIdempotent(t: Option<string>)
    ensures MapType(Some(MapType(t))) == MapType(t)
  {
    match t
    case None =>
      assert LowerAll("Any") == "any";
    case Some(name) =>
      if LowerAll(name) in TypeTable {
        TableValueIsFixedPoint(LowerAll(name));
      }
  }

  /** The examples the generator's tests check: a missing type is `Any`, and
      `string` becomes `String`. */
  lemma MapTypeExamples(t: string)
    requires t == "string"
    ensures MapType(None) == "Any"
    ensures MapType(Some(t)) == "String"
  {
    TableKeysAreLowerCase(t);
  }

  /** A class name such as `Person` is not a built-in type and is kept as given. */
  lemma ClassNameKept(t: string)
    requires t == "Person"
    ensures MapType(Some(t)) == "Person"
  {
    assert LowerAll(t) == "person";
  }

  /** `DateTime` is looked up case-insensitively and becomes `java.time.Instant`. */
  lemma DateTimeIsInstant(t: string)
    requires t == "DateTime"
    ensures MapType(Some(t)) == "java.time.Instant"
  {
    assert LowerAll(t) == "datetime";
  }
}
