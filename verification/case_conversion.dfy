/** Identifier case conversion from snake_case: `_to_pascal_case` for type and
    enum-member names, `_to_camel_case` for field names. Each is defined the way
    the generator computes it (split on `_`, rewrite the segments, concatenate)
    and is proved equal to an independent one-pass reading of the characters. */
module CaseConversion {
  import opened Text

  /** One segment of a Pascal-cased name: `p[0].upper() + p[1:] if p else ""`. */
  function UpperFirst(p: string): string {
    if p == [] then [] else [ToUpper(p[0])] + p[1..]
  }

  /** `p.capitalize()` on ASCII: first character upper-cased, the rest lower-cased. */
  function Capitalize(p: string): string {
    if p == [] then [] else [ToUpper(p[0])] + LowerAll(p[1..])
  }

  function PascalSegments(parts: seq<string>): string {
    if parts == [] then [] else UpperFirst(parts[0]) + PascalSegments(parts[1..])
  }

  function CapitalizedSegments(parts: seq<string>): string {
    if parts == [] then [] else Capitalize(parts[0]) + CapitalizedSegments(parts[1..])
  }

  /** `_to_pascal_case`: every `_`-separated segment gets its first character
      upper-cased; empty segments contribute nothing. The result is the
      one-pass scan below: each `_` dropped, the first character and every
      character after an `_` upper-cased, all others kept. */
  function PascalCase(name: string): (r: string)
    ensures r == PascalScan(name, true)
  {
    PascalSegmentsScan(name);
    PascalSegments(Split(name, '_'))
  }

  /** `_to_camel_case`: the first segment verbatim, every later one capitalized.
      The result is the one-pass scan below: characters up to the first `_`
      copied, each `_` dropped, the character after it upper-cased and the
      rest of each later segment lower-cased. */
  function CamelCase(name: string): (r: string)
    ensures r == CamelScan(name, FirstSegment)
  {
    var parts := Split(name, '_');
    CapitalizedSegmentsScan(name, FirstSegment);
    parts[0] + CapitalizedSegments(parts[1..])
  }

  // ---------------------------------------------------------------------------
  // Reference definitions: a single left-to-right pass over the characters.
  // ---------------------------------------------------------------------------

  /** Pascal case read character by character: an underscore is dropped and
      marks the next character as a segment start, which is upper-cased. */
  function PascalScan(s: string, atStart: bool): (r: string)
    ensures '_' !in r
    ensures |r| == |s| - Count(s, '_')
    ensures atStart && r != [] ==> ToUpper(r[0]) == r[0]
  {
    if s == [] then []
    else if s[0] == '_' then PascalScan(s[1..], true)
    else [if atStart then ToUpper(s[0]) else s[0]] + PascalScan(s[1..], false)
  }

  /** Where a character sits in a camel-cased name. */
  datatype CamelMode = FirstSegment | SegmentStart | SegmentRest

  /** Camel case read character by character: the first segment is copied,
      the first character after an underscore is upper-cased and the other
      characters of later segments are lower-cased. */
  function CamelScan(s: string, mode: CamelMode): (r: string)
    ensures '_' !in r
    ensures |r| == |s| - Count(s, '_')
  {
    if s == [] then []
    else if s[0] == '_' then CamelScan(s[1..], SegmentStart)
    else
      var c := match mode
        case FirstSegment => s[0]
        case SegmentStart => ToUpper(s[0])
        case SegmentRest => ToLower(s[0]);
      [c] + CamelScan(s[1..], if mode == FirstSegment then FirstSegment else SegmentRest)
  }

  lemma {:induction false} PascalSegmentsScan(s: string)
    ensures var parts := Split(s, '_');
            && UpperFirst(parts[0]) + PascalSegments(parts[1..]) == PascalScan(s, true)
            && parts[0] + PascalSegments(parts[1..]) == PascalScan(s, false)
  {
    if s != [] {
      var rest := Split(s[1..], '_');
      PascalSegmentsScan(s[1..]);
      if s[0] == '_' {
        assert Split(s, '_') == [[]] + rest;
        assert ([[]] + rest)[1..] == rest;
        assert PascalSegments(rest) == UpperFirst(rest[0]) + PascalSegments(rest[1..]);
      } else {
        var parts := Split(s, '_');
        assert parts == [[s[0]] + rest[0]] + rest[1..];
        assert parts[1..] == rest[1..];
        assert UpperFirst(parts[0]) == [ToUpper(s[0])] + rest[0];
      }
    }
  }

  /** What a whole segment becomes when its first character sits in `mode`. */
  function SegmentText(p: string, mode: CamelMode): string {
    match mode
    case FirstSegment => p
    case SegmentStart => Capitalize(p)
    case SegmentRest => LowerAll(p)
  }

  /** The mode of the character after a non-underscore one. */
  function NextMode(mode: CamelMode): CamelMode {
    if mode == FirstSegment then FirstSegment else SegmentRest
  }

  /** What a non-underscore character becomes in `mode`. */
  function Lead(c: char, mode: CamelMode): char {
    match mode
    case FirstSegment => c
    case SegmentStart => ToUpper(c)
    case SegmentRest => ToLower(c)
  }

  lemma SegmentTextCons(c: char, p: string, mode: CamelMode)
    ensures SegmentText([c] + p, mode) == [Lead(c, mode)] + SegmentText(p, NextMode(mode))
  {
    assert ([c] + p)[1..] == p;
  }

  /** The segment-wise reading of `s` agrees with the scan started in `mode`. */
  predicate ScanAgrees(s: string, mode: CamelMode) {
    var parts := Split(s, '_');
    SegmentText(parts[0], mode) + CapitalizedSegments(parts[1..]) == CamelScan(s, mode)
  }

  lemma UnderscoreStep(s: string, mode: CamelMode)
    requires s != [] && s[0] == '_'
    requires ScanAgrees(s[1..], SegmentStart)
    ensures ScanAgrees(s, mode)
  {
    var rest := Split(s[1..], '_');
    assert Split(s, '_') == [[]] + rest;
    assert ([[]] + rest)[1..] == rest;
  }

  lemma ScanLetter(s: string, mode: CamelMode)
    requires s != [] && s[0] != '_'
    ensures CamelScan(s, mode) == [Lead(s[0], mode)] + CamelScan(s[1..], NextMode(mode))
  {
  }

  lemma SegmentsLetter(s: string, mode: CamelMode)
    requires s != [] && s[0] != '_'
    ensures var rest := Split(s[1..], '_');
            var parts := Split(s, '_');
            SegmentText(parts[0], mode) + CapitalizedSegments(parts[1..])
            == [Lead(s[0], mode)] + (SegmentText(rest[0], NextMode(mode)) + CapitalizedSegments(rest[1..]))
  {
    var rest := Split(s[1..], '_');
    var parts := Split(s, '_');
    assert parts == [[s[0]] + rest[0]] + rest[1..];
    assert parts[1..] == rest[1..];
    SegmentTextCons(s[0], rest[0], mode);
  }

  lemma LetterStep(s: string, mode: CamelMode)
    requires s != [] && s[0] != '_'
    requires ScanAgrees(s[1..], NextMode(mode))
    ensures ScanAgrees(s, mode)
  {
    ScanLetter(s, mode);
    SegmentsLetter(s, mode);
  }

  lemma {:induction false} CapitalizedSegmentsScan(s: string, mode: CamelMode)
    ensures ScanAgrees(s, mode)
  {
    if s != [] {
      if s[0] == '_' {
        CapitalizedSegmentsScan(s[1..], SegmentStart);
        UnderscoreStep(s, mode);
      } else {
        CapitalizedSegmentsScan(s[1..], NextMode(mode));
        LetterStep(s, mode);
      }
    }
  }

  // ---------------------------------------------------------------------------
  // Properties of the generator's functions.
  // ---------------------------------------------------------------------------

  /** A Pascal-cased name holds no underscore and is shorter than its input by
      exactly the number of underscores. */
  lemma PascalCaseShape(name: string)
    ensures '_' !in PascalCase(name)
    ensures |PascalCase(name)| == |name| - Count(name, '_')
  {
  }

  lemma {:induction false} PascalScanWithoutUnderscore(s: string)
    requires '_' !in s
    ensures PascalScan(s, false) == s
  {
    if s != [] {
      assert '_' !in s[1..] by {
        forall i | 0 <= i < |s[1..]|
          ensures s[1..][i] != '_'
        {
          assert s[1..][i] == s[i + 1];
        }
      }
      PascalScanWithoutUnderscore(s[1..]);
      assert [s[0]] + s[1..] == s;
    }
  }

  /** Pascal casing an already Pascal-cased name changes nothing. */
  lemma PascalCaseIdempotent(name: string)
    ensures PascalCase(PascalCase(name)) == PascalCase(name)
  {
    var t := PascalCase(name);
    if t != [] {
      assert t[0] != '_';
      assert '_' !in t[1..];
      PascalScanWithoutUnderscore(t[1..]);
      assert PascalScan(t, true) == [ToUpper(t[0])] + PascalScan(t[1..], false);
      assert [t[0]] + t[1..] == t;
    }
  }

  /** A camel-cased name holds no underscore and is shorter than its input by
      exactly the number of underscores. */
  lemma CamelCaseShape(name: string)
    ensures '_' !in CamelCase(name)
    ensures |CamelCase(name)| == |name| - Count(name, '_')
  {
  }

  /** A name without underscores is its own camel-cased form. */
  lemma CamelCaseWithoutUnderscore(name: string)
    requires '_' !in name
    ensures CamelCase(name) == name
  {
    SplitWithoutSeparator(name, '_');
    assert Split(name, '_')[1..] == [];
  }

  /** Camel casing an already camel-cased name changes nothing. */
  lemma CamelCaseIdempotent(name: string)
    ensures CamelCase(CamelCase(name)) == CamelCase(name)
  {
    CamelCaseShape(name);
    CamelCaseWithoutUnderscore(CamelCase(name));
  }

  /** A two-segment name keeps its first segment and capitalizes its second. */
  lemma CamelCaseTwoSegments(x: string, y: string)
    requires '_' !in x && '_' !in y
    ensures CamelCase(x + "_" + y) == x + Capitalize(y)
  {
    SplitAtFirst(x, '_', y);
    SplitWithoutSeparator(y, '_');
    var parts := Split(x + "_" + y, '_');
    assert parts == [x, y];
    assert parts[1..] == [y];
    assert CapitalizedSegments([y]) == Capitalize(y) + CapitalizedSegments([]);
  }

  /** The field name the generator gives the slot `in_stock`. The name is a
      parameter pinned by `requires`, not a literal, so that the verifier does
      not unfold `Split` and `LowerAll` on it wherever it appears. */
  lemma CamelCaseExample(name: string)
    requires name == "in_stock"
    ensures CamelCase(name) == "inStock"
  {
    var x, y := name[..2], name[3..];
    assert name == x + "_" + y;
    CamelCaseTwoSegments(x, y);
    assert LowerAll(y[1..]) == "tock";
  }

  /** The enum member the generator gives the permissible value `low`. */
  lemma PascalCaseExample()
    ensures PascalCase("low") == "Low"
  {
    PascalScanWithoutUnderscore("ow");
    assert "low"[1..] == "ow";
  }
}
