/** The classification loop of `serialize`: every class goes to the traits or
    to the case classes according to a classifier, each group in schema order.
    `serialize` classifies with `_is_trait` (`ScalaAnnotation.IsTrait`); the
    loop itself needs nothing of it but its answers. */
module Grouping {
  import opened Wrappers
  import opened SchemaModel

  /** The classes `classify` gives the role `role`, in schema order. */
  function Keep(classes: seq<ClassDef>, classify: ClassDef -> Result<bool>, role: bool): (r: seq<ClassDef>)
    ensures |r| <= |classes|
    ensures forall i :: 0 <= i < |r| ==> classify(r[i]) == Success(role)
  {
    if classes == [] then [] else Kept(classes[0], classify, role) + Keep(classes[1..], classify, role)
  }

  /** The class itself when `classify` gives it the role, nothing otherwise. */
  function Kept(c: ClassDef, classify: ClassDef -> Result<bool>, role: bool): (r: seq<ClassDef>)
    ensures forall i :: 0 <= i < |r| ==> classify(r[i]) == Success(role)
  {
    if classify(c) == Success(role) then [c] else []
  }

  /** Keeping distributes over concatenation, so it never reorders classes. */
  lemma {:induction false} KeepAppend(a: seq<ClassDef>, b: seq<ClassDef>, classify: ClassDef -> Result<bool>, role: bool)
    ensures Keep(a + b, classify, role) == Keep(a, classify, role) + Keep(b, classify, role)
  {
    if a == [] {
      assert a + b == b;
    } else {
      assert (a + b)[0] == a[0];
      assert (a + b)[1..] == a[1..] + b;
      KeepAppend(a[1..], b, classify, role);
      assert Keep(a + b, classify, role)
             == Kept(a[0], classify, role) + (Keep(a[1..], classify, role) + Keep(b, classify, role));
    }
  }

  /** A class is kept for a role exactly when it is in the list and has it. */
  lemma {:induction false} KeepMembers(classes: seq<ClassDef>, classify: ClassDef -> Result<bool>, role: bool)
    ensures forall c :: c in Keep(classes, classify, role) <==> c in classes && classify(c) == Success(role)
  {
    if classes != [] {
      KeepMembers(classes[1..], classify, role);
      assert classes == [classes[0]] + classes[1..];
    }
  }

  /** The loop itself. The first class `classify` fails on aborts it. */
  function Partition(classes: seq<ClassDef>, classify: ClassDef -> Result<bool>): (r: Result<(seq<ClassDef>, seq<ClassDef>)>)
    ensures r.Success? <==> forall i :: 0 <= i < |classes| ==> classify(classes[i]).Success?
    ensures r.Success? ==> r.value.0 == Keep(classes, classify, true) && r.value.1 == Keep(classes, classify, false)
    ensures r.Success? ==> multiset(r.value.0) + multiset(r.value.1) == multiset(classes)
  {
    if classes == [] then Success(([], []))
    else
      ClassifiedStep(classes, classify);
      var isTrait :- classify(classes[0]);
      var rest :- Partition(classes[1..], classify);
      KeepStep(classes, classify, isTrait);
      PlaceKeepsMultiset(classes, isTrait, rest);
      Success(Place(classes[0], isTrait, rest))
  }

  /** Every class of a non-empty list is classified exactly when its first
      class and every later one are. */
  lemma ClassifiedStep(classes: seq<ClassDef>, classify: ClassDef -> Result<bool>)
    requires classes != []
    ensures (forall i :: 0 <= i < |classes| ==> classify(classes[i]).Success?)
            <==> (&& classify(classes[0]).Success?
                  && forall i :: 0 <= i < |classes[1..]| ==> classify(classes[1..][i]).Success?)
  {
    assert forall i :: 1 <= i < |classes| ==> classes[i] == classes[1..][i - 1];
  }

  /** The first class placed in front of the group its role names. */
  function Place(c: ClassDef, isTrait: bool, rest: (seq<ClassDef>, seq<ClassDef>)): (seq<ClassDef>, seq<ClassDef>) {
    if isTrait then ([c] + rest.0, rest.1) else (rest.0, [c] + rest.1)
  }

  /** Keeping a non-empty list keeps its first class in front of the others
      exactly for the class's own role. */
  lemma KeepStep(classes: seq<ClassDef>, classify: ClassDef -> Result<bool>, isTrait: bool)
    requires classes != [] && classify(classes[0]) == Success(isTrait)
    ensures Keep(classes, classify, isTrait) == [classes[0]] + Keep(classes[1..], classify, isTrait)
    ensures Keep(classes, classify, !isTrait) == Keep(classes[1..], classify, !isTrait)
  {
  }

  /** Placing the first class adds it, and nothing else, to the two groups. */
  lemma PlaceKeepsMultiset(classes: seq<ClassDef>, isTrait: bool, rest: (seq<ClassDef>, seq<ClassDef>))
    requires classes != []
    requires multiset(rest.0) + multiset(rest.1) == multiset(classes[1..])
    ensures var p := Place(classes[0], isTrait, rest);
            multiset(p.0) + multiset(p.1) == multiset(classes)
  {
    assert classes == [classes[0]] + classes[1..];
  }
}
