/**
 The canonical form of an intent: reference ids, targets, operations and extensions sorted. Two
 accepted intents have the same canonical form exactly when they differ in order alone.
 */
module IntentCanonical {
  import opened Wrappers
  import opened EditSchema
  import opened Ordering
  import opened PortablePath
  import opened Intent
  import opened IntentTargets

  function SortedReferences(t: Target): Target {
    t.(referenceIds := Sort(t.referenceIds, StringLe))
  }

  function Rank(t: Target): nat {
    if t.ExistingFile? then 0 else 1
  }

  predicate TargetLe(a: Target, b: Target) {
    if a.path == b.path then Rank(a) <= Rank(b) else StringLe(a.path, b.path)
  }

  predicate OperationLe(a: OperationKind, b: OperationKind) {
    a == ModifyExisting || b == CreateTextFile
  }

  function CanonicalTargets(targets: seq<Target>): seq<Target> {
    Sort(Map(SortedReferences, targets), TargetLe)
  }

  function CanonicalConstraints(c: Constraints): Constraints {
    c.(allowedOperations := Sort(c.allowedOperations, OperationLe),
       allowedExtensions := Sort(c.allowedExtensions, StringLe))
  }

  function Canonical(intent: EditIntent): EditIntent {
    intent.(targets := CanonicalTargets(intent.targets), constraints := CanonicalConstraints(intent.constraints))
  }

  /** Targets ascend by path, existing before prospective ones, and each target's references ascend. */
  ghost predicate InOrder(targets: seq<Target>) {
    && Ascending(Paths(targets))
    && (forall i :: 0 < i < |targets| && targets[i - 1].path == targets[i].path ==>
          targets[i - 1].ExistingFile? || targets[i].ProspectiveFile?)
    && forall t :: t in targets ==> Ascending(t.referenceIds)
  }

  /** Extensions ascend, and modifying comes before creating. */
  ghost predicate ConstraintsInOrder(c: Constraints) {
    && Ascending(c.allowedExtensions)
    && forall i :: 0 < i < |c.allowedOperations| ==>
         c.allowedOperations[i - 1] == ModifyExisting || c.allowedOperations[i] == CreateTextFile
  }

  lemma SortedTargets(s: seq<Target>)
    requires Sorted(s, TargetLe)
    ensures Ascending(Paths(s))
    ensures forall i :: 0 < i < |s| && s[i - 1].path == s[i].path ==> s[i - 1].ExistingFile? || s[i].ProspectiveFile?
  {
    hide StringLe, ComesBefore;
    forall i | 0 < i < |s| ensures Paths(s)[i - 1] == Paths(s)[i] || ComesBefore(Paths(s)[i - 1], Paths(s)[i]) {
      assert TargetLe(s[i - 1], s[i]);
      StringLeIff(s[i - 1].path, s[i].path);
    }
    forall i | 0 < i < |s| && s[i - 1].path == s[i].path ensures s[i - 1].ExistingFile? || s[i].ProspectiveFile? {
      assert TargetLe(s[i - 1], s[i]);
    }
  }

  /** The canonical form of an inventory is in order. */
  lemma CanonicalInOrder(targets: seq<Target>)
    ensures InOrder(CanonicalTargets(targets))
  {
    hide Sort, StringLe, TargetLe, Ascending;
    StringOrder();
    TargetOrder();
    var m := Map(SortedReferences, targets);
    var c := CanonicalTargets(targets);
    SortSorted(m, TargetLe);
    SortedTargets(c);
    forall t | t in c ensures Ascending(t.referenceIds) {
      SameElements(c, m, t);
      var j :| 0 <= j < |m| && m[j] == t;
      SortSorted(targets[j].referenceIds, StringLe);
      SortedAscends(Sort(targets[j].referenceIds, StringLe));
    }
  }

  lemma CanonicalConstraintsInOrder(c: Constraints)
    ensures ConstraintsInOrder(CanonicalConstraints(c))
  {
    hide Sort, StringLe, Ascending;
    StringOrder();
    OperationOrder();
    SortSorted(c.allowedOperations, OperationLe);
    SortSorted(c.allowedExtensions, StringLe);
    SortedAscends(Sort(c.allowedExtensions, StringLe));
    var operations := Sort(c.allowedOperations, OperationLe);
    forall i | 0 < i < |operations| ensures operations[i - 1] == ModifyExisting || operations[i] == CreateTextFile {
      assert OperationLe(operations[i - 1], operations[i]);
    }
  }

  /** In place, as the source does it: first every target's references, then the targets. */
  method CanonicalizeTargets(targets: array<Target>)
    modifies targets
    ensures targets[..] == CanonicalTargets(old(targets[..]))
    ensures InOrder(targets[..]) && SameTargets(old(targets[..]), targets[..])
  {
    hide Sort, InOrder, SameTargets, SortedReferences;
    CanonicalInOrder(targets[..]);
    SortedShapes(targets[..]);
    SameBackwards(CanonicalTargets(targets[..]), targets[..]);
    ghost var was := targets[..];
    for i := 0 to targets.Length
      invariant targets[..i] == Map(SortedReferences, was[..i]) && targets[i..] == was[i..]
    {
      targets[i] := SortedReferences(targets[i]);
    }
    assert targets[..] == targets[..targets.Length] && was[..targets.Length] == was;
    var sorted := Sort(targets[..], TargetLe);
    forall i | 0 <= i < targets.Length {
      targets[i] := sorted[i];
    }
    assert targets[..] == sorted;
  }

  // ---- The orders ----

  lemma TargetOrder()
    ensures TotalOrder(TargetLe)
  {
    forall a, b ensures TargetLe(a, b) || TargetLe(b, a) {
      StringLeTotal(a.path, b.path);
    }
    forall a, b, c | TargetLe(a, b) && TargetLe(b, c) ensures TargetLe(a, c) {
      if a.path != b.path && b.path != c.path {
        StringLeTransitive(a.path, b.path, c.path);
        StringLeTotal(a.path, b.path);
      }
    }
  }

  lemma OperationOrder()
    ensures TotalOrder(OperationLe)
    ensures forall s: seq<OperationKind> :: Antisymmetric(s, OperationLe)
  {
  }

  lemma DistinctPathsOrder(targets: seq<Target>)
    requires NoDuplicates(Paths(targets))
    ensures Antisymmetric(targets, TargetLe)
  {
    forall a, b | a in targets && b in targets && TargetLe(a, b) && TargetLe(b, a) ensures a == b {
      StringLeTotal(a.path, b.path);
      var i :| 0 <= i < |targets| && targets[i] == a;
      var j :| 0 <= j < |targets| && targets[j] == b;
      assert Paths(targets)[i] == Paths(targets)[j];
    }
  }

  // ---- The same up to order ----

  /** A target with its references as a bag. */
  datatype Shape = Shape(kind: OperationKind, path: string, detail: string, references: multiset<string>,
                         provenance: Provenance)

  function ShapeOf(t: Target): Shape {
    match t
    case ExistingFile(path, hash, references, provenance) =>
      Shape(ModifyExisting, path, hash, multiset(references), provenance)
    case ProspectiveFile(path, extension, references, provenance) =>
      Shape(CreateTextFile, path, extension, multiset(references), provenance)
  }

  ghost predicate SameTargets(a: seq<Target>, b: seq<Target>) {
    multiset(Map(ShapeOf, a)) == multiset(Map(ShapeOf, b))
  }

  ghost predicate SameConstraints(a: Constraints, b: Constraints) {
    && multiset(a.allowedOperations) == multiset(b.allowedOperations)
    && multiset(a.allowedExtensions) == multiset(b.allowedExtensions)
    && b == a.(allowedOperations := b.allowedOperations, allowedExtensions := b.allowedExtensions)
  }

  /** The two intents differ only in the order of targets, references, operations and extensions. */
  ghost predicate SameUpToOrder(a: EditIntent, b: EditIntent) {
    && SameTargets(a.targets, b.targets) && SameConstraints(a.constraints, b.constraints)
    && b == a.(targets := b.targets, constraints := b.constraints)
  }

  lemma SortedReferencesIffShape(t: Target, u: Target)
    ensures SortedReferences(t) == SortedReferences(u) <==> ShapeOf(t) == ShapeOf(u)
  {
    if ShapeOf(t) == ShapeOf(u) {
      StringOrder();
      assert Antisymmetric(t.referenceIds, StringLe);
      SortForgetsOrder(t.referenceIds, u.referenceIds, StringLe);
    }
    assert multiset(Sort(t.referenceIds, StringLe)) == multiset(t.referenceIds);
    assert multiset(Sort(u.referenceIds, StringLe)) == multiset(u.referenceIds);
  }

  lemma PathsOfSame(a: seq<Target>, b: seq<Target>)
    requires SameTargets(a, b)
    ensures multiset(Paths(a)) == multiset(Paths(b)) && |a| == |b|
    ensures NoDuplicates(Paths(a)) <==> NoDuplicates(Paths(b))
  {
    MapFactors(ShapeOf, (t: Target) => t.path, a, b);
    SameNoDuplicates(Paths(a), Paths(b));
  }

  lemma Counterpart(a: seq<Target>, b: seq<Target>, t: Target) returns (u: Target)
    requires SameTargets(a, b) && t in a
    ensures u in b && ShapeOf(u) == ShapeOf(t)
  {
    var i :| 0 <= i < |a| && a[i] == t;
    assert Map(ShapeOf, a)[i] == ShapeOf(t);
    SameElements(Map(ShapeOf, a), Map(ShapeOf, b), ShapeOf(t));
    var j :| 0 <= j < |b| && Map(ShapeOf, b)[j] == ShapeOf(t);
    u := b[j];
  }

  lemma SameSorted(a: seq<Target>, b: seq<Target>)
    requires SameTargets(a, b) && NoDuplicates(Paths(a))
    ensures CanonicalTargets(a) == CanonicalTargets(b)
  {
    hide Sort, ShapeOf, SortedReferences;
    forall x, y | x in a && y in b && ShapeOf(x) == ShapeOf(y) ensures SortedReferences(x) == SortedReferences(y) {
      SortedReferencesIffShape(x, y);
    }
    MapFactors(ShapeOf, SortedReferences, a, b);
    var ca, cb := Map(SortedReferences, a), Map(SortedReferences, b);
    SortedPaths(a);
    DistinctPathsOrder(ca);
    TargetOrder();
    SortForgetsOrder(ca, cb, TargetLe);
  }

  lemma SortedPaths(a: seq<Target>)
    ensures Paths(Map(SortedReferences, a)) == Paths(a)
  {
  }

  lemma SortedShapes(a: seq<Target>)
    ensures SameTargets(CanonicalTargets(a), a)
  {
    hide Sort;
    var c := Map(SortedReferences, a);
    MapPermutation(ShapeOf, CanonicalTargets(a), c);
    forall i | 0 <= i < |a| ensures Map(ShapeOf, c)[i] == Map(ShapeOf, a)[i] {
    }
    assert Map(ShapeOf, c) == Map(ShapeOf, a);
  }

  lemma CanonicalConstraintsIff(a: Constraints, b: Constraints)
    ensures CanonicalConstraints(a) == CanonicalConstraints(b) <==> SameConstraints(a, b)
  {
    hide Sort, OperationLe, StringLe;
    if SameConstraints(a, b) {
      OperationOrder();
      StringOrder();
      assert Antisymmetric(a.allowedOperations, OperationLe) && Antisymmetric(a.allowedExtensions, StringLe);
      SortForgetsOrder(a.allowedOperations, b.allowedOperations, OperationLe);
      SortForgetsOrder(a.allowedExtensions, b.allowedExtensions, StringLe);
    }
  }

  /** On intents with distinct paths the canonical form keeps everything but the order. */
  lemma CanonicalIff(a: EditIntent, b: EditIntent)
    requires NoDuplicates(Paths(a.targets))
    ensures Canonical(a) == Canonical(b) <==> SameUpToOrder(a, b)
  {
    hide CanonicalTargets, CanonicalConstraints, SameTargets, SameConstraints, Paths, NoDuplicates;
    CanonicalConstraintsIff(a.constraints, b.constraints);
    if SameTargets(a.targets, b.targets) {
      SameSorted(a.targets, b.targets);
    }
    if CanonicalTargets(a.targets) == CanonicalTargets(b.targets) {
      SameThroughCanonical(a.targets, b.targets);
    }
    SameEnvelope(a, b);
  }

  lemma SameThroughCanonical(a: seq<Target>, b: seq<Target>)
    requires CanonicalTargets(a) == CanonicalTargets(b)
    ensures SameTargets(a, b)
  {
    hide CanonicalTargets;
    SortedShapes(a);
    SortedShapes(b);
  }

  lemma SameEnvelope(a: EditIntent, b: EditIntent)
    ensures Canonical(a) == Canonical(b) <==>
      && CanonicalTargets(a.targets) == CanonicalTargets(b.targets)
      && CanonicalConstraints(a.constraints) == CanonicalConstraints(b.constraints)
      && b == a.(targets := b.targets, constraints := b.constraints)
  {
    hide CanonicalTargets, CanonicalConstraints;
  }

  lemma TargetsIdempotent(targets: seq<Target>)
    ensures CanonicalTargets(CanonicalTargets(targets)) == CanonicalTargets(targets)
  {
    hide Sort, StringLe, TargetLe;
    StringOrder();
    TargetOrder();
    var c := CanonicalTargets(targets);
    var m := Map(SortedReferences, targets);
    forall i | 0 <= i < |c| ensures SortedReferences(c[i]) == c[i] {
      assert c[i] in c;
      SameElements(c, m, c[i]);
      var j :| 0 <= j < |m| && m[j] == c[i];
      SortSorted(targets[j].referenceIds, StringLe);
      SortOfSorted(Sort(targets[j].referenceIds, StringLe), StringLe);
    }
    assert Map(SortedReferences, c) == c;
    SortSorted(m, TargetLe);
    SortOfSorted(c, TargetLe);
  }

  lemma ConstraintsIdempotent(c: Constraints)
    ensures CanonicalConstraints(CanonicalConstraints(c)) == CanonicalConstraints(c)
  {
    hide Sort, StringLe, OperationLe;
    StringOrder();
    OperationOrder();
    SortSorted(c.allowedOperations, OperationLe);
    SortSorted(c.allowedExtensions, StringLe);
    SortOfSorted(Sort(c.allowedOperations, OperationLe), OperationLe);
    SortOfSorted(Sort(c.allowedExtensions, StringLe), StringLe);
  }

  lemma CanonicalIdempotent(intent: EditIntent)
    ensures Canonical(Canonical(intent)) == Canonical(intent)
  {
    hide CanonicalTargets, CanonicalConstraints;
    TargetsIdempotent(intent.targets);
    ConstraintsIdempotent(intent.constraints);
  }

  // ---- Acceptance does not see the order ----

  lemma SameReferences(a: seq<string>, b: seq<string>)
    requires multiset(a) == multiset(b)
    ensures SetOf(a) == SetOf(b) && |a| == |b| && (a == [] <==> b == []) && (ReferencesOk(a) <==> ReferencesOk(b))
  {
    hide IdentifierOk, NoDuplicates;
    SameNoDuplicates(a, b);
    forall r ensures r in a <==> r in b {
      SameElements(a, b, r);
    }
  }

  lemma SameTargetOk(t: Target, u: Target, operations: set<OperationKind>, extensions: seq<string>,
                     extensions': seq<string>, expected: Expectations)
    requires ShapeOf(t) == ShapeOf(u) && forall e :: e in extensions <==> e in extensions'
    ensures TargetOk(t, operations, extensions) <==> TargetOk(u, operations, extensions')
    ensures TargetTrusted(t, expected) <==> TargetTrusted(u, expected)
    ensures t.ExistingFile? <==> u.ExistingFile?
    ensures t.referenceIds == [] <==> u.referenceIds == []
  {
    hide ReferencesOk, PathOk, ExtensionOf, IsHash, SetOf;
    SameReferences(t.referenceIds, u.referenceIds);
  }

  lemma EachOk(a: seq<Target>, b: seq<Target>, operations: set<OperationKind>, extensions: seq<string>,
               extensions': seq<string>, expected: Expectations)
    requires SameTargets(a, b) && forall e :: e in extensions <==> e in extensions'
    requires forall t :: t in a ==> TargetOk(t, operations, extensions)
    ensures forall u :: u in b ==> TargetOk(u, operations, extensions')
    ensures AllTrusted(a, expected) ==> AllTrusted(b, expected)
  {
    hide TargetOk, TargetTrusted, ShapeOf, SameTargets;
    SameBackwards(a, b);
    forall u | u in b
      ensures TargetOk(u, operations, extensions') && (AllTrusted(a, expected) ==> TargetTrusted(u, expected)) {
      var t := Counterpart(b, a, u);
      SameTargetOk(t, u, operations, extensions, extensions', expected);
    }
  }

  lemma SameKind(t: Target, u: Target)
    requires ShapeOf(t) == ShapeOf(u)
    ensures (t.ExistingFile? <==> u.ExistingFile?) && (t.referenceIds == [] <==> u.referenceIds == [])
  {
    SameReferences(t.referenceIds, u.referenceIds);
  }

  /** What some target of `a` is, some target of `b` is. */
  lemma KindsTransfer(a: seq<Target>, b: seq<Target>)
    requires SameTargets(a, b)
    ensures SomeExisting(a) ==> SomeExisting(b)
    ensures SomeProspective(a) ==> SomeProspective(b)
    ensures SomeReferenced(a) ==> SomeReferenced(b)
    ensures (exists t :: t in a && t.referenceIds == []) ==> exists u :: u in b && u.referenceIds == []
  {
    hide ShapeOf, SameTargets;
    forall t | t in a
      ensures exists u ::
        u in b && (t.ExistingFile? <==> u.ExistingFile?) && (t.referenceIds == [] <==> u.referenceIds == [])
    {
      var u := Counterpart(a, b, t);
      SameKind(t, u);
    }
  }

  /** One direction of everything the inventory checks ask. */
  lemma TargetsOkOneWay(a: seq<Target>, b: seq<Target>, operations: set<OperationKind>, extensions: seq<string>,
                        extensions': seq<string>, mode: SelectionMode, expected: Expectations)
    requires SameTargets(a, b) && forall e :: e in extensions <==> e in extensions'
    requires TargetsOk(a, operations, extensions, mode)
    ensures TargetsOk(b, operations, extensions', mode)
    ensures AllTrusted(a, expected) ==> AllTrusted(b, expected)
  {
    hide TargetOk, TargetTrusted, NoDuplicates, Paths, SameTargets, SomeExisting, SomeProspective, SomeReferenced,
         AllTrusted;
    PathsOfSame(a, b);
    SameBackwards(a, b);
    EachOk(a, b, operations, extensions, extensions', expected);
    KindsTransfer(a, b);
    KindsTransfer(b, a);
  }

  lemma SameBackwards(a: seq<Target>, b: seq<Target>)
    requires SameTargets(a, b)
    ensures SameTargets(b, a)
  {
  }

  lemma SameConstraintsOk(a: Constraints, b: Constraints, limits: EditPlanLimits)
    requires SameConstraints(a, b)
    ensures ConstraintsOk(a, limits) <==> ConstraintsOk(b, limits)
    ensures SetOf(a.allowedOperations) == SetOf(b.allowedOperations)
    ensures forall e :: e in a.allowedExtensions <==> e in b.allowedExtensions
  {
    hide WithinHardMaxima, LimitsWithin, ExtensionAllowed, NoDuplicates;
    SameNoDuplicates(a.allowedOperations, b.allowedOperations);
    SameNoDuplicates(a.allowedExtensions, b.allowedExtensions);
    forall o ensures o in a.allowedOperations <==> o in b.allowedOperations {
      SameElements(a.allowedOperations, b.allowedOperations, o);
    }
    forall e ensures e in a.allowedExtensions <==> e in b.allowedExtensions {
      SameElements(a.allowedExtensions, b.allowedExtensions, e);
    }
  }
}
