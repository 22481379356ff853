/** The control skeleton of `Solid::validate_solid_with_nef`: the three axiom
    passes over the shells' exact polyhedral sets. The exact boolean kernel is
    not modelled; each of its answers is an oracle of `NefKernel`. Shell 0 is
    the outer shell, shells 1 .. n-1 the inner ones. */
module Interaction {

  /** The kernel's answers for one solid:
      - `escapesOuter(i)`: the set `complement(outer) * inner i` is non-empty;
      - `overlapVolumes(i, j)`: `number_of_volumes()` of `inner i * inner j`;
        the kernel counts the unbounded outer volume too, so a pair with no
        common volume still answers 1 (see `CountsOuterVolume`);
      - `volumesAfter(k)`: `number_of_volumes()` of the outer set after
        subtracting inner shells 1 .. k in order. The source calls
        `regularization()` after each subtraction but discards the polyhedron
        it returns, so the count is taken on the unregularized difference. */
  datatype NefKernel = NefKernel(
    escapesOuter: int -> bool,
    overlapVolumes: (int, int) -> nat,
    volumesAfter: int -> nat)

  /** Axiom 1: no inner shell has material outside the outer shell. */
  ghost predicate Axiom1Holds(k: NefKernel, n: nat)
  {
    forall i :: 1 <= i < n ==> !k.escapesOuter(i)
  }

  /** The kernel's volume convention: every polyhedron, even an empty one,
      has its unbounded outer volume, so a volume count is never below 1. */
  ghost predicate CountsOuterVolume(k: NefKernel)
  {
    forall i, j :: k.overlapVolumes(i, j) >= 1
  }

  /** Axiom 2 as the source tests it: every pairwise intersection of inner
      shells counts zero volumes. Under `CountsOuterVolume` no pair passes. */
  ghost predicate Axiom2Holds(k: NefKernel, n: nat)
  {
    forall i, j :: 1 <= i < j < n ==> k.overlapVolumes(i, j) == 0
  }

  /** Axiom 3: each subtraction of an inner shell splits off exactly one more
      volume, starting from the two volumes of the outer shell alone. */
  ghost predicate Axiom3Holds(k: NefKernel, n: nat)
  {
    forall i :: 1 <= i < n ==> k.volumesAfter(i) == i + 2
  }

  /** The axiom-1 loop from inner shell `i` on; `success` is the flag on entry. */
  function Axiom1Loop(k: NefKernel, i: nat, n: nat, success: bool): (r: bool)
    requires 1 <= i
    ensures r <==> success && forall j :: i <= j < n ==> !k.escapesOuter(j)
    decreases n - i
  {
    if i >= n then success
    else Axiom1Loop(k, i + 1, n, if k.escapesOuter(i) then false else success)
  }

  /** The inner axiom-2 loop: shell `i` against shells `j` .. n-1. */
  function Axiom2Inner(k: NefKernel, i: nat, j: nat, n: nat, success: bool): (r: bool)
    ensures r <==> success && forall m :: j <= m < n ==> k.overlapVolumes(i, m) == 0
    decreases n - j
  {
    if j >= n then success
    else Axiom2Inner(k, i, j + 1, n, if k.overlapVolumes(i, j) > 0 then false else success)
  }

  /** The outer axiom-2 loop: every pair of inner shells from `i` on. */
  function Axiom2Outer(k: NefKernel, i: nat, n: nat, success: bool): (r: bool)
    requires 1 <= i
    ensures r <==> success && forall a, b :: i <= a < b < n ==> k.overlapVolumes(a, b) == 0
    decreases n - i
  {
    if i >= n then success
    else Axiom2Outer(k, i + 1, n, Axiom2Inner(k, i, i + 1, n, success))
  }

  /** Axiom 2 as evidently intended: no pair of inner shells shares a
      bounded volume, i.e. no intersection has more than the outer volume. */
  ghost predicate Axiom2BoundedHolds(k: NefKernel, n: nat)
  {
    forall i, j :: 1 <= i < j < n ==> k.overlapVolumes(i, j) <= 1
  }

  /** The inner axiom-2 loop with the corrected test `> 1`. */
  function Axiom2InnerIntended(k: NefKernel, i: nat, j: nat, n: nat, success: bool): (r: bool)
    ensures r <==> success && forall m :: j <= m < n ==> k.overlapVolumes(i, m) <= 1
    decreases n - j
  {
    if j >= n then success
    else Axiom2InnerIntended(k, i, j + 1, n, if k.overlapVolumes(i, j) > 1 then false else success)
  }

  /** The outer axiom-2 loop with the corrected test: clears `success` iff
      two inner shells share a bounded volume. */
  function Axiom2OuterIntended(k: NefKernel, i: nat, n: nat, success: bool): (r: bool)
    requires 1 <= i
    ensures r <==> success && forall a, b :: i <= a < b < n ==> k.overlapVolumes(a, b) <= 1
    decreases n - i
  {
    if i >= n then success
    else Axiom2OuterIntended(k, i + 1, n, Axiom2InnerIntended(k, i, i + 1, n, success))
  }

  /** Where the axiom-3 loop ended: the final `success` flag, whether it left
      through the `break`, and the number of volume counts it compared. */
  datatype Axiom3Exit = Axiom3Exit(success: bool, broke: bool, compared: nat)

  /** The axiom-3 loop from inner shell `i` on, with `numvol` the expected
      count before shell `i` is subtracted; it breaks at the first mismatch. */
  function Axiom3Loop(k: NefKernel, i: nat, n: nat, numvol: int, success: bool): (r: Axiom3Exit)
    requires 1 <= i && numvol == i + 1
    ensures r.broke <==> exists j :: i <= j < n && k.volumesAfter(j) != j + 2
    ensures r.success <==> success && !r.broke
    ensures forall j :: i <= j < r.compared ==> k.volumesAfter(j) == j + 2
    ensures r.broke ==> i <= r.compared < n && k.volumesAfter(r.compared) != r.compared + 2
    ensures !r.broke ==> r.compared == (if i <= n then n - 1 else i - 1)
    decreases n - i
  {
    if i >= n then Axiom3Exit(success, false, i - 1)
    else if k.volumesAfter(i) != numvol + 1 then Axiom3Exit(false, true, i)
    else Axiom3Loop(k, i + 1, n, numvol + 1, success)
  }

  /** What the interaction check did: the value it returns, and whether the
      axiom passes ran at all. */
  datatype AxiomRun = NoInnerShells | Ran(success: bool, axiom3Broke: bool, compared: nat)
  datatype NefTrace = NefTrace(isValid: bool, run: AxiomRun)

  /** `Solid::validate_solid_with_nef` over `n` shells. A solid without inner
      shells returns at once. Otherwise the three axiom passes thread their
      `success` flag, but the value returned is the local `isValid`, which is
      initialised to true and never assigned again. */
  function ValidateSolidWithNef(n: nat, k: NefKernel): (t: NefTrace)
    requires n >= 1
    ensures t.isValid
    ensures t.run.NoInnerShells? <==> n == 1
    ensures t.run.Ran? ==>
      (t.run.success <==> Axiom1Holds(k, n) && Axiom2Holds(k, n) && Axiom3Holds(k, n))
    ensures t.run.Ran? ==> (t.run.axiom3Broke <==> !Axiom3Holds(k, n))
    ensures t.run.Ran? ==> 1 <= t.run.compared <= n - 1
    ensures t.run.Ran? ==> forall j :: 1 <= j < t.run.compared ==> k.volumesAfter(j) == j + 2
    ensures t.run.Ran? && t.run.axiom3Broke ==> k.volumesAfter(t.run.compared) != t.run.compared + 2
    ensures t.run.Ran? && !t.run.axiom3Broke ==> t.run.compared == n - 1
  {
    if n - 1 == 0 then NefTrace(true, NoInnerShells)
    else
      var isValid := true;
      var afterAxiom1 := Axiom1Loop(k, 1, n, true);
      var afterAxiom2 := Axiom2Outer(k, 1, n, afterAxiom1);
      var exit := Axiom3Loop(k, 1, n, 2, afterAxiom2);
      NefTrace(isValid, Ran(exit.success, exit.broke, exit.compared))
  }

  /** As written, axiom 2 rejects every solid with two or more inner shells:
      the first pair already counts its outer volume. */
  lemma {:induction false} Axiom2RejectsEveryPair(n: nat, k: NefKernel)
    requires n >= 3 && CountsOuterVolume(k)
    ensures !Axiom2Holds(k, n)
    ensures !ValidateSolidWithNef(n, k).run.success
  {
    assert k.overlapVolumes(1, 2) >= 1;
  }

  /** The interaction check as evidently intended: it returns the `success`
      of the three axiom passes, with the corrected axiom-2 test. */
  function ValidateSolidWithNefIntended(n: nat, k: NefKernel): (r: bool)
    requires n >= 1
    ensures r <==> n == 1 || (Axiom1Holds(k, n) && Axiom2BoundedHolds(k, n) && Axiom3Holds(k, n))
  {
    if n - 1 == 0 then true
    else
      var afterAxiom1 := Axiom1Loop(k, 1, n, true);
      var afterAxiom2 := Axiom2OuterIntended(k, 1, n, afterAxiom1);
      Axiom3Loop(k, 1, n, 2, afterAxiom2).success
  }

  /** Under the kernel's convention, inner shells that touch no other inner
      shell pass the corrected axiom 2, but never the one as written. */
  lemma DisjointInnerShellsPassOnlyIntended(n: nat, k: NefKernel)
    requires n >= 3
    requires forall i, j :: k.overlapVolumes(i, j) == 1
    ensures Axiom2BoundedHolds(k, n)
    ensures !Axiom2Holds(k, n)
  {
    assert k.overlapVolumes(1, 2) == 1;
  }
}
