/** Properties relating several operations of the `Solid` aggregate. */
module SolidProperties {
  import opened Shells
  import opened ErrorLog
  import Ids
  import Interaction
  import opened Solids

  /** A freshly default-constructed solid is not valid. */
  lemma NewSolidIsNotValid(counter: nat)
    ensures !IsValid(NewSolid(counter).solid)
  {
  }

  /** Two solids constructed one after the other get different ids. */
  lemma ConsecutiveSolidsHaveDistinctIds(counter: nat, sh: Shell, garbage: int)
    ensures NewSolid(counter).solid.id != NewSolid(NewSolid(counter).counter).solid.id
    ensures NewSolid(counter).solid.id != NewSolidWithShell(sh, NewSolid(counter).counter, garbage).solid.id
  {
    Ids.DecimalInjective(counter, counter + 1);
  }

  /** Setting the outer shell and then reading it gives the shell set. */
  lemma SetThenGetOuterShell(s: Solid, sh: Shell)
    ensures OuterShell(SetOuterShell(s, sh)) == sh
  {
  }

  /** Adding an inner shell grows the inner-shell count by one and adds the
      new shell's faces, vertices and codes to the solid's totals. */
  lemma AddInnerShellTotals(s: Solid, sh: Shell)
    ensures NumInnerShells(AddInnerShell(s, sh)) == NumInnerShells(s) + 1
    ensures NumFaces(AddInnerShell(s, sh)) == NumFaces(s) + sh.faces
    ensures NumVertices(AddInnerShell(s, sh)) == NumVertices(s) + sh.vertices
    ensures UniqueErrorCodes(AddInnerShell(s, sh)) == UniqueErrorCodes(s) + sh.codes
    ensures IsEmpty(AddInnerShell(s, sh)) <==> IsEmpty(s) || sh.empty
  {
    var r := AddInnerShell(s, sh);
    assert r.shells == s.shells + [sh];
    TotalAppend(s.shells, [sh], FaceCount);
    TotalAppend(s.shells, [sh], VertexCount);
    assert [sh][..0] == [];
    assert UniqueErrorCodes(r) == UniqueErrorCodes(s) + sh.codes by {
      forall c | c in UniqueErrorCodes(r)
        ensures c in UniqueErrorCodes(s) + sh.codes
      {
        var i :| 0 <= i < |r.shells| && c in r.shells[i].codes;
        if i < |s.shells| { assert r.shells[i] == s.shells[i]; }
      }
      forall c | c in sh.codes
        ensures c in UniqueErrorCodes(r)
      {
        assert r.shells[|s.shells|] == sh;
      }
    }
  }

  /** Replacing the outer shell swaps its counts for the new shell's; on a
      solid without shells the new shell's counts are the totals. */
  lemma SetOuterShellTotals(s: Solid, sh: Shell)
    ensures |s.shells| == 0 ==> NumFaces(SetOuterShell(s, sh)) == sh.faces
    ensures |s.shells| == 0 ==> NumVertices(SetOuterShell(s, sh)) == sh.vertices
    ensures |s.shells| > 0 ==> NumFaces(SetOuterShell(s, sh)) == NumFaces(s) - s.shells[0].faces + sh.faces
    ensures |s.shells| > 0 ==> NumVertices(SetOuterShell(s, sh)) == NumVertices(s) - s.shells[0].vertices + sh.vertices
    ensures NumInnerShells(SetOuterShell(s, sh)) == if |s.shells| == 0 then 0 else NumInnerShells(s)
  {
    if |s.shells| == 0 {
      assert SetOuterShell(s, sh).shells == [sh];
      assert [sh][..0] == [];
      assert Total([sh], FaceCount) == Total([], FaceCount) + FaceCount(sh);
      assert Total([sh], VertexCount) == Total([], VertexCount) + VertexCount(sh);
    } else {
      TotalUpdate(s.shells, 0, sh, FaceCount);
      TotalUpdate(s.shells, 0, sh, VertexCount);
    }
  }

  /** The verdict of `validate` on a non-empty solid depends on the shells'
      own validators only: the interaction check cannot veto it. */
  lemma VerdictIgnoresAxioms(s: Solid, nef: Interaction.NefKernel)
    requires |s.shells| >= 1 && !IsEmpty(s)
    ensures Validate(s, nef).verdict <==> forall i :: 0 <= i < |s.shells| ==> s.shells[i].valid
  {
  }

  /** Whatever the exact kernel answers, `validate` produces the same state
      and verdict. */
  lemma ValidateIgnoresKernel(s: Solid, k1: Interaction.NefKernel, k2: Interaction.NefKernel)
    requires |s.shells| >= 1
    ensures Validate(s, k1) == Validate(s, k2)
  {
  }

  /** Even when an axiom fails, the interaction check answers true. */
  lemma AxiomFailureIsNotReported(n: nat, nef: Interaction.NefKernel)
    requires n >= 2
    requires !Interaction.Axiom1Holds(nef, n) || !Interaction.Axiom2Holds(nef, n) || !Interaction.Axiom3Holds(nef, n)
    ensures !Interaction.ValidateSolidWithNef(n, nef).run.success
    ensures Interaction.ValidateSolidWithNef(n, nef).isValid
  {
  }

  /** After `validate`, `is_valid` agrees with the verdict it returned. */
  lemma IsValidAfterValidate(s: Solid, nef: Interaction.NefKernel)
    requires |s.shells| >= 1
    ensures IsValid(Validate(s, nef).solid) == Validate(s, nef).verdict
  {
  }

  /** A single non-empty shell: the verdict is that shell's own validity. */
  lemma SingleShellVerdict(s: Solid, nef: Interaction.NefKernel)
    requires |s.shells| == 1 && !s.shells[0].empty
    ensures Validate(s, nef).verdict == s.shells[0].valid
  {
    assert !IsEmpty(s);
  }

  /** Validating a non-empty solid a second time gives the same flag, log
      and verdict. The shells' validators run again, but they record the
      same codes, so no shell's code set grows. */
  lemma RevalidateNonEmptyIsIdempotent(s: Solid, nef: Interaction.NefKernel)
    requires |s.shells| >= 1 && !IsEmpty(s)
    ensures Validate(Validate(s, nef).solid, nef) == Validate(s, nef)
  {
  }

  /** Validating an empty solid twice logs the parse error twice: the log is
      append-only, so `validate` is not idempotent there. */
  lemma RevalidateEmptyLogsTwice(s: Solid, nef: Interaction.NefKernel)
    requires IsEmpty(s)
    ensures |Bucket(Validate(Validate(s, nef).solid, nef).solid.errors, ParseErrorCode)|
         == |Bucket(s.errors, ParseErrorCode)| + 2
  {
    assert |s.shells| >= 1;
    assert IsEmpty(Validate(s, nef).solid);
  }

  /** The solid's own log never shows up in the unique codes: `add_error`
      leaves them unchanged. */
  lemma UniqueCodesIgnoreOwnLog(s: Solid, code: int, shell1: int, shell2: int, info: string)
    ensures UniqueErrorCodes(AddSolidError(s, code, shell1, shell2, info)) == UniqueErrorCodes(s)
  {
  }

  /** On an empty solid `validate` runs no shell validator, so the unique
      codes stay as they were although 902 is logged. Otherwise they gain
      exactly the codes the shells' validators record; 902 appears only if
      some shell itself reports it. */
  lemma UniqueCodesAfterValidate(s: Solid, nef: Interaction.NefKernel)
    requires |s.shells| >= 1
    ensures IsEmpty(s) ==> UniqueErrorCodes(Validate(s, nef).solid) == UniqueErrorCodes(s)
    ensures !IsEmpty(s) ==> forall c :: c in UniqueErrorCodes(Validate(s, nef).solid) <==>
      c in UniqueErrorCodes(s) || exists i :: 0 <= i < |s.shells| && c in s.shells[i].validatorCodes
    ensures ParseErrorCode in UniqueErrorCodes(Validate(s, nef).solid) ==>
      exists i :: 0 <= i < |s.shells| && (ParseErrorCode in s.shells[i].codes || ParseErrorCode in s.shells[i].validatorCodes)
  {
  }

  /** As written: a solid whose inner shell sticks out of its outer shell,
      with both shells valid on their own, is accepted by `validate`. */
  lemma EscapingInnerShellAccepted()
    ensures var sh := Shell(false, true, 6, 8, {}, {});
            var s := Solid("0", [sh, sh], -1, map[]);
            var nef := Interaction.NefKernel(i => true, (i, j) => 1, i => if i >= 0 then i + 2 else 0);
            !Interaction.Axiom1Holds(nef, 2) && Validate(s, nef).verdict && IsValid(Validate(s, nef).solid)
  {
    var sh := Shell(false, true, 6, 8, {}, {});
    var s := Solid("0", [sh, sh], -1, map[]);
    var nef := Interaction.NefKernel(i => true, (i, j) => 1, i => if i >= 0 then i + 2 else 0);
    assert nef.escapesOuter(1);
    assert !IsEmpty(s);
  }

  /** Corrected: the same solid is rejected, and in general a failing axiom
      makes the verdict false. */
  lemma IntendedRejectsAxiomFailure(s: Solid, nef: Interaction.NefKernel)
    requires |s.shells| >= 2
    requires !Interaction.Axiom1Holds(nef, |s.shells|) || !Interaction.Axiom2BoundedHolds(nef, |s.shells|)
          || !Interaction.Axiom3Holds(nef, |s.shells|)
    ensures !ValidateIntended(s, nef).verdict
    ensures !IsValid(ValidateIntended(s, nef).solid)
  {
  }
}
