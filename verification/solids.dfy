/** The `Solid` aggregate of val3dity: an ordered list of shells (index 0 the
    outer shell, the rest inner shells), a tri-state validity flag and an
    error log grouped by code. Every operation returns the new state. */
module Solids {
  import opened Shells
  import opened ErrorLog
  import Ids
  import Interaction

  /** `flag` is the stored `_is_valid`: -1 unknown, 1 valid, 0 invalid. */
  datatype Solid = Solid(id: string, shells: seq<Shell>, flag: int, errors: Log)

  /** A constructed solid together with the process-wide counter after it. */
  datatype Created = Created(solid: Solid, counter: nat)

  /** Error code for a solid whose shells could not be read. */
  const ParseErrorCode: int := 902
  const ParseErrorInfo: string := "probably error while parsing GML input"

  /** `Solid()`: no shells, flag unknown, id taken from the counter, which
      then moves on by one. */
  function NewSolid(counter: nat): (c: Created)
    ensures c.solid.shells == [] && c.solid.errors == map[]
    ensures c.solid.flag == -1
    ensures c.solid.id == Ids.Decimal(counter)
    ensures c.counter == counter + 1
  {
    Created(Solid(Ids.Decimal(counter), [], -1, map[]), counter + 1)
  }

  /** `Solid(Shell*)`: the shell becomes the outer shell. The constructor
      never initialises `_is_valid`, so the flag it holds is whatever value
      `garbage` stands for; nothing is assumed about it. */
  function NewSolidWithShell(sh: Shell, counter: nat, garbage: int): (c: Created)
    ensures c.solid.shells == [sh] && c.solid.errors == map[]
    ensures c.solid.id == Ids.Decimal(counter)
    ensures c.counter == counter + 1
  {
    Created(Solid(Ids.Decimal(counter), [sh], garbage, map[]), counter + 1)
  }

  /** `get_oshell`: the source indexes without a check, so callers must
      ensure there is a shell. */
  function OuterShell(s: Solid): (r: Shell)
    requires |s.shells| >= 1
    ensures r == s.shells[0]
    ensures r.faces <= NumFaces(s) && r.vertices <= NumVertices(s)
  {
    s.shells[0]
  }

  /** `set_oshell`: establishes the outer shell of a solid without shells,
      otherwise replaces shell 0 and nothing else. */
  function SetOuterShell(s: Solid, sh: Shell): (r: Solid)
    ensures r.id == s.id && r.flag == s.flag && r.errors == s.errors
    ensures |r.shells| == if |s.shells| == 0 then 1 else |s.shells|
    ensures r.shells[0] == sh
    ensures forall i :: 1 <= i < |s.shells| ==> r.shells[i] == s.shells[i]
  {
    if |s.shells| == 0 then s.(shells := s.shells + [sh])
    else s.(shells := s.shells[0 := sh])
  }

  /** `add_ishell`: appends at the end; nothing is checked at insertion. */
  function AddInnerShell(s: Solid, sh: Shell): (r: Solid)
    ensures r.id == s.id && r.flag == s.flag && r.errors == s.errors
    ensures |r.shells| == |s.shells| + 1
    ensures r.shells[..|s.shells|] == s.shells && r.shells[|s.shells|] == sh
  {
    s.(shells := s.shells + [sh])
  }

  /** `num_ishells`: the shell count minus one, which is -1 for a solid
      without shells. */
  function NumInnerShells(s: Solid): (r: int)
    ensures r >= -1
    ensures r + 1 == |s.shells|
  {
    |s.shells| - 1
  }

  function FaceCount(sh: Shell): nat { sh.faces }
  function VertexCount(sh: Shell): nat { sh.vertices }

  /** `num_faces`: every shell's faces added up. */
  function NumFaces(s: Solid): (r: nat)
    ensures |s.shells| == 0 ==> r == 0
    ensures forall i :: 0 <= i < |s.shells| ==> s.shells[i].faces <= r
  {
    forall i | 0 <= i < |s.shells| {
      TotalBounds(s.shells, FaceCount, i);
    }
    Total(s.shells, FaceCount)
  }

  /** `num_vertices`: every shell's vertices added up. */
  function NumVertices(s: Solid): (r: nat)
    ensures |s.shells| == 0 ==> r == 0
    ensures forall i :: 0 <= i < |s.shells| ==> s.shells[i].vertices <= r
  {
    forall i | 0 <= i < |s.shells| {
      TotalBounds(s.shells, VertexCount, i);
    }
    Total(s.shells, VertexCount)
  }

  /** `is_empty`: some shell reports itself empty. A solid with no shell at
      all is therefore not empty. */
  function IsEmpty(s: Solid): (r: bool)
    ensures r <==> exists i :: 0 <= i < |s.shells| && s.shells[i].empty
    ensures |s.shells| == 0 ==> !r
  {
    AnyEmpty(s.shells)
  }

  /** `is_valid`: the stored flag is positive and the solid is not empty. */
  function IsValid(s: Solid): (r: bool)
    ensures r <==> s.flag > 0 && forall i :: 0 <= i < |s.shells| ==> !s.shells[i].empty
  {
    s.flag > 0 && !IsEmpty(s)
  }

  /** `add_error` on the solid's own log. */
  function AddSolidError(s: Solid, code: int, shell1: int, shell2: int, info: string): (r: Solid)
    ensures r.id == s.id && r.shells == s.shells && r.flag == s.flag
    ensures Bucket(r.errors, code) == Bucket(s.errors, code) + [ErrorRecord(shell1, shell2, info)]
    ensures forall c :: c != code ==> Bucket(r.errors, c) == Bucket(s.errors, c)
  {
    var r := s.(errors := AddError(s.errors, code, shell1, shell2, info));
    assert Bucket(r.errors, code) == Bucket(r.errors, code)[..|Bucket(s.errors, code)|] + [Bucket(r.errors, code)[|Bucket(s.errors, code)|]];
    r
  }

  /** `get_unique_error_codes`: the codes reported by the shells only; the
      solid's own log is not consulted. */
  function UniqueErrorCodes(s: Solid): (r: set<int>)
    ensures forall c :: c in r <==> exists i :: 0 <= i < |s.shells| && c in s.shells[i].codes
  {
    UniqueCodes(s.shells)
  }

  /** The state after `validate`, its return value, and how many shell
      validators it ran. */
  datatype Validation = Validation(solid: Solid, verdict: bool, shellChecks: nat)

  /** `validate`. An empty solid logs one parse error under 902 and returns
      false without touching the flag or any shell. Otherwise every shell
      validator runs and records its errors in its shell,
      the interaction check runs only if all of them passed, and the verdict
      is stored as 1 or 0. The source reads `nefs[0]` in the interaction
      check, so a solid without shells is excluded. */
  function Validate(s: Solid, nef: Interaction.NefKernel): (v: Validation)
    requires |s.shells| >= 1
    ensures v.solid.id == s.id && |v.solid.shells| == |s.shells|
    ensures IsEmpty(s) ==> v.solid.shells == s.shells
    ensures IsEmpty(s) ==> !v.verdict && v.shellChecks == 0 && v.solid.flag == s.flag
    ensures IsEmpty(s) ==>
      Bucket(v.solid.errors, ParseErrorCode) == Bucket(s.errors, ParseErrorCode) + [ErrorRecord(-1, -1, ParseErrorInfo)]
    ensures IsEmpty(s) ==> forall c :: c != ParseErrorCode ==> Bucket(v.solid.errors, c) == Bucket(s.errors, c)
    ensures !IsEmpty(s) ==> v.solid.errors == s.errors && v.shellChecks == |s.shells|
    ensures !IsEmpty(s) ==> forall i :: 0 <= i < |s.shells| ==> v.solid.shells[i] == RunValidator(s.shells[i])
    ensures !IsEmpty(s) ==>
      (v.verdict <==> (forall i :: 0 <= i < |s.shells| ==> s.shells[i].valid)
                      && Interaction.ValidateSolidWithNef(|s.shells|, nef).isValid)
    ensures !IsEmpty(s) ==> v.solid.flag == (if v.verdict then 1 else 0)
  {
    if IsEmpty(s) then
      Validation(AddSolidError(s, ParseErrorCode, -1, -1, ParseErrorInfo), false, 0)
    else
      var pass := ValidateShells(s.shells);
      var isValid :=
        if !pass.allValid then false
        else Interaction.ValidateSolidWithNef(|s.shells|, nef).isValid;
      Validation(s.(shells := pass.shells, flag := if isValid then 1 else 0), isValid, pass.checks)
  }

  /** `validate` as evidently intended: the same procedure, but the
      interaction step uses the corrected check, whose result is the
      axioms' verdict. */
  function ValidateIntended(s: Solid, nef: Interaction.NefKernel): (v: Validation)
    requires |s.shells| >= 1
    ensures v.solid.id == s.id && |v.solid.shells| == |s.shells|
    ensures IsEmpty(s) ==> !v.verdict && v.solid == Validate(s, nef).solid
    ensures !IsEmpty(s) ==>
      (v.verdict <==> (forall i :: 0 <= i < |s.shells| ==> s.shells[i].valid)
                      && (|s.shells| == 1
                          || (Interaction.Axiom1Holds(nef, |s.shells|)
                              && Interaction.Axiom2BoundedHolds(nef, |s.shells|)
                              && Interaction.Axiom3Holds(nef, |s.shells|))))
    ensures !IsEmpty(s) ==> v.solid.flag == (if v.verdict then 1 else 0)
    ensures !IsEmpty(s) ==> v.solid.shells == Validate(s, nef).solid.shells && v.solid.errors == s.errors
  {
    if IsEmpty(s) then Validate(s, nef)
    else
      var pass := ValidateShells(s.shells);
      var isValid :=
        if !pass.allValid then false
        else Interaction.ValidateSolidWithNefIntended(|s.shells|, nef);
      Validation(s.(shells := pass.shells, flag := if isValid then 1 else 0), isValid, pass.checks)
  }
}
