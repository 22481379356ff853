/** The part of a val3dity `Shell` that the `Solid` aggregate observes.
    The shell's own geometry, validator and error log are outside this model:
    a shell is reduced to the answers it gives the solid. */
module Shells {

  /** `empty` is what the shell's emptiness test reports, `valid` the result of
      its own validator, `faces`/`vertices` its counts and `codes` the set of
      unique error codes it currently reports. `validatorCodes` are the codes
      its validator records whenever it runs. */
  datatype Shell = Shell(empty: bool, valid: bool, faces: nat, vertices: nat,
                         codes: set<int>, validatorCodes: set<int>)

  /** Running a shell's validator: it records its errors in the shell and
      changes nothing else the solid observes. */
  function RunValidator(sh: Shell): (r: Shell)
    ensures r.empty == sh.empty && r.valid == sh.valid
    ensures r.faces == sh.faces && r.vertices == sh.vertices
    ensures r.validatorCodes == sh.validatorCodes
    ensures sh.codes <= r.codes && sh.validatorCodes <= r.codes
    ensures forall c :: c in r.codes ==> c in sh.codes || c in sh.validatorCodes
  {
    sh.(codes := sh.codes + sh.validatorCodes)
  }

  /** The early-exit scan of `Solid::is_empty`: true as soon as one shell
      reports itself empty; over no shells at all it is false. */
  function AnyEmpty(ss: seq<Shell>): (r: bool)
    ensures r <==> exists i :: 0 <= i < |ss| && ss[i].empty
  {
    if |ss| == 0 then false
    else if ss[0].empty then true
    else
      var rest := AnyEmpty(ss[1..]);
      assert forall i :: 1 <= i < |ss| ==> ss[i] == ss[1..][i - 1];
      rest
  }

  /** Outcome of running every shell's validator in order: the combined
      verdict, the number of validators run and the shells as they are after. */
  datatype ShellPass = ShellPass(allValid: bool, checks: nat, shells: seq<Shell>)

  /** The per-shell loop of `Solid::validate`: a failing shell clears the
      verdict but does not stop the loop, so every validator runs. */
  function ValidateShells(ss: seq<Shell>): (p: ShellPass)
    ensures p.checks == |ss|
    ensures p.allValid <==> forall i :: 0 <= i < |ss| ==> ss[i].valid
    ensures |p.shells| == |ss|
    ensures forall i :: 0 <= i < |ss| ==> p.shells[i] == RunValidator(ss[i])
  {
    if |ss| == 0 then ShellPass(true, 0, [])
    else
      var before := ValidateShells(ss[..|ss| - 1]);
      assert forall i :: 0 <= i < |ss| - 1 ==> ss[i] == ss[..|ss| - 1][i];
      var last := ss[|ss| - 1];
      ShellPass(if RunValidator(last).valid then before.allValid else false,
                before.checks + 1, before.shells + [RunValidator(last)])
  }

  /** The running total of `num_faces`/`num_vertices`: `count` picks the
      per-shell quantity that is added up, in shell order. */
  function Total(ss: seq<Shell>, count: Shell -> nat): nat
  {
    if |ss| == 0 then 0 else Total(ss[..|ss| - 1], count) + count(ss[|ss| - 1])
  }

  /** The union loop of `Solid::get_unique_error_codes`. */
  function UniqueCodes(ss: seq<Shell>): (r: set<int>)
    ensures forall c :: c in r <==> exists i :: 0 <= i < |ss| && c in ss[i].codes
  {
    if |ss| == 0 then {}
    else
      var before := UniqueCodes(ss[..|ss| - 1]);
      assert forall i :: 0 <= i < |ss| - 1 ==> ss[i] == ss[..|ss| - 1][i];
      before + ss[|ss| - 1].codes
  }

  /** Adding up over a concatenation adds the two totals. */
  lemma {:induction false} TotalAppend(a: seq<Shell>, b: seq<Shell>, count: Shell -> nat)
    ensures Total(a + b, count) == Total(a, count) + Total(b, count)
    decreases |b|
  {
    if |b| == 0 {
      assert a + b == a;
    } else {
      assert (a + b)[..|a + b| - 1] == a + b[..|b| - 1];
      TotalAppend(a, b[..|b| - 1], count);
    }
  }

  /** Every shell's own count is bounded by the total. */
  lemma {:induction false} TotalBounds(ss: seq<Shell>, count: Shell -> nat, i: int)
    requires 0 <= i < |ss|
    ensures count(ss[i]) <= Total(ss, count)
    decreases |ss|
  {
    if i < |ss| - 1 {
      assert ss[..|ss| - 1][i] == ss[i];
      TotalBounds(ss[..|ss| - 1], count, i);
    }
  }

  /** Replacing one shell changes the total by exactly the difference of the
      replaced and the new shell's counts. */
  lemma {:induction false} TotalUpdate(ss: seq<Shell>, i: int, sh: Shell, count: Shell -> nat)
    requires 0 <= i < |ss|
    ensures Total(ss[i := sh], count) == Total(ss, count) - count(ss[i]) + count(sh)
  {
    var pre, post := ss[..i], ss[i + 1..];
    assert ss == pre + [ss[i]] + post;
    assert ss[i := sh] == pre + [sh] + post;
    TotalAppend(pre + [ss[i]], post, count);
    TotalAppend(pre, [ss[i]], count);
    TotalAppend(pre + [sh], post, count);
    TotalAppend(pre, [sh], count);
    assert [sh][..0] == [] && [ss[i]][..0] == [];
  }
}
