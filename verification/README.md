# val3dity `Solid` aggregate in Dafny

This project models the `Solid` class of val3dity. A solid is an ordered list
of shells: index 0 is the outer shell and the others are inner shells
(cavities). Alongside the shells it keeps a tri-state validity flag
(`_is_valid`: -1 unknown, 1 valid, 0 invalid) and an error log. The log maps
each error code to an ordered bucket of `(shell1, shell2, info)` records.

The model is functional. A `Solid` is an immutable datatype, and every
operation returns the new state. A shell is an abstract record with these
parts:
- whether it reports itself empty;
- whether its own validator accepts it;
- its face and vertex counts;
- the set of unique error codes it currently reports;
- the codes its validator records each time it runs.

Running a shell's validator (`Shells.RunValidator`) adds those recorded codes
to the shell's set. The exact Nef-polyhedron kernel behind the interaction
check is reduced to three oracles (`Interaction.NefKernel`):
- whether `complement(outer) * inner i` is non-empty;
- `number_of_volumes()` of `inner i * inner j`. The kernel also counts the
  unbounded outer volume, so this answer is at least 1
  (`Interaction.CountsOuterVolume`);
- `number_of_volumes()` after the k-th cumulative subtraction.
  `regularization()` returns a new polyhedron, and Solid.cpp:324 discards it,
  so this count is taken on the unregularized difference.

Modules:
- `Shells`: the shell record and the loops over shells (emptiness scan,
  per-shell validation, totals, union of codes).
- `ErrorLog`: the per-code buckets and `add_error`.
- `Ids`: solid ids, which are the process-wide counter written in decimal.
- `Interaction`: the control skeleton of `validate_solid_with_nef`.
- `Solids`: the aggregate, its constructors, accessors and `validate`.
- `SolidProperties`: lemmas that relate several operations.

The model captures one key fact about the source. `validate_solid_with_nef`
returns its local `isValid`, which is set to true and never assigned again.
The axiom passes only update a separate `success` flag, and that flag never
reaches the result. So on a non-empty solid, the verdict of `validate` is
exactly "every shell validates", whatever the axioms find.

`is_empty` is an OR over the shells (Solid.cpp:99-107), so a solid with no
shells is not empty. `validate` on such a solid would read `nefs[0]` from an
empty vector (Solid.cpp:319). So `Validate` and the interaction check require
at least one shell.

The model of `validate` follows the code as written. The corrected
definitions listed under "## Findings" stand beside it, with their own
properties proved.

## Model

| member | source | states |
|---|---|---|
| Shells.AnyEmpty | Solid.cpp:99-107 | the early-exit scan is true iff some shell reports empty, and false on no shells |
| Shells.RunValidator | Solid.cpp:138 | running a shell's validator adds its recorded codes to the shell's code set and changes nothing else the solid observes |
| Shells.ValidateShells | Solid.cpp:136-140 | runs exactly one validator per shell, even after a failure; every shell comes out as its validator left it; the combined result is true iff every shell is valid |
| Shells.UniqueCodes | Solid.cpp:151-160 | a code is in the union iff some shell reports it |
| Shells.TotalAppend | Solid.cpp:229-243 | the running total over a concatenation is the sum of the two totals |
| Shells.TotalBounds | Solid.cpp:229-243 | each shell's own count is at most the solid's total |
| Shells.TotalUpdate | Solid.cpp:229-243 | replacing one shell changes the total by the new count minus the old one |
| ErrorLog.AddError | Solid.cpp:257-260 | the record goes at the end of its code's bucket; earlier records and all other buckets stay unchanged; the code becomes a key |
| ErrorLog.AddErrorsKeepOrder | Solid.cpp:257-260 | two records added under one code come out in insertion order |
| ErrorLog.AddErrorsCommute | Solid.cpp:257-260 | records added under different codes give the same log in either order |
| Ids.Decimal | Solid.cpp:45 | the id is a non-empty string of decimal digits with no leading zero |
| Ids.DecimalRoundTrip | Solid.cpp:45 | parsing the id gives back the counter value it was built from |
| Ids.DecimalInjective | Solid.cpp:41-46 | different counter values give different ids |
| Interaction.Axiom1Loop | Solid.cpp:290-300 | the axiom-1 pass clears `success` iff some inner shell escapes the outer shell, and checks every inner shell |
| Interaction.Axiom2Inner | Solid.cpp:306-314 | shell i against every later inner shell clears `success` iff one of those intersections reports a positive volume count |
| Interaction.Axiom2Outer | Solid.cpp:302-315 | the pairwise pass clears `success` iff some pair of inner shells reports a positive volume count for its intersection |
| Interaction.Axiom2RejectsEveryPair | Solid.cpp:304-315 | with the kernel counting the outer volume, the `> 0` test fails for every pair, so any solid with two or more inner shells has `success` false |
| Interaction.Axiom2InnerIntended | Solid.cpp:306-314 | corrected test `> 1`: clears `success` iff shell i shares a bounded volume with a later inner shell |
| Interaction.Axiom2OuterIntended | Solid.cpp:302-315 | corrected pairwise pass: clears `success` iff two inner shells share a bounded volume |
| Interaction.DisjointInnerShellsPassOnlyIntended | Solid.cpp:306-314 | inner shells whose intersections hold only the outer volume pass the corrected axiom 2 but never the one as written |
| Interaction.ValidateSolidWithNefIntended | Solid.cpp:269-332 | the corrected check returns the axioms' verdict: true iff there are no inner shells, or axioms 1, 2 (corrected) and 3 all hold |
| Interaction.Axiom3Loop | Solid.cpp:317-332 | the cumulative subtraction pass breaks iff, after the k-th subtraction, some volume count differs from 2+k; it stops at the first such k and clears `success` |
| Interaction.ValidateSolidWithNef | Solid.cpp:269-431 | returns at once when there are no inner shells; otherwise `success` holds iff axioms 1-3 all hold; the returned value is true for every input |
| Solids.NewSolid | Solid.cpp:43-48 | the default solid has no shells, no errors and flag -1; its id is the counter in decimal, and the counter advances by one |
| Solids.NewSolidWithShell | Solid.cpp:51-56 | the one-shell solid holds just that shell; its flag is an arbitrary uninitialised value; the counter advances by one |
| Solids.OuterShell | Solid.cpp:63-66 | requires at least one shell, because the source indexes `_shells[0]` without a check; returns shell 0, whose face and vertex counts are within the solid's totals |
| Solids.SetOuterShell | Solid.cpp:69-75 | on no shells it gives exactly one shell; otherwise it replaces index 0 and keeps the length and every other shell |
| Solids.AddInnerShell | Solid.cpp:84-87 | appends the shell at the end; the earlier shells, flag, log and id are unchanged |
| Solids.NumInnerShells | Solid.cpp:224-227 | one less than the shell count, so -1 for a solid with no shells |
| Solids.NumFaces | Solid.cpp:229-235 | 0 on no shells, and at least every shell's own face count |
| Solids.NumVertices | Solid.cpp:237-243 | 0 on no shells, and at least every shell's own vertex count |
| Solids.IsEmpty | Solid.cpp:99-107 | true iff some shell reports empty, so a solid with no shells is not empty |
| Solids.IsValid | Solid.cpp:90-96 | true iff the stored flag is positive and no shell is empty |
| Solids.AddSolidError | Solid.cpp:257-265 | the solid's log gains the record at the end of the code's bucket; shells, flag and the other buckets are unchanged |
| Solids.UniqueErrorCodes | Solid.cpp:151-160 | exactly the codes that some shell reports; the solid's own log is not consulted |
| Solids.Validate | Solid.cpp:128-148 | an empty solid gets one (-1,-1,"probably error while parsing GML input") record under 902 and returns false with the flag and every shell untouched; otherwise every shell validator runs and records its codes in its shell, the verdict is "all shells valid and the interaction check true", it is stored as 1/0, and the log is unchanged |
| Solids.ValidateIntended | Solid.cpp:128-148 | corrected `validate`: on a non-empty solid the verdict is true iff all shells are valid and either there are no inner shells or axioms 1, 2 (corrected) and 3 hold; the empty path is as written |
| SolidProperties.NewSolidIsNotValid | Solid.cpp:43-48 | a freshly default-constructed solid is not valid |
| SolidProperties.ConsecutiveSolidsHaveDistinctIds | Solid.cpp:41-56 | solids constructed one after the other get different ids |
| SolidProperties.SetThenGetOuterShell | Solid.cpp:63-75 | after `set_oshell(sh)`, `get_oshell` returns sh |
| SolidProperties.AddInnerShellTotals | Solid.cpp:84-87 | `add_ishell` grows `num_ishells` by one; it adds the shell's faces, vertices and codes to the totals; the solid becomes empty iff it was empty or the new shell is |
| SolidProperties.SetOuterShellTotals | Solid.cpp:69-75 | `set_oshell` swaps the old outer shell's face and vertex counts for the new one's, or sets them on no shells |
| SolidProperties.VerdictIgnoresAxioms | Solid.cpp:136-147 | on a non-empty solid the verdict is true iff every shell validates |
| SolidProperties.ValidateIgnoresKernel | Solid.cpp:141-145 | the answers of the exact kernel never change the state or the verdict of `validate` |
| SolidProperties.AxiomFailureIsNotReported | Solid.cpp:288-332 | when some axiom fails, `success` is false but the interaction check still returns true |
| SolidProperties.IsValidAfterValidate | Solid.cpp:90-148 | after `validate`, `is_valid` equals the verdict it returned |
| SolidProperties.SingleShellVerdict | Solid.cpp:136-147 | for one non-empty shell, the verdict is that shell's own validity |
| SolidProperties.RevalidateNonEmptyIsIdempotent | Solid.cpp:128-148 | validating a non-empty solid twice gives the same flag, log and verdict as validating it once; the validators run again but record the same codes |
| SolidProperties.RevalidateEmptyLogsTwice | Solid.cpp:131-135 | validating an empty solid twice leaves two more 902 records |
| SolidProperties.UniqueCodesIgnoreOwnLog | Solid.cpp:151-160 | `add_error` on the solid's own log leaves the unique codes unchanged |
| SolidProperties.UniqueCodesAfterValidate | Solid.cpp:128-160 | the 902 path runs no validator and leaves the unique codes unchanged; otherwise they gain exactly the codes the shells' validators record; 902 appears only if a shell reports it |
| SolidProperties.EscapingInnerShellAccepted | Solid.cpp:141-147 | as written: two valid shells where the inner one escapes the outer one are accepted, and `is_valid` is then true |
| SolidProperties.IntendedRejectsAxiomFailure | Solid.cpp:288-332 | corrected: on a solid with inner shells, a failing axiom makes the verdict false and `is_valid` false |

## Findings

| source | as written | input that shows it | evidently intended | confidence | as-written member | corrected member |
|---|---|---|---|---|---|---|
| Solid.cpp:274-431 | `validate_solid_with_nef` returns its local `isValid`, which is set to true and never assigned again (the `isValid = false` at line 339 is commented out); the axiom passes only clear `success` | an outer shell and one inner shell, both valid on their own, with the inner shell partly outside the outer one | return `success`, so a failing axiom makes the solid invalid | high, not executed | SolidProperties.EscapingInnerShellAccepted | Solids.ValidateIntended |
| Solid.cpp:309 | axiom 2 clears `success` when `number_of_volumes() > 0` for an intersection of two inner shells | two disjoint inner shells: their intersection still has the unbounded volume, so the count is 1, the same baseline that makes `numvol` start at 2 (line 320) | test `> 1`, i.e. a bounded common volume | medium, not executed | Interaction.Axiom2RejectsEveryPair | Interaction.Axiom2OuterIntended |

## Left out

- `translate_vertices`: floating-point bounding-box arithmetic through shell methods that are not part of this model.
- Shell internals: the shell validator and its primitive kind and planarity tolerances, the emptiness test, and the shell's own error log and reports are abstract fields. The validator is taken to give the same verdict and record the same codes on every run.
- The exact Nef-polyhedron kernel: conversion, complement, intersection, difference, regularization, `number_of_volumes` and `is_empty` are oracles. They cannot affect what the as-written interaction check returns. They always answer: a kernel failure (an exception from the conversion or a boolean operation) is not modelled, although in the source it would leave `validate` after every shell validator had run, without storing `_is_valid` or returning. The outer-volume convention is stated as `Interaction.CountsOuterVolume` and used only where a lemma says so.
- The commented-out pairwise diagnosis pass with codes 401-404: it is dead code.
- `get_report_xml`, `get_report_text`, `get_poly_representation` and the `std::clog`/`std::cout` tracing: string formatting that depends on `errorcode2description` and on shell reports, which are not part of this model.
- `get_shells`, `get_id` and `set_id`: plain field reads and writes of the datatype.
- Ownership and the empty destructor: values replace pointers.
- A solid with no shells is excluded from `Validate` and `Interaction.ValidateSolidWithNef`, because the source reads `nefs[0]` from an empty vector there.
- Solids.NumFaces: does not model overflow of the C++ `int` running total; counts are unbounded naturals.
- Solids.NumVertices: does not model overflow of the C++ `int` running total; counts are unbounded naturals.
- Solids.NewSolid: the process-wide `int` counter is an explicit natural number passed in and returned; its overflow is not modelled.
