# Qbox exchange-correlation selection and UPF conversion bookkeeping, in Dafny

This project models the part of Qbox that chooses and sets up the
exchange-correlation (XC) treatment. It also models the bookkeeping of the
`upf2qso` pseudopotential converter.

- **`xc` variable** (`Xc.h`, module `XcVar`). `set xc ...` accepts exactly one
  word from a fixed list, or the word `LIBXC` followed by any words. It stores
  them space-joined in the sample's control record. `print` lays the value out
  in two 50-character fields.
- **`XCOperator`** (`XCOperator.C`, module `XcOperator`).
  - The constructor splits `ctrl.xc` into words. Its first word decides
    whether there is an XC potential, an HF exchange operator, or both, and
    with which HF mixing coefficient. For a LIBXC description, the last word
    named `HF` supplies the coefficient. An unknown first word raises
    `XCOperatorException`.
  - `update` combines the potential's and the exchange operator's energies
    and stresses. `compute_stress` hands the stored stress out.
- **`LIBXCFunctional`** (`LIBXCFunctional.h`, module `LibxcFunctional`).
  - The constructor parses `name:coeff` terms and asks libxc for each id and
    family.
  - It classifies the combination as LDA, GGA or meta-GGA: meta-GGA if any
    term is, else GGA if any is, else LDA.
  - It sizes the work buffers for that family and the number of spins.
  - `isGGA` and `ismGGA` report the class.
- **`FourierTransform` grid accessors** (`FourierTransform.h`, module
  `FourierGrid`). These are the per-process slab extents `np2_loc` and
  `np2_first`, the sizes `np012` and `np012loc`, and the maps between
  `(i, j, k)` and the local linear index. The slabs partition the planes
  `0 .. np2-1`, and index and coordinates are mutual inverses. C's truncating
  `/` and `%` are modelled as `CDiv` and `CMod`.
- **`upf2qso`** (`util/upf2qso/src/upf2qso.C`, module `Upf2Qso`).
  - `seek_tag` reads standard input, modelled as class `Stdin` with a text, a
    position and an end-of-file flag.
  - The PP_INFO text is scrubbed of `<` and `>` in place.
  - The NC/NLCC header flags and the PP_DIJ diagonal check are validated.
  - The `iproj` table maps each angular momentum to its projector. From it
    come the local channel `llocal`, `qso_lmax`, and the per-block choice of
    local or projector potential and of a radial wavefunction.

Each angular momentum `l <= qso_lmax` without a projector gets the local
potential. This is not only `llocal`, as the comment at
`upf2qso.C:617` suggests. Example: projectors for l = 0 and 2 and
`lmax = 3` give local potentials at l = 1 and at l = 3. `ProjectorBlocks`
states the behaviour of the code.

Shared pieces:
- `Words` is tokenising by `stringstream >>` (C-locale white space).
- `Words` also covers the `substr(0, find(":"))` and `substr(find(":")+1)`
  split of a `name:coeff` term. When the term has no `:`, `find` returns
  `npos` and `npos + 1` wraps to 0, so the coefficient text is the whole
  term.
- `Results` holds the `Option` and `Result` types.

Opaque collaborators are function-valued parameters: libxc's
`xc_functional_get_number` and `xc_family_from_id`, `atof`, and
`XCPotential::isGGA`. The energies and stresses computed by the potential and
the exchange operator are plain parameters of `Update`. Floating-point
quantities are modelled as `real`.

## Model

| member | source | states |
|---|---|---|
| Words.Tokens | src/XCOperator.C:42-45 | the words extracted by repeated `>>` contain no white space and are non-empty |
| Words.LeadingSpaces | src/XCOperator.C:42-45 | the white space that `>>` skips before a word: the longest all-space prefix |
| Words.FirstToken | src/XCOperator.C:42-45 | a text yields no word exactly when it is all white space; else the first word is the non-space run after the leading white space |
| Words.TokensOfJoined | src/Xc.h:43-45 | joining words with single spaces and splitting again gives back the same words |
| Words.FindColon | src/XCOperator.C:62 | `find(":")`: the position of the first colon, or none when there is no colon |
| Words.NamePart | src/XCOperator.C:61-62 | the name part of a term is a colon-free prefix of it, and the whole term when it has no colon |
| Words.CoeffText | src/XCOperator.C:63-65 | the coefficient text is whatever follows the first colon (term == name + ":" + text), and the whole term when there is no colon |
| FourierGrid.CDiv | src/FourierTransform.h:151-152 | C integer division truncates toward zero: bounds for both signs of the dividend |
| FourierGrid.CMod | src/FourierTransform.h:150-151 | C remainder: a == b*CDiv(a,b) + r, with r taking the sign of the dividend |
| FourierGrid.Np2LocAt | src/FourierTransform.h:142 | a process's slab thickness is non-negative and its slab ends within the np2 planes |
| FourierGrid.Np2FirstAt | src/FourierTransform.h:144 | a process's first plane is the total thickness of the slabs of the processes before it |
| FourierGrid.Np2Loc | src/FourierTransform.h:141 | the no-argument accessor is the per-process accessor at the process's own rank |
| FourierGrid.Np2First | src/FourierTransform.h:143 | the no-argument accessor is the per-process accessor at the process's own rank |
| FourierGrid.Np012 | src/FourierTransform.h:145 | the global grid size (as a long) equals the sum of all processes' local slab volumes |
| FourierGrid.SumOfVolumes | src/FourierTransform.h:145-147 | the sum of slab volumes over the first n processes is np0*np1 times their total thickness |
| FourierGrid.Np012LocAt | src/FourierTransform.h:146 | a process's local size is non-negative, zero exactly for an empty slab, else at least one plane |
| FourierGrid.Np012Loc | src/FourierTransform.h:147 | the no-argument local size is the per-process one at the process's own rank |
| FourierGrid.Index | src/FourierTransform.h:148-149 | a point inside the local slab gets a linear index in [0, np012loc) |
| FourierGrid.I | src/FourierTransform.h:150 | the first coordinate lies in [0, np0) for a non-negative index (C sign rules otherwise) |
| FourierGrid.J | src/FourierTransform.h:151 | the second coordinate lies in [0, np1) for a non-negative index (C sign rules otherwise) |
| FourierGrid.K | src/FourierTransform.h:152 | for a local index, the global plane lies in this process's slab [np2_first, np2_first+np2_loc) |
| FourierGrid.OffsetRoundTrip | src/FourierTransform.h:148-152 | for every local index, index(i(ind), j(ind), k(ind)-np2_first) == ind |
| FourierGrid.CoordinatesRoundTrip | src/FourierTransform.h:148-152 | for every point of the local slab, i/j/k of its index give back i, j and k+np2_first |
| FourierGrid.ComposeOffset | src/FourierTransform.h:148-152 | for in-range (i, j, k), the truncating quotients and remainders of the offset are exactly i, j and k, and the offset is in [0, np0*np1*n2) |
| FourierGrid.SlabsPartitionGrid | src/FourierTransform.h:69-70 | every plane 0 <= k < np2 belongs to exactly one process's slab |
| XcVar.SetValue | src/Xc.h:38-71 | set accepts exactly: LIBXC followed by more words, or a single word from LDA/VWN/PBE/BLYP/HF/PBE0/B3LYP; the stored value starts with the first word and is it when there is one |
| XcVar.SetValueTokens | src/Xc.h:40-68 | the stored value splits back into exactly the words given to set |
| XcVar.LibxcValueFirstToken | src/Xc.h:42-46 | a stored LIBXC description always has LIBXC as its first word |
| XcVar.FormatVar | src/Xc.h:73-81 | the printed line: name left-justified in 50 columns, " = ", value right-justified in 50 columns; 103 characters when both fit |
| XcVar.Xc.constructor | src/Xc.h:83 | creating the variable resets the sample's functional to LDA |
| XcVar.Xc.Set | src/Xc.h:38-71 | returns 0 and stores the accepted value, or returns 1 and changes nothing; the loop builds the space-joined LIBXC value |
| XcVar.LeftJustified | src/Xc.h:76-77 | `setw` with left adjustment: the text first, then spaces up to the width; never truncated |
| XcVar.RightJustified | src/Xc.h:78-79 | `setw` with right adjustment: spaces up to the width, then the text; never truncated |
| XcVar.Xc.Name | src/Xc.h:36 | the variable's keyword is `xc`, a single word |
| XcVar.Xc.Print | src/Xc.h:73-81 | print formats the name "xc" and the current value of ctrl.xc |
| XcOperator.LastHFIndex | src/XCOperator.C:59-71 | the position of the last HF term, -1 when there is none |
| XcOperator.LastHFCoeff | src/XCOperator.C:59-71 | no coefficient iff there is no HF term, else the atof of the last HF term's coefficient text |
| XcOperator.LastHFCoeffSnoc | src/XCOperator.C:59-71 | each further term overrides the coefficient exactly when it is an HF term |
| XcOperator.LastHFCoeffStep | src/XCOperator.C:59-71 | scanning word i replaces the coefficient found so far exactly when word i is an HF term |
| XcOperator.Dispatch | src/XCOperator.C:26-123 | success iff the first word is known; always a potential or HF; without a potential it is pure HF with coefficient 1; without HF the coefficient is 0; non-LIBXC hybrids are HF, PBE0 and B3LYP |
| XcOperator.LibxcHybrid | src/XCOperator.C:52-72 | for LIBXC: a potential whose GGA flag is the potential's; HF iff some later word is named HF; the coefficient is that of the last such word |
| XcOperator.AcceptedValuesDispatch | src/XCOperator.C:42-122 | every value the xc variable accepts has a first word and is constructed without the exception |
| XcOperator.UpdatedEnergies | src/XCOperator.C:137-163 | exc + dxc is the potential's total (zero without one) whatever the HF energy; without HF both are the potential's values |
| XcOperator.AddStress | src/XCOperator.C:161-162 | add_stress adds the HF stress component by component |
| XcOperator.UpdatedStress | src/XCOperator.C:137-163 | zero without a potential or HF stress; the previous stress is kept with a potential when stress is not computed; the potential's stress when computed without HF |
| XcOperator.XCPotential.constructor | src/XCOperator.C:54 | the potential keeps its functional name and GGA flag |
| XcOperator.ExchangeOperator.constructor | src/XCOperator.C:69 | the exchange operator keeps its mixing coefficient |
| XcOperator.XCOperator.constructor | src/XCOperator.C:26-117 | the flags are those Dispatch gives; the potential exists iff hasPotential, the operator iff hasHF and with the mixing coefficient; energies and stress start at zero |
| XcOperator.XCOperator.Create | src/XCOperator.C:118-122 | construction fails with the exception exactly for an unknown first word |
| XcOperator.XCOperator.Update | src/XCOperator.C:132-164 | the new energies and stress are UpdatedEnergies and UpdatedStress of the old state; flags and collaborators unchanged |
| XcOperator.XCOperator.ComputeStress | src/XCOperator.C:174-177 | compute_stress returns the stored six-component stress |
| LibxcFunctional.AnyGGA | src/LIBXCFunctional.h:88-93 | true iff some family is GGA or hybrid GGA |
| LibxcFunctional.AnyMeta | src/LIBXCFunctional.h:94-99 | true iff some family is meta-GGA or hybrid meta-GGA |
| LibxcFunctional.FamilyClass | src/LIBXCFunctional.h:68-99 | the class is always LDA, GGA or meta-GGA |
| LibxcFunctional.FamilyClassOrderFree | src/LIBXCFunctional.h:85-99 | the class does not depend on the order of the functionals |
| LibxcFunctional.NonHFPositions | src/LIBXCFunctional.h:78-81 | the positions of the terms that are kept: in range, each naming a non-HF term, strictly increasing |
| LibxcFunctional.NonHFPositionsComplete | src/LIBXCFunctional.h:78-81 | every position of a non-HF term is among them, so each is kept exactly once |
| LibxcFunctional.NonHF | src/LIBXCFunctional.h:78-81 | a term is kept if and only if it is not HF; no more terms come out than went in |
| LibxcFunctional.NonHFInOrder | src/LIBXCFunctional.h:78-81 | the kept terms are the terms at those positions, so every non-HF term is kept as often as it occurs and in its original order |
| LibxcFunctional.FirstWordIgnored | src/LIBXCFunctional.h:71 | the first word of the description never becomes a functional term |
| LibxcFunctional.FunctionalTermsSnoc | src/LIBXCFunctional.h:69-84 | each later word adds itself as a term unless it is the first word or an HF term |
| LibxcFunctional.FunctionalTermsStep | src/LIBXCFunctional.h:69-84 | reading word n adds it to the terms exactly when n > 0 and it is not an HF term |
| LibxcFunctional.TermIds | src/LIBXCFunctional.h:73-79 | one id per term, each the libxc number of the term's name part |
| LibxcFunctional.TermCoeffs | src/LIBXCFunctional.h:75-80 | one coefficient per term, each atof of the text after the term's colon |
| LibxcFunctional.TermsSnoc | src/LIBXCFunctional.h:79-80 | one more term appends its id and its coefficient at the end |
| LibxcFunctional.ParseTerms | src/LIBXCFunctional.h:62-84 | the loop yields TermIds and TermCoeffs of the non-HF terms after the first word, in order |
| LibxcFunctional.FamiliesOf | src/LIBXCFunctional.h:85-86 | one family per id, in the same order |
| LibxcFunctional.ClassifyFamilies | src/LIBXCFunctional.h:68-99 | the two overwriting loops compute FamilyClass of the families |
| LibxcFunctional.AllocatedBuffers | src/LIBXCFunctional.h:101-256 | LDA: exc and one vxc row per spin; GGA/meta-GGA unpolarised: exc, vxc1, vxc2, three gradients; polarised: the up/down sets; vxc3 only for unpolarised meta-GGA |
| LibxcFunctional.PolarisedMetaLikeGGA | src/LIBXCFunctional.h:218-251 | spin-polarised meta-GGA allocates exactly what spin-polarised GGA does, with no vxc3 |
| LibxcFunctional.UnpolarisedMetaAddsVxc3 | src/LIBXCFunctional.h:199-217 | unpolarised meta-GGA allocates the GGA set plus vxc3 |
| LibxcFunctional.AllocateBuffers | src/LIBXCFunctional.h:101-256 | the switch's resizes give buffers of exactly the AllocatedBuffers lengths, all entries zero |
| LibxcFunctional.LIBXCFunctional.constructor | src/LIBXCFunctional.h:58-257 | ids, coefficients and families are those of the parsed terms; the class is FamilyClass; buffers have the AllocatedBuffers lengths for the spin count and points of rhoe, zero-filled |
| LibxcFunctional.LIBXCFunctional.IsGGA | src/LIBXCFunctional.h:259-263 | isGGA iff some functional is GGA or meta-GGA (a meta-GGA reports GGA too) |
| LibxcFunctional.LIBXCFunctional.IsMGGA | src/LIBXCFunctional.h:264-268 | ismGGA iff some functional is meta-GGA, and it implies isGGA |
| Upf2Qso.LineEnd | util/upf2qso/src/upf2qso.C:46 | getline's line ends at the first newline, or at the end of input |
| Upf2Qso.Extract | util/upf2qso/src/upf2qso.C:46-49 | `is >> s` on a line that is all white space leaves `s` unchanged; otherwise it yields a word |
| Upf2Qso.ExtractFirstWord | util/upf2qso/src/upf2qso.C:46-49 | that word is the non-space run after the leading white space, ending at white space or at the end of the line |
| Upf2Qso.Seek | util/upf2qso/src/upf2qso.C:37-58 | seek_tag's result: 0 with the input just past a newline, or 1 with the input at its end |
| Upf2Qso.SeekFindsTagLine | util/upf2qso/src/upf2qso.C:44-57 | a complete line whose first word is the tag returns 0, with the input resuming after that line |
| Upf2Qso.SeekSkipsLine | util/upf2qso/src/upf2qso.C:44-57 | a complete non-matching line is skipped and its first word (or the previous word, for a blank line) is carried on |
| Upf2Qso.SeekNextLine | util/upf2qso/src/upf2qso.C:44-57 | a non-matching line that is not the last hands the search on to the next line |
| Upf2Qso.SeekStops | util/upf2qso/src/upf2qso.C:44-57 | at the last line seek_tag returns 1 with the input at its end; at a matching complete line, 0 just past it |
| Upf2Qso.SeekFailsOnUnterminatedLastLine | util/upf2qso/src/upf2qso.C:50-55 | a last line without a newline returns 1 even when it matches, because the end-of-file test follows the match |
| Upf2Qso.Stdin.GetLine | util/upf2qso/src/upf2qso.C:46 | getline returns the rest of the line, moves past its newline, and sets end-of-file when none ends it |
| Upf2Qso.Stdin.SeekTag | util/upf2qso/src/upf2qso.C:37-58 | the read loop returns what Seek specifies from the current position, and 1 at once when end-of-file is already set; end-of-file is set exactly when it returns 1 |
| Upf2Qso.Scrubbed | util/upf2qso/src/upf2qso.C:92-99 | same length, no '<' or '>' left, every other character unchanged and every angle bracket a space |
| Upf2Qso.ScrubIdempotent | util/upf2qso/src/upf2qso.C:92-99 | scrubbing an already scrubbed text changes nothing |
| Upf2Qso.FindFirstAngle | util/upf2qso/src/upf2qso.C:94 | find_first_of("<>"): the first angle bracket, or npos when there is none |
| Upf2Qso.ScrubPPInfo | util/upf2qso/src/upf2qso.C:94-99 | the in-place loop leaves the PP_INFO array equal to Scrubbed of its old contents |
| Upf2Qso.HeaderFlagsStatus | util/upf2qso/src/upf2qso.C:118-140 | 0 iff the NC line's first word is "NC" and the NLCC line's first word is "F", else 1 |
| Upf2Qso.CheckDij | util/upf2qso/src/upf2qso.C:253-275 | 0 iff the Dij count equals the projector count and every entry has m == n, else 1 |
| Upf2Qso.LastWithL | util/upf2qso/src/upf2qso.C:288-289 | the last projector with momentum l, -1 when there is none |
| Upf2Qso.IprojTable | util/upf2qso/src/upf2qso.C:285-289 | lmax+2 entries, entry l being the last projector with momentum l or -1 |
| Upf2Qso.BuildIproj | util/upf2qso/src/upf2qso.C:285-289 | the two loops build exactly IprojTable |
| Upf2Qso.TopChannelIsFree | util/upf2qso/src/upf2qso.C:243-289 | with every projector l <= lmax, iproj[lmax+1] is -1 |
| Upf2Qso.LowestFree | util/upf2qso/src/upf2qso.C:292-296 | the smallest l with iproj[l] == -1 |
| Upf2Qso.LowestFreeFrom | util/upf2qso/src/upf2qso.C:292-296 | the smallest l at or after a start with iproj[l] == -1 |
| Upf2Qso.LocalChannel | util/upf2qso/src/upf2qso.C:292-296 | the reverse loop sets llocal to the smallest l with iproj[l] == -1 |
| Upf2Qso.QsoLmax | util/upf2qso/src/upf2qso.C:298-302 | qso_lmax is lmax+1 iff llocal > lmax, else lmax |
| Upf2Qso.ChannelLayout | util/upf2qso/src/upf2qso.C:282-302 | a local channel exists; 0 <= llocal <= qso_lmax <= lmax+1; every block l indexes iproj in range; below llocal every l has a projector of that l |
| Upf2Qso.FindWavefunction | util/upf2qso/src/upf2qso.C:627-631 | with the bounds test first: the first wavefunction of momentum l, and found iff some wavefunction has momentum l |
| Upf2Qso.AsWrittenProbes | util/upf2qso/src/upf2qso.C:629 | the sequence of upf_wf_l elements the loop as written reads, starting at j |
| Upf2Qso.AsWrittenReadsPastEnd | util/upf2qso/src/upf2qso.C:629 | when no wavefunction has momentum l, the loop as written reads upf_wf_l[upf_nwf] |
| Upf2Qso.AsWrittenOutOfBoundsExample | util/upf2qso/src/upf2qso.C:629 | one s wavefunction and a block for l = 1: the loop reads elements 0 and 1 of a one-element vector |
| Upf2Qso.AsWrittenInBoundsWhenFound | util/upf2qso/src/upf2qso.C:629 | when some wavefunction has momentum l, the loop as written stays within bounds |
| Upf2Qso.ProjectorBlocks | util/upf2qso/src/upf2qso.C:610-641 | qso_lmax+1 blocks, block l taking the local potential iff iproj[l] == -1, else projector iproj[l], and a radial function iff some wavefunction has momentum l (the first one) |

## Left out

- FourierTransform: the transforms themselves, the MPI distribution and the constructor that computes `np2_loc` are not modelled. A grid is a value satisfying `FourierGrid.Valid`, with empty slabs (`np2_loc == 0`) allowed.
- FourierGrid.Np012LocAt: requires the product to fit in an `int`. The signed overflow of `np0_ * np1_ * np2_loc_` is undefined behaviour in C++ and is not modelled. `Np012Loc`, `Index` and `K` carry the same no-overflow preconditions.
- XcVar: `Sample` is reduced to the two control fields the code uses. The error messages printed through `ui->onpe0()` are left out.
- XcOperator: the `cout` of the functional name and the internals of `XCPotential` and `ExchangeOperator` are not modelled. Their energies, stresses and `isGGA()` are inputs.
- XcOperator.XCOperator.constructor: keeps only the last `ExchangeOperator` when a LIBXC description has several HF terms. The earlier ones, which the source leaks, are not modelled.
- XCOperator::apply_self_energy and XCOperator::cell_moved are not modelled: each only forwards to the exchange operator when HF is on, and that operator is opaque here.
- LibxcFunctional: `setxc` (the libxc evaluation), the `xc_func_type` member, the raw addresses of the buffers, the `taue` argument, and `name()` are not modelled.
- Upf2Qso: several parts of `main` are not modelled:
  - command-line handling, the `PeriodicTable` lookup and the numeric header fields;
  - the mesh, local potential, beta and wavefunction reading;
  - the spline interpolation, the Rydberg-to-Hartree scaling and the XML output.
  The `ProjectorBlocks` result records each block's structure, not its numbers.
- Upf2Qso: the loop that collects the PP_INFO lines is not modelled. It has no end-of-input test. Only the scrubbing of the collected text is.
- Upf2Qso.BuildIproj: requires every projector's l to be in [0, lmax]. The source asserts only `l <= upf_lmax`; a negative l would index `iproj` out of bounds.
- Upf2Qso.CheckDij: the PP_DIJ entries are given as a sequence of `(m, n, d)` triples instead of being read from the stream.
- Upf2Qso.Stdin: standard input is a fixed text. Read failures other than end of input and the `cerr` messages are not modelled.

## Findings

| source | as written | input that shows it | evidently intended | confidence | as-written member | corrected member |
|---|---|---|---|---|---|---|
| util/upf2qso/src/upf2qso.C:629 | the wavefunction search reads `upf_wf_l[j]` before testing `j < upf_nwf`, so when no wavefunction has momentum l it reads one element past the end of the vector | one wavefunction with l = 0 and one projector with l = 0, lmax = 0: llocal = 1, so qso_lmax = 1, and the block for l = 1 reads `upf_wf_l[1]` of a one-element vector | test the bound first, then the element; "not found" when the bound is reached | not executed | Upf2Qso.AsWrittenReadsPastEnd | Upf2Qso.FindWavefunction |
