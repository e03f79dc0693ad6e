# JavaMelting duplex analyser in Dafny

This project models the core of MELTING's Java port (`jmelt.Melting`). MELTING computes the enthalpy, the entropy and the melting temperature of a nucleic-acid duplex. A duplex is given as a probe sequence and the sequence facing it, position by position.

The model covers the following parts:

- **The sequence utilities.** `check_sequence` counts illegal characters. `make_complement` builds the base-by-base complement. `is_mismatch` tests one position for pairing. The program's `strncmp` compares fixed-length prefixes.
- **The parameter tables.** These are `calor_const`, `dataset` and `get_index`.
- **The duplex walk of `get_results`.** It first chooses between the approximate and the exact path. It then looks up the dangling ends at the two extremities and adds the initiation terms. Finally it scans the adjacent steps, resolving regular steps and mismatches. It accumulates enthalpy and entropy into the `Thermodynamic` record and counts each table entry it uses.
- **The temperature dispatch.** `tm_approx` chooses a formula by G+C content and hybridisation type. `tm_exact` chooses the salt correction by its code. `get_tm` is the public entry point.

Every Java exception the walk can raise, and every `die` and `System.exit`, is a value of `Faults.Fault`. Each function follows the Java code's order of evaluation, including `||`/`&&` short-circuits and the left-to-right evaluation of arguments. The fault it returns is therefore the one the program would meet first.

The model is organised in these modules:

- `JavaStrings`: `charAt`, `substring` and `compareTo`, with their exceptions, and the program's `strncmp`.
- `Sequences`: the three sequence utilities.
- `Tables`: the records, `get_index`, and the tests by which an entry "names" a window of the duplex.
- `Settings`: snapshots of the parameters and of the flags.
- `Walk`: the walk of `get_results` as functions. These are the specification.
- `WalkProperties`: what the walk guarantees.
- `Temperature`: `tm_approx`, `tm_exact` and the exact/approximate choice.
- `Fixture`: a worked duplex that walks successfully, so the hypotheses of the walk theorems can be met.
- `JMelt`: the stateful program, in three classes:
  - `Thermodynamic` is the result record. Its three count arrays have NB = 240 slots.
  - `MeltingParams` holds the present parameters.
  - `Melting` holds the program-wide flags.

  The methods of `JMelt` run the loops of `get_results` and `tm_exact` in place. Each one is proved to end in the state the corresponding `Walk` or `Temperature` function computes, or to fail with the same fault.

The walk's partner is a conservation law (`WalkProperties.AnalyseConserves`). For each quantity, every total equals the sum of three weighted counts plus an initiation term:

- the crick counts weighted by the regular table;
- the mismatch counts weighted by the mismatch table;
- the dangling-end counts weighted by the dangling-end table;
- the first "IA" entry, once for each terminal base that initiates.

The model keeps these quirks of the code as written:

- `get_index` ignores the name it is given (line 974). A G/C terminal base therefore adds the "IA" entry.
- The distal dangling-end window of the complement is located with the length of the *sequence* (lines 878-879).
- The scan stops before `len - 1 - prox - dist` (line 922). With a proximal dangling end, the last step is therefore skipped.
- Nothing in the analyser folds U into T. The analyser reads a 'U' as a mismatch.
- The first mismatch entry that names a window is counted even when its enthalpy is the 99999 marker. The program then stops.
- The emptiness test of line 917 checks the length of the whole sequence. By then `charAt(0)` has already thrown for an empty sequence, so the test can never fire. The model keeps it, in the place where the code has it.

## Model

| member | source | states |
|---|---|---|
| JavaStrings.CompareToZeroIffEqual | src/main/java/jmelt/Melting.java:1736-1738 | the `compareTo` underlying `strncmp` is zero exactly when the strings are equal |
| JavaStrings.CompareToAntisymmetric | src/main/java/jmelt/Melting.java:1736-1738 | swapping the operands of `compareTo` negates its result |
| JavaStrings.StrNCmpZeroIffSamePrefix | src/main/java/jmelt/Melting.java:1736-1738 | `strncmp(a, b, n) == 0` exactly when both strings exist, have at least n characters, and agree on the first n |
| JavaStrings.StrNCmpFaults | src/main/java/jmelt/Melting.java:1736-1738 | a null first operand is a null dereference and a first operand shorter than n an index exception, whatever the second operand; the comparison succeeds exactly when both operands exist and have at least n characters |
| Sequences.CheckSequence | src/main/java/jmelt/Melting.java:705-718 | the count is at most the length, and it is zero exactly when every character, upper-cased and with U read as T, is one of A, G, C, T, '-' |
| Sequences.CheckSequenceAppend | src/main/java/jmelt/Melting.java:705-718 | the mistakes of a concatenation are the sum of the mistakes of its parts |
| Sequences.CheckSequenceSingle | src/main/java/jmelt/Melting.java:708-715 | one character is one mistake exactly when it is illegal |
| Sequences.MakeComplement | src/main/java/jmelt/Melting.java:724-740 | succeeds exactly when every character is A, C, G, T or '-', and otherwise fails with the illegal-base exit; preserves the length; maps each position A→T, C→G, G→C, T→A, '-'→'-' |
| Sequences.MakeComplementInvolution | src/main/java/jmelt/Melting.java:724-740 | complementing twice gives back the sequence |
| Sequences.IsMismatch | src/main/java/jmelt/Melting.java:979-991 | raises an index exception exactly when position i is outside either strand; otherwise it is false exactly for the pairs A/T, T/A, G/C and C/G, so any other top symbol is a mismatch |
| Sequences.ComplementNeverMismatches | src/main/java/jmelt/Melting.java:979-991 | a base A, C, G or T never mismatches the computed complement at its position |
| Tables.IndexFrom | src/main/java/jmelt/Melting.java:972-977 | the search from slot i returns the first slot whose code starts with "IA"; every slot before it has a code of at least two characters; it dies with "Bad index name" exactly when every slot has such a code and none is "IA" |
| Tables.GetIndex | src/main/java/jmelt/Melting.java:972-977 | returns the first "IA" slot whatever name is asked for; dies with "Bad index name" exactly when every code is present and none is "IA"; any other failure comes from a null or short code |
| Tables.StepHit | src/main/java/jmelt/Melting.java:961 | the lookup succeeds with true exactly when the entry's code names the step at `at`, and raises exactly when the window or the code is shorter than two characters |
| Tables.PairHit | src/main/java/jmelt/Melting.java:940-941 | the two-part lookup succeeds with true exactly when the code's characters 1-2 name the sequence window and its characters 4-5 the complement window |
| Walk.DanglingScan | src/main/java/jmelt/Melting.java:853-861 | the dangling-end search keeps the three count arrays NB slots long (its content: WalkProperties.DanglingScanCounts) |
| Walk.DanglingEnd | src/main/java/jmelt/Melting.java:845-867 | one end keeps the count arrays NB slots long (its content: WalkProperties.DanglingEndOffset) |
| Walk.DanglingEnds | src/main/java/jmelt/Melting.java:845-893 | both ends, starting from zero, keep the count arrays NB slots long (the stages: WalkProperties.DanglingEndsStages) |
| Walk.GapAt | src/main/java/jmelt/Melting.java:845 | the gap test reads the sequence first: it fails with an index exception exactly when the sequence position is missing, or the sequence symbol is not '-' and the complement position is missing; it is true exactly when either symbol is '-' |
| Walk.Initiation | src/main/java/jmelt/Melting.java:896-916 | the initiation terms leave all three count arrays unchanged (the totals: WalkProperties.InitiationAddsIA) |
| Walk.MismatchScan | src/main/java/jmelt/Melting.java:939-950 | the mismatch search keeps the count arrays NB slots long (its content: WalkProperties.MismatchScanFirst) |
| Walk.RegularScan | src/main/java/jmelt/Melting.java:960-965 | the regular search keeps the count arrays NB slots long (its content: WalkProperties.RegularScanCounts) |
| Walk.WindowMismatch | src/main/java/jmelt/Melting.java:924-925 | the two-position mismatch test fails only with an index exception, and a reported mismatch implies that the first position exists on both strands (a mismatch there skips the second test) |
| Walk.Scan | src/main/java/jmelt/Melting.java:922-966 | a successful scan keeps the count arrays NB long and an empty range changes nothing (its content: WalkProperties.ScanCounts; that every interior mismatch was resolved: WalkProperties.ScanResolvesMismatches) |
| Walk.InitiationAndScan | src/main/java/jmelt/Melting.java:896-966 | a successful initiation and scan keeps the arrays NB long and needs the proximal offset to lie inside the sequence |
| Walk.Analyse | src/main/java/jmelt/Melting.java:845-966 | a successful walk needs a non-empty sequence and keeps the arrays NB long (its content: WalkProperties.AnalyseConserves and AnalyseStepCounts) |
| WalkProperties.ExcessOfZero | src/main/java/jmelt/Melting.java:820-824 | the zeroed record has nothing unaccounted for |
| WalkProperties.ExcessCountCrick | src/main/java/jmelt/Melting.java:962-964 | counting a regular entry and adding its parameters keeps the totals equal to the weighted counts plus the same excess |
| WalkProperties.ExcessCountMismatch | src/main/java/jmelt/Melting.java:942-945 | the same for a mismatch entry |
| WalkProperties.ExcessCountDangling | src/main/java/jmelt/Melting.java:856-858 | the same for a dangling-end entry |
| WalkProperties.DanglingScanCounts | src/main/java/jmelt/Melting.java:853-861 | every dangling-end entry that names the window is added and counted once, and nothing else changes; the found flag is set exactly when some entry names it |
| WalkProperties.RegularScanCounts | src/main/java/jmelt/Melting.java:960-965 | every regular entry naming the step is counted once and added, and nothing else changes; when no entry names the step the record is unchanged |
| WalkProperties.MismatchScanFirst | src/main/java/jmelt/Melting.java:939-950 | only the first entry naming the window is counted, even when it is the 99999 marker; it is added exactly when defined, and the mismatch stays unresolved exactly when it is the marker; with no entry nothing changes and the mismatch is unresolved |
| WalkProperties.DanglingEndOffset | src/main/java/jmelt/Melting.java:845-893 | a gap raises the offset by exactly one, and every entry naming the window is added and counted; with no gap nothing changes |
| WalkProperties.DanglingEndUnknown | src/main/java/jmelt/Melting.java:862-866 | a gap whose window no entry names stops the program; with a full window the stop is the "NN parameters not found" death |
| WalkProperties.ScanConserves | src/main/java/jmelt/Melting.java:922-966 | a successful scan never touches the dangling-end counts and counts in full everything it adds, so the excess is kept |
| WalkProperties.ScanKeepsExtremesPaired | src/main/java/jmelt/Melting.java:922-966 | a successful scan read every window and met no mismatch on the first or the last scanned step |
| WalkProperties.ScanRefusesFirstMismatch | src/main/java/jmelt/Melting.java:926-932 | a mismatch on the first scanned step stops the program with the extreme-mismatch exit |
| WalkProperties.InitiationAddsIA | src/main/java/jmelt/Melting.java:896-916 | each terminal base in {A, T, G, C} adds the first "IA" entry once, G/C bases included |
| WalkProperties.DanglingEndsStages | src/main/java/jmelt/Melting.java:845-893 | after both ends succeed, the sequence is not empty and the offsets are one exactly where the first (last) position of either strand is a gap |
| WalkProperties.AnalyseStages | src/main/java/jmelt/Melting.java:845-966 | a successful walk is its ends, then the initiation terms, then the scan from `prox` up to `len - 1 - prox - dist` |
| WalkProperties.AnalyseConserves | src/main/java/jmelt/Melting.java:810-970 | after a successful walk, each total equals the counts weighted by their tables plus one "IA" entry per initiating terminal base |
| WalkProperties.AnalyseExcess | src/main/java/jmelt/Melting.java:810-970 | the excess left by a whole walk is exactly the initiation terms |
| WalkProperties.InitiationExcess | src/main/java/jmelt/Melting.java:896-916 | the initiation stage adds one "IA" entry per initiating base to the excess and counts nothing |
| WalkProperties.AnalyseDanglingCounts | src/main/java/jmelt/Melting.java:845-893 | after a successful walk each dangling-end count is the number of ends with a gap whose window the entry names |
| WalkProperties.AnalyseExtremesPaired | src/main/java/jmelt/Melting.java:922-932 | after a successful walk neither the first nor the last scanned step is a mismatch |
| WalkProperties.NotFoundFault | src/main/java/jmelt/Melting.java:863-865 | the "parameters not found" exit (also at lines 887 and 952) ends with ParametersNotFound exactly when the four characters its message reads exist, and with an index exception otherwise |
| WalkProperties.WindowPairedIff | src/main/java/jmelt/Melting.java:924-925 | a step is paired exactly when both its positions exist on both strands and form Watson-Crick pairs |
| WalkProperties.FirstPairExists | src/main/java/jmelt/Melting.java:939-950 | when some mismatch entry names the window, a first one exists |
| WalkProperties.FirstPairUnique | src/main/java/jmelt/Melting.java:939-950 | the first naming mismatch entry is unique |
| WalkProperties.ResolvedMismatchCountsFirst | src/main/java/jmelt/Melting.java:939-955 | a mismatch search that resolves the step counts exactly its first naming slot and leaves the regular counts alone |
| WalkProperties.MismatchStepResolved | src/main/java/jmelt/Melting.java:939-957 | a mismatch search that resolves its step found a first naming entry whose enthalpy is not the undefined marker |
| WalkProperties.ScanCounts | src/main/java/jmelt/Melting.java:922-966 | a successful scan adds to each regular slot the number of paired steps in its range that the slot names, and to each mismatch slot the number of mismatched steps it is the first to name; steps outside the range are not counted |
| WalkProperties.ScanResolvesMismatches | src/main/java/jmelt/Melting.java:936-957 | a successful scan resolved every mismatched step it visited: the step has a first naming mismatch entry and that entry's enthalpy is defined (no entry, or the undefined marker, ends the program) |
| WalkProperties.ScanStartUncounted | src/main/java/jmelt/Melting.java:810-920 | the scan of a successful walk starts from zero regular and mismatch counts |
| WalkProperties.AnalyseStepCounts | src/main/java/jmelt/Melting.java:920-966 | after a successful walk each regular count is the number of paired steps from the proximal offset to len - 2 - prox - dist that the slot names, and each mismatch count the number of mismatched steps the slot is first to name |
| WalkProperties.AnalyseResolvesMismatches | src/main/java/jmelt/Melting.java:920-957 | after a successful walk every mismatched step between the offsets had a first naming mismatch entry with a defined enthalpy |
| WalkProperties.CrickStepsExtend | src/main/java/jmelt/Melting.java:921-922 | widening the scanned range by one step adds exactly that step's own count |
| WalkProperties.ProximalGapSkipsLastStep | src/main/java/jmelt/Melting.java:921-922 | with a gap at the proximal end only, the last step of the duplex is not scanned: a paired last step named by a regular slot is one short of the count over all steps |
| Fixture.RegularScanSucceeds | src/main/java/jmelt/Melting.java:960-965 | the regular search never fails when the step window holds two bases and every regular slot it compares has a code of at least two characters |
| Fixture.ExampleCodesPresent | src/main/java/jmelt/Melting.java:960-961 | every regular slot of the example has a code the regular search can compare |
| Fixture.ExampleStart | src/main/java/jmelt/Melting.java:845-916 | the example has no dangling end and its initiation adds one "IA" entry per terminal base |
| Fixture.ExampleRegularSucceeds | src/main/java/jmelt/Melting.java:960-965 | the regular search of the example's one step does not fail |
| Fixture.ExampleRegularStep | src/main/java/jmelt/Melting.java:960-965 | the regular search of the example's one step counts slot 1 and nothing else |
| Fixture.OnlySlotOneNamesAT | src/main/java/jmelt/Melting.java:961 | of the example's regular slots only slot 1 names the step "AT" |
| Fixture.ExampleWalk | src/main/java/jmelt/Melting.java:845-966 | the duplex "AT"/"TA" over a table with "IA" in slot 0 and "AT" in slot 1 walks successfully, counts regular slot 1 once and nothing else, and uses no mismatch and no dangling end |
| Temperature.CountGC | src/main/java/jmelt/Melting.java:1018-1022 | the number of G and C bases is at most the length |
| Temperature.CountGCAppend | src/main/java/jmelt/Melting.java:1018-1022 | the G+C count of a concatenation is the sum of the counts of its parts |
| Temperature.CountGCSingle | src/main/java/jmelt/Melting.java:1020-1021 | one character counts exactly when it is an upper-case G or C (lower-case bases are not counted) |
| Temperature.TmApprox | src/main/java/jmelt/Melting.java:997-1051 | an empty duplex is the null-size exit and no hybridisation type is the other exit; otherwise it gives the G+C formula of the first type set (DNA/DNA, then DNA/RNA, then RNA/RNA), with the salt, the length, and the G+C percentage 100 · (number of upper-case G and C) / length, which lies in [0, 100] |
| Temperature.ApproxRisesWithGC | src/main/java/jmelt/Melting.java:1029-1043 | the approximate temperature rises strictly with the G+C percentage |
| Temperature.ApproxRisesWithSize | src/main/java/jmelt/Melting.java:1029-1043 | the approximate temperature rises strictly with the length of the duplex |
| Temperature.TmApproxReadsSequenceAndSalt | src/main/java/jmelt/Melting.java:997-1051 | tm_approx depends only on the sequence and the sodium concentration of the parameters |
| Temperature.TmApproxCelsius | src/main/java/jmelt/Melting.java:1023-1043 | the temperature tm_approx returns evaluates to the approximate formula on the G+C percentage and the length of the duplex |
| Temperature.TmApproxRisesWithGC | src/main/java/jmelt/Melting.java:1018-1043 | of two duplexes of the same length under the same salt and flags, the one with more G and C bases has the strictly higher approximate temperature |
| Temperature.SaltCorrectionByName | src/main/java/jmelt/Melting.java:1066-1076 | the correction is chosen by the first six characters of its code (san98a, wet91a, san96a); nak99a is the not-implemented exit; an unknown code corrects nothing; a code shorter than six characters raises |
| Temperature.SelectSaltCorrection | src/main/java/jmelt/Melting.java:1066-1076 | a code shorter than six characters raises before any correction is chosen (the full dispatch: SaltCorrectionByName) |
| Temperature.TmExact | src/main/java/jmelt/Melting.java:1057-1083 | tm_exact fails exactly when the salt-correction choice does; otherwise the temperature is the nearest-neighbour formula on the given enthalpy, the returned corrected entropy, the probe concentration and the correction factor |
| Temperature.ExactResultsFollowTheWalk | src/main/java/jmelt/Melting.java:1057-1083 | tm_exact keeps the counts and the enthalpy; only san98a changes the entropy, by 0.368 (len - 1) ln(salt); the temperature is the nearest-neighbour formula on the corrected totals with the chosen offset |
| Temperature.ApproximateResultsAreTmOnly | src/main/java/jmelt/Melting.java:831-837 | on the approximate path every total and count stays zero and the result carries only the approximate temperature |
| Temperature.Results | src/main/java/jmelt/Melting.java:810-970 | a successful get_results keeps the arrays NB long; on the approximate path the record is zero with a G+C temperature, otherwise the temperature is nearest-neighbour |
| JMelt.Thermodynamic.constructor | src/main/java/jmelt/Melting.java:799-806 | a fresh record has zero totals, zero counts in three distinct arrays of NB slots, and no temperature |
| JMelt.Thermodynamic.Add | src/main/java/jmelt/Melting.java:856-857 | adds the enthalpy and the entropy of one entry to the totals and changes nothing else |
| JMelt.Thermodynamic.CountCrick | src/main/java/jmelt/Melting.java:962 | one more use of regular slot j; nothing else changes |
| JMelt.Thermodynamic.CountMismatch | src/main/java/jmelt/Melting.java:942 | one more use of mismatch slot j; nothing else changes |
| JMelt.Thermodynamic.CountDangling | src/main/java/jmelt/Melting.java:858 | one more use of dangling-end slot j; nothing else changes |
| JMelt.ClearCounts | src/main/java/jmelt/Melting.java:822-824 | every count of the array becomes zero |
| JMelt.MeltingParams.constructor | src/main/java/jmelt/Melting.java:779-793 | the defaults: 50 mM salt, 50 nM probe, correction factor 4, salt correction san98a, empty strands |
| JMelt.Melting.constructor | src/main/java/jmelt/Melting.java:127-144 | the start-up flags: not approximate, threshold MAX_SIZE_NN = 50, DNA/DNA hybridisation |
| JMelt.Melting.SeekDanglingEnds | src/main/java/jmelt/Melting.java:853-861 | the loop ends in the state DanglingScan computes, or fails with the same fault |
| JMelt.Melting.ApplyDanglingEnd | src/main/java/jmelt/Melting.java:845-867 | one end, as DanglingEnd computes it, with its offset |
| JMelt.Melting.ApplyDanglingEnds | src/main/java/jmelt/Melting.java:845-893 | both ends, as DanglingEnds computes them, with the two offsets |
| JMelt.Melting.AddInitiationTerms | src/main/java/jmelt/Melting.java:896-916 | the record ends as Initiation computes it |
| JMelt.Melting.SeekMismatchTerm | src/main/java/jmelt/Melting.java:939-950 | the loop, with its break at the first match, ends as MismatchScan computes it |
| JMelt.Melting.SeekRegularTerms | src/main/java/jmelt/Melting.java:960-965 | the loop ends as RegularScan computes it |
| JMelt.Melting.ScanStep | src/main/java/jmelt/Melting.java:924-965 | one step of the scan: the extreme-mismatch exit, the mismatch search with its "not found" death, or the regular search; the record moves on exactly as Scan does for that step |
| JMelt.Melting.InitiateAndScan | src/main/java/jmelt/Melting.java:896-966 | the initiation terms, the emptiness test and the scan, as InitiationAndScan computes them |
| JMelt.Melting.ScanDuplex | src/main/java/jmelt/Melting.java:922-966 | the scan loop ends as Scan computes it, or fails with the same fault |
| JMelt.Melting.NearestNeighbourWalk | src/main/java/jmelt/Melting.java:845-966 | the record ends with the totals and counts Analyse computes, or fails with the same fault |
| JMelt.Melting.TmExact | src/main/java/jmelt/Melting.java:1057-1083 | changes only the entropy, as the Temperature.TmExact function states, and returns the same temperature or fault |
| JMelt.Melting.GetResults | src/main/java/jmelt/Melting.java:810-970 | the approximate flag becomes set when the sequence is longer than the threshold and then stays set; the fresh record holds what Results computes, or the call fails with the same fault |
| JMelt.Melting.GetTm | src/main/java/jmelt/Melting.java:1784-1789 | the present parameters take the primer and its complement (only the primer when the complement fails); the result is the temperature of TmOfPrimer; when the complement succeeds the approximate flag becomes set if the primer is longer than the threshold and stays set, and when it fails the flags are unchanged |
| JMelt.TmOfPrimer | src/main/java/jmelt/Melting.java:1784-1789 | a primer with an illegal base stops at the complement; a successful primer is non-empty, and its temperature is the G+C one exactly when the approximate flag is set or the primer is longer than the threshold |
| JMelt.TmOfPrimerApproximate | src/main/java/jmelt/Melting.java:1784-1789 | on the approximate path the temperature of get_tm is tm_approx of the primer alone |

## Left out

- `main`, `do_results`, `usage`, `legal`, `decode_input` and the interactive prompts are left out. They are input, output and option parsing.
- `read_nn`, `read_mismatches` and `read_dangends` are left out. Loading parameter files is input, so the tables are parameters (the `MeltingParams` constructor takes them).
- The reader, stream and tokenising helpers are left out; they are library I/O.
- The warning `printf`s (lines 848, 872, 934 and 988, the last for an unknown top base in `is_mismatch`) and the `i_alt_de`/`i_alt_mm` flags that only feed them are left out. They print and change nothing.
- `s_outfile` is left out; it is only read by the output code.
- The numbers of a temperature are not computed. Doubles become exact reals, and `Math.log` is a parameter `ln`. A temperature is the formula chosen with its operands (`Temperature.Tm`). `Temperature.Celsius` evaluates it where nothing divides by zero. NaN and infinity are not modelled.
- `Thermodynamic.d_tm` is the symbolic `Tm` rather than a double; 0.0 before any computation is `Unset`.
- Counts are unbounded integers. A Java `int` would wrap only after 2^31 increments, which a duplex of this size cannot reach.
- `Sequences.ToUpper` covers the ASCII letters only and maps each character to one character. `String.toUpperCase` also maps other Unicode letters, none of them to a legal base, and it can lengthen the string ("ß" becomes "SS").
- `Sequences.CheckSequence` counts one mistake per character of its input. Java counts the characters of the upper-cased string in UTF-16 code units, so it counts more for a character that upper-cases to several ("ß": 2 against 1) or lies outside the Basic Multilingual Plane (2 against 1). The bound "at most the length" is a property of the model, not of the program. Whether the count is zero is the same in both.
- `JavaStrings.CompareTo` compares Dafny characters, whereas Java compares UTF-16 code units. Outside the Basic Multilingual Plane the sign of the result can differ; whether it is zero cannot.
- String lengths and the positions given to `charAt` and `substring` are counted in Dafny characters, not UTF-16 code units. The two counts agree on text within the Basic Multilingual Plane, which includes every legal base and gap symbol.
- The static `pst_param` may be null before it is first set, and `get_tm` then raises a null pointer exception. The model always holds parameters. Its strings are never null; only table codes can be missing.
- The count arrays of `Thermodynamic` are `const` fields, because nothing in the program replaces them.
- The datasets are values, because the core only reads them.
