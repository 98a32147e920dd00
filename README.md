# LUT INIT fuzzers of prjfoxtrot, in Dafny

This project models two driver scripts of the prjfoxtrot bitstream fuzzers.
Both scripts build Verilog INIT literals for a chain of N K-input LUTs, hand
the parameter sets to the experiment runner, and analyse the configuration-bit
offsets the runner reports back.

- **random-all** (`generic-lc-lut-4-rand_all.py`, module `RandAll`) builds an
  experiment plan of `num_values` groups. Each group holds one long chain. Its
  first LUTs take user-given static INIT patterns (`_plain_bits`), and the rest
  take random patterns of 2^K binary digits. The chain is written as one flat
  literal in which LUT 0 is the least significant slice
  (`_build_flat_init_literal`). `analyze_results` then picks the first
  successful result row whose Verilog parameters match, and reports its
  statistics as extra DB columns.
- **cell-mask** (`generic-lc-lut-1-cell_mask.py`, module `CellMask`) builds one
  group of two runs. Every LUT of the first run carries a base pattern, and
  every LUT of the second carries the inverted pattern
  (`_generate_init_values`). `_analyze_results` takes the sorted symmetric
  difference of the two offset lists. It counts the LUTs those bits cover,
  writes the list to the `.off` file, and adds the DB columns.

The shared modules:

- `Text`: the Python string built-ins the scripts use, each with lemmas that
  pin down its result; `str(int)` and `sep.join(map(str, xs))` also have
  readers that invert them (`ParseInt`, `ParseInts`):
  - `replace("_", "")`
  - `split("b")[-1]`
  - `partition("b")`
  - `"".join`, `sep.join(map(str, xs))`
  - `s * n`
  - `str(int)`
- `InitLiteral`: sized binary literals `<width>'b<digits>` (section 3.5.1 of
  IEEE 1364-2005) and the LUT slices of a chain body.
- `SortedSets`: `sorted(set(a).symmetric_difference(b))`.
- `Experiment`: the records exchanged with the runner (param sets, result rows,
  the plan), and `next(...)`.
- `Wrappers`: `Option` and `Result`.

Every exception the builders and the two `main`s raise becomes an `Err`
value. The analysis callbacks return an `Analysis` value instead, with one
constructor for each way they end: random-all's IndexError and
ZeroDivisionError, and cell-mask's aborts and its failed shift. The error is
chosen in the order the script would hit it:
- the width checks of `_plain_bits`, called from the list comprehension in
  `_build_flat_init_literal`, come before the "more static patterns than LUTs"
  check;
- `1 << k` with a negative K is evaluated in `main` before any literal is built.

The state-changing parts of random-all become methods with loops. These are
the `while` loop that fills the chain (`FillChain`) and the `for` loop of
`main` that appends one group per iteration (`RandAll.BuildPlan`).
`FillChain` is proved against the specification function `Fills`; its caller
`BuildFlatInitLiteral` is proved equal to the specification function
`FlatInitLiteral`, and `BuildPlan` states each group's literal in terms of
`FlatInitLiteral`. Everything else
in both scripts is expressions over values and is modelled as functions and
lemmas.

`random.choice("01")` is modelled as a random stream: a function from draw
numbers to booleans, read from a given draw on. A fill of 2^K digits takes 2^K
consecutive draws. Fill j of a build starting at draw `start` begins at draw
`start + j * 2^K`. Each iteration of `main` continues the stream where the
previous build stopped. This choice captures the order in which the script
consumes its random generator, rather than taking the fill strings as opaque
parameters.

## Model

| member | source | states |
|---|---|---|
| RandAll.CleanBits | default-workspace/fuzzers/1-generic/1-lc/1-lut/generic-lc-lut-4-rand_all/script/generic-lc-lut-4-rand_all.py:32 | the bits kept of a pattern contain no 'b' and no underscore |
| RandAll.PlainBits | default-workspace/fuzzers/1-generic/1-lc/1-lut/generic-lc-lut-4-rand_all/script/generic-lc-lut-4-rand_all.py:30-37 | succeeds exactly when the text after the last 'b', without underscores, has 2^k characters; then returns that text; otherwise the ValueError carries the pattern, the count found and 2^k |
| RandAll.PlainBitsIdempotent | default-workspace/fuzzers/1-generic/1-lc/1-lut/generic-lc-lut-4-rand_all/script/generic-lc-lut-4-rand_all.py:30-37 | what `_plain_bits` returns it accepts again and returns unchanged |
| RandAll.PlainBitsOfLiteral | default-workspace/fuzzers/1-generic/1-lc/1-lut/generic-lc-lut-4-rand_all/script/generic-lc-lut-4-rand_all.py:30-37 | the literal `<2^k>'b<bits>` of 2^k binary digits cleans to exactly those digits |
| RandAll.AfterLastAt | default-workspace/fuzzers/1-generic/1-lc/1-lut/generic-lc-lut-4-rand_all/script/generic-lc-lut-4-rand_all.py:32 | `split("b")[-1]` of text ending in 'b' and a b-free tail is that tail |
| RandAll.StaticBits | default-workspace/fuzzers/1-generic/1-lc/1-lut/generic-lc-lut-4-rand_all/script/generic-lc-lut-4-rand_all.py:43 | the comprehension yields one 2^k-bit entry per pattern, or a width error |
| RandAll.StaticBitsOk | default-workspace/fuzzers/1-generic/1-lc/1-lut/generic-lc-lut-4-rand_all/script/generic-lc-lut-4-rand_all.py:43 | the comprehension succeeds if and only if every pattern passes `_plain_bits` |
| RandAll.StaticBitsAt | default-workspace/fuzzers/1-generic/1-lc/1-lut/generic-lc-lut-4-rand_all/script/generic-lc-lut-4-rand_all.py:43 | entry i of the comprehension is `_plain_bits` of pattern i |
| RandAll.StaticBitsFirstError | default-workspace/fuzzers/1-generic/1-lc/1-lut/generic-lc-lut-4-rand_all/script/generic-lc-lut-4-rand_all.py:43 | the error raised is that of the first pattern that fails, whatever follows it |
| RandAll.RandomPattern | default-workspace/fuzzers/1-generic/1-lc/1-lut/generic-lc-lut-4-rand_all/script/generic-lc-lut-4-rand_all.py:50 | a random pattern has exactly lut_bits characters, all binary digits |
| RandAll.RandomPatternAt | default-workspace/fuzzers/1-generic/1-lc/1-lut/generic-lc-lut-4-rand_all/script/generic-lc-lut-4-rand_all.py:50 | digit t of the pattern is the choice of draw start + t |
| RandAll.OffsetIsProduct | default-workspace/fuzzers/1-generic/1-lc/1-lut/generic-lc-lut-4-rand_all/script/generic-lc-lut-4-rand_all.py:49-51 | fill j begins at draw start + j * lut_bits |
| RandAll.Fills | default-workspace/fuzzers/1-generic/1-lc/1-lut/generic-lc-lut-4-rand_all/script/generic-lc-lut-4-rand_all.py:49-51 | m fills of lut_bits binary digits each |
| RandAll.FillsAt | default-workspace/fuzzers/1-generic/1-lc/1-lut/generic-lc-lut-4-rand_all/script/generic-lc-lut-4-rand_all.py:49-51 | fill j is the random pattern drawn from its own offset on, so fills are drawn in order |
| RandAll.ChainSlots | default-workspace/fuzzers/1-generic/1-lc/1-lut/generic-lc-lut-4-rand_all/script/generic-lc-lut-4-rand_all.py:43-51 | the chain is built exactly when all patterns pass and there are at most n; a width error wins over the count error; a built chain has n slots of 2^k bits |
| RandAll.ChainSlotsRandom | default-workspace/fuzzers/1-generic/1-lc/1-lut/generic-lc-lut-4-rand_all/script/generic-lc-lut-4-rand_all.py:49-51 | slot `len(static) + j` of the chain is random fill j |
| RandAll.FlatInitLiteral | default-workspace/fuzzers/1-generic/1-lc/1-lut/generic-lc-lut-4-rand_all/script/generic-lc-lut-4-rand_all.py:40-55 | the build succeeds exactly when every static pattern passes and there are at most n of them; a failing pattern's error is reported before "more static patterns than LUTs" |
| RandAll.Choice | default-workspace/fuzzers/1-generic/1-lc/1-lut/generic-lc-lut-4-rand_all/script/generic-lc-lut-4-rand_all.py:50 | `random.choice("01")` yields a binary digit, '1' exactly for a set draw |
| RandAll.FlatInitErrors | default-workspace/fuzzers/1-generic/1-lc/1-lut/generic-lc-lut-4-rand_all/script/generic-lc-lut-4-rand_all.py:43-46 | the build fails if and only if some pattern has the wrong width or there are more patterns than LUTs; a bad pattern is the error reported when there is one; otherwise too many patterns raise "more static patterns" |
| RandAll.FlatInitWidth | default-workspace/fuzzers/1-generic/1-lc/1-lut/generic-lc-lut-4-rand_all/script/generic-lc-lut-4-rand_all.py:53-55 | a built literal parses, and declares and carries n * 2^k bits |
| RandAll.FlatInitStaticLut | default-workspace/fuzzers/1-generic/1-lc/1-lut/generic-lc-lut-4-rand_all/script/generic-lc-lut-4-rand_all.py:53-54 | LUT i, counted from the least significant end, holds the bits of static pattern i |
| RandAll.FlatInitRandomLut | default-workspace/fuzzers/1-generic/1-lc/1-lut/generic-lc-lut-4-rand_all/script/generic-lc-lut-4-rand_all.py:49-54 | every LUT after the static ones holds 2^k random binary digits, drawn from draw start + (i - len(static)) * 2^k on |
| RandAll.FlatInitRandomIrrelevant | default-workspace/fuzzers/1-generic/1-lc/1-lut/generic-lc-lut-4-rand_all/script/generic-lc-lut-4-rand_all.py:43-51 | the random stream decides neither whether the build fails nor the literal when the static patterns fill the chain |
| RandAll.BuildFlatInitLiteral | default-workspace/fuzzers/1-generic/1-lc/1-lut/generic-lc-lut-4-rand_all/script/generic-lc-lut-4-rand_all.py:40-55 | the method returns the literal or error of the specification `FlatInitLiteral`, and takes exactly n - len(static) fills of 2^k draws (none when it fails) |
| RandAll.FillChain | default-workspace/fuzzers/1-generic/1-lc/1-lut/generic-lc-lut-4-rand_all/script/generic-lc-lut-4-rand_all.py:49-51 | the loop appends exactly the fills up to n LUTs, in draw order, and counts the draws it took |
| RandAll.Max | default-workspace/fuzzers/1-generic/1-lc/1-lut/generic-lc-lut-4-rand_all/script/generic-lc-lut-4-rand_all.py:146 | `max(a, b)` is at least both arguments and is one of them |
| RandAll.BuildPlan | default-workspace/fuzzers/1-generic/1-lc/1-lut/generic-lc-lut-4-rand_all/script/generic-lc-lut-4-rand_all.py:126-146 | a negative K fails first; otherwise the plan fails exactly when the first build fails, with its error; a plan has max(0, num_values) groups and max(1, num_values) processes; group idx is one param set with index idx, chunk_bits = 2^K * CHUNK_LUTS, and the literal built from where the stream stood after idx builds |
| RandAll.Matches | default-workspace/fuzzers/1-generic/1-lc/1-lut/generic-lc-lut-4-rand_all/script/generic-lc-lut-4-rand_all.py:73-74 | a row that matches is successful and carries the group's INIT literal |
| RandAll.AnalyzeResults | default-workspace/fuzzers/1-generic/1-lc/1-lut/generic-lc-lut-4-rand_all/script/generic-lc-lut-4-rand_all.py:62-93 | IndexError exactly for no param sets; skipped exactly when no successful row has the group's Verilog parameters; otherwise the first such row is used, N == 0 divides by zero, and the row's offset count and the static count are saved |
| RandAll.ExtraCols | default-workspace/fuzzers/1-generic/1-lc/1-lut/generic-lc-lut-4-rand_all/script/generic-lc-lut-4-rand_all.py:95-101 | the integer columns `total_luts`, `total_bits` and `static_luts` are present and read back as the analysed numbers |
| CellMask.CleanBits | default-workspace/fuzzers/1-generic/1-lc/1-lut/generic-lc-lut-1-cell_mask/script/generic-lc-lut-1-cell_mask.py:49-50 | the kept bits hold no underscore; a pattern without 'b' keeps nothing; otherwise fewer characters than the pattern |
| CellMask.GenerateInitValues | default-workspace/fuzzers/1-generic/1-lc/1-lut/generic-lc-lut-1-cell_mask/script/generic-lc-lut-1-cell_mask.py:32-57 | succeeds exactly when the cleaned pattern has 2^k bits, else the ValueError with the count found and 2^k; a pattern with no 'b' always fails |
| CellMask.GenerateWidth | default-workspace/fuzzers/1-generic/1-lc/1-lut/generic-lc-lut-1-cell_mask/script/generic-lc-lut-1-cell_mask.py:56-57 | the literal parses and declares as many bits as it carries: n * 2^k, none for n <= 0 |
| CellMask.GenerateLut | default-workspace/fuzzers/1-generic/1-lc/1-lut/generic-lc-lut-1-cell_mask/script/generic-lc-lut-1-cell_mask.py:56-57 | every LUT position of the chain holds the cleaned pattern |
| CellMask.GenerateNoLuts | default-workspace/fuzzers/1-generic/1-lc/1-lut/generic-lc-lut-1-cell_mask/script/generic-lc-lut-1-cell_mask.py:56-57 | with n <= 0 a valid pattern gives the empty literal `0'b`, not an error |
| CellMask.CleanBitsOfLiteral | default-workspace/fuzzers/1-generic/1-lc/1-lut/generic-lc-lut-1-cell_mask/script/generic-lc-lut-1-cell_mask.py:49-50 | a literal of binary digits cleans to exactly those digits |
| CellMask.GenerateIdempotent | default-workspace/fuzzers/1-generic/1-lc/1-lut/generic-lc-lut-1-cell_mask/script/generic-lc-lut-1-cell_mask.py:49-57 | a one-LUT literal the function wrote is accepted again and written again unchanged |
| CellMask.DefaultBaseBits | default-workspace/fuzzers/1-generic/1-lc/1-lut/generic-lc-lut-1-cell_mask/script/generic-lc-lut-1-cell_mask.py:121 | the default base pattern cleans to 0001011001101000 |
| CellMask.DefaultInvertedBits | default-workspace/fuzzers/1-generic/1-lc/1-lut/generic-lc-lut-1-cell_mask/script/generic-lc-lut-1-cell_mask.py:122 | the default inverted pattern cleans to 1110100110010111 |
| CellMask.DefaultPatternsComplementary | default-workspace/fuzzers/1-generic/1-lc/1-lut/generic-lc-lut-1-cell_mask/script/generic-lc-lut-1-cell_mask.py:121-122 | the default patterns are 4-input LUT patterns and bitwise complements of each other |
| CellMask.BuildPlan | default-workspace/fuzzers/1-generic/1-lc/1-lut/generic-lc-lut-1-cell_mask/script/generic-lc-lut-1-cell_mask.py:124-151 | a negative K fails first, then a bad base pattern, then a bad inverted pattern; otherwise one group of two param sets with indices 0 and 1, chunk_bits = 2^K * CHUNK_LUTS, chunk key INIT, N, K, CHUNK_LUTS and the two generated literals, run on two processes |
| CellMask.DefaultPlanBuilds | default-workspace/fuzzers/1-generic/1-lc/1-lut/generic-lc-lut-1-cell_mask/script/generic-lc-lut-1-cell_mask.py:120-144 | with the default patterns and K = 4 the plan is built for every N, N <= 0 included |
| CellMask.DefaultChunkBits | default-workspace/fuzzers/1-generic/1-lc/1-lut/generic-lc-lut-1-cell_mask/script/generic-lc-lut-1-cell_mask.py:116-124 | with every default (K = 4, CHUNK_LUTS = 256) the plan is built and each param set has chunk_bits 4096 |
| CellMask.PlanComplementary | default-workspace/fuzzers/1-generic/1-lc/1-lut/generic-lc-lut-1-cell_mask/script/generic-lc-lut-1-cell_mask.py:126-144 | with complementary patterns, every LUT of the two runs carries complementary INIT bits |
| CellMask.DefaultPlanComplementary | default-workspace/fuzzers/1-generic/1-lc/1-lut/generic-lc-lut-1-cell_mask/script/generic-lc-lut-1-cell_mask.py:120-144 | with the default patterns and K = 4, every LUT i < N of the two runs carries complementary INIT bits |
| CellMask.CeilDiv | default-workspace/fuzzers/1-generic/1-lc/1-lut/generic-lc-lut-1-cell_mask/script/generic-lc-lut-1-cell_mask.py:86 | the least q with a <= q * d; zero exactly for a == 0 |
| CellMask.AnalyzeResults | default-workspace/fuzzers/1-generic/1-lc/1-lut/generic-lc-lut-1-cell_mask/script/generic-lc-lut-1-cell_mask.py:70-86 | aborts exactly when there are not two param sets (reporting the count), aborts exactly when no row has index 0 or none has index 1, fails exactly for a negative K, and saves otherwise |
| CellMask.AnalyzeSaved | default-workspace/fuzzers/1-generic/1-lc/1-lut/generic-lc-lut-1-cell_mask/script/generic-lc-lut-1-cell_mask.py:74-86 | a saved diff is ascending, without repetitions, and holds exactly the offsets in one of the first base and first inverted rows but not the other; `activated` is the least number of 2^K-bit LUTs covering it, zero exactly for an empty diff |
| CellMask.FirstIsUnique | default-workspace/fuzzers/1-generic/1-lc/1-lut/generic-lc-lut-1-cell_mask/script/generic-lc-lut-1-cell_mask.py:74-75 | `next` returns the first element that satisfies the condition |
| CellMask.AnalyzeSwap | default-workspace/fuzzers/1-generic/1-lc/1-lut/generic-lc-lut-1-cell_mask/script/generic-lc-lut-1-cell_mask.py:80-82 | exchanging which run is base and which inverted changes neither the diff nor the LUT count |
| CellMask.PatternType | default-workspace/fuzzers/1-generic/1-lc/1-lut/generic-lc-lut-1-cell_mask/script/generic-lc-lut-1-cell_mask.py:95-97 | "base" exactly for a row with param_index 0, "inverted" for anything else including no row |
| CellMask.Extra | default-workspace/fuzzers/1-generic/1-lc/1-lut/generic-lc-lut-1-cell_mask/script/generic-lc-lut-1-cell_mask.py:94-101 | the columns `pattern_type`, `lut_config_bits` and `activated_luts` are present; the comma list reads back as the diff, and the count reads back as `activated` |
| CellMask.OffsetFileText | default-workspace/fuzzers/1-generic/1-lc/1-lut/generic-lc-lut-1-cell_mask/script/generic-lc-lut-1-cell_mask.py:91 | the `.off` file text, one offset per line, reads back as the diff |
| Text.Remove | default-workspace/fuzzers/1-generic/1-lc/1-lut/generic-lc-lut-4-rand_all/script/generic-lc-lut-4-rand_all.py:32 | `replace(c, "")` leaves no c and never lengthens the text |
| Text.RemoveAbsent | default-workspace/fuzzers/1-generic/1-lc/1-lut/generic-lc-lut-1-cell_mask/script/generic-lc-lut-1-cell_mask.py:50 | text without c is left unchanged |
| Text.RemoveMembers | default-workspace/fuzzers/1-generic/1-lc/1-lut/generic-lc-lut-4-rand_all/script/generic-lc-lut-4-rand_all.py:32 | a character occurs in the result if and only if it occurs in the text and is not c |
| Text.RemoveConcat | default-workspace/fuzzers/1-generic/1-lc/1-lut/generic-lc-lut-1-cell_mask/script/generic-lc-lut-1-cell_mask.py:50 | removing from a concatenation removes from each part |
| Text.RemoveCounts | default-workspace/fuzzers/1-generic/1-lc/1-lut/generic-lc-lut-1-cell_mask/script/generic-lc-lut-1-cell_mask.py:50 | every other character keeps its number of occurrences, and c has none |
| Text.AfterLast | default-workspace/fuzzers/1-generic/1-lc/1-lut/generic-lc-lut-4-rand_all/script/generic-lc-lut-4-rand_all.py:32 | `split(c)[-1]` holds no c and is no longer than the text |
| Text.AfterLastSuffix | default-workspace/fuzzers/1-generic/1-lc/1-lut/generic-lc-lut-4-rand_all/script/generic-lc-lut-4-rand_all.py:32 | `split(c)[-1]` is a suffix of the text, preceded by a c unless it is the whole text |
| Text.AfterLastAbsent | default-workspace/fuzzers/1-generic/1-lc/1-lut/generic-lc-lut-4-rand_all/script/generic-lc-lut-4-rand_all.py:32 | without c, `split(c)[-1]` is the whole text |
| Text.BeforeFirst | default-workspace/fuzzers/1-generic/1-lc/1-lut/generic-lc-lut-1-cell_mask/script/generic-lc-lut-1-cell_mask.py:49 | `partition(c)[0]` holds no c and is no longer than the text |
| Text.BeforeFirstPrefix | default-workspace/fuzzers/1-generic/1-lc/1-lut/generic-lc-lut-1-cell_mask/script/generic-lc-lut-1-cell_mask.py:49 | `partition(c)[0]` is a prefix of the text, followed by a c unless it is the whole text |
| Text.AfterFirst | default-workspace/fuzzers/1-generic/1-lc/1-lut/generic-lc-lut-1-cell_mask/script/generic-lc-lut-1-cell_mask.py:49 | `partition(c)[2]` is "" when c does not occur and shorter than the text when it does |
| Text.PartitionSplits | default-workspace/fuzzers/1-generic/1-lc/1-lut/generic-lc-lut-1-cell_mask/script/generic-lc-lut-1-cell_mask.py:49 | when c occurs, the three parts of `partition(c)` concatenate to the text |
| Text.PartitionAt | default-workspace/fuzzers/1-generic/1-lc/1-lut/generic-lc-lut-1-cell_mask/script/generic-lc-lut-1-cell_mask.py:49 | partitioning `a + c + b` with c not in a gives a and b |
| Text.Concat | default-workspace/fuzzers/1-generic/1-lc/1-lut/generic-lc-lut-4-rand_all/script/generic-lc-lut-4-rand_all.py:54 | `"".join(parts)` of one piece is that piece, and every piece fits in the result |
| Text.Reverse | default-workspace/fuzzers/1-generic/1-lc/1-lut/generic-lc-lut-4-rand_all/script/generic-lc-lut-4-rand_all.py:54 | `reversed(xs)` has the same length, with element i taken from position len - 1 - i |
| Text.Join | default-workspace/fuzzers/1-generic/1-lc/1-lut/generic-lc-lut-1-cell_mask/script/generic-lc-lut-1-cell_mask.py:99 | `sep.join(parts)` of one piece is that piece, every piece fits in it, and two or more pieces put a separator in it |
| Text.JoinInts | default-workspace/fuzzers/1-generic/1-lc/1-lut/generic-lc-lut-1-cell_mask/script/generic-lc-lut-1-cell_mask.py:99 | `sep.join(map(str, xs))` is empty exactly for an empty list |
| Text.SplitJoin | default-workspace/fuzzers/1-generic/1-lc/1-lut/generic-lc-lut-1-cell_mask/script/generic-lc-lut-1-cell_mask.py:99 | splitting a join at its separator gives the pieces back when none holds the separator |
| Text.Repeat | default-workspace/fuzzers/1-generic/1-lc/1-lut/generic-lc-lut-1-cell_mask/script/generic-lc-lut-1-cell_mask.py:56 | `s * n` has n * len(s) characters, none for n <= 0 |
| Text.NatToDecimal | default-workspace/fuzzers/1-generic/1-lc/1-lut/generic-lc-lut-1-cell_mask/script/generic-lc-lut-1-cell_mask.py:57 | `str(n)` of a count is a non-empty run of digits without a leading zero |
| Text.ParseNatToDecimal | default-workspace/fuzzers/1-generic/1-lc/1-lut/generic-lc-lut-1-cell_mask/script/generic-lc-lut-1-cell_mask.py:57 | `int(str(n)) == n` for every count |
| Text.IntToDecimal | default-workspace/fuzzers/1-generic/1-lc/1-lut/generic-lc-lut-4-rand_all/script/generic-lc-lut-4-rand_all.py:97 | `str(i)` is digits, preceded by a minus sign exactly for negative i |
| Text.ParseIntToDecimal | default-workspace/fuzzers/1-generic/1-lc/1-lut/generic-lc-lut-4-rand_all/script/generic-lc-lut-4-rand_all.py:97-100 | `int(str(i)) == i` for every integer |
| Text.Decimals | default-workspace/fuzzers/1-generic/1-lc/1-lut/generic-lc-lut-1-cell_mask/script/generic-lc-lut-1-cell_mask.py:99 | `map(str, xs)` has one decimal per integer, in order |
| Text.DecimalHasNoSeparator | default-workspace/fuzzers/1-generic/1-lc/1-lut/generic-lc-lut-1-cell_mask/script/generic-lc-lut-1-cell_mask.py:99 | `str(i)` never contains a comma, a newline or any other non-digit separator |
| Text.JoinIntsRoundTrip | default-workspace/fuzzers/1-generic/1-lc/1-lut/generic-lc-lut-1-cell_mask/script/generic-lc-lut-1-cell_mask.py:99 | `sep.join(map(str, xs))` reads back as xs, the empty list included |
| InitLiteral.Pow2 | default-workspace/fuzzers/1-generic/1-lc/1-lut/generic-lc-lut-4-rand_all/script/generic-lc-lut-4-rand_all.py:42 | `1 << k` for k >= 0 is at least 1 |
| InitLiteral.Literal | default-workspace/fuzzers/1-generic/1-lc/1-lut/generic-lc-lut-4-rand_all/script/generic-lc-lut-4-rand_all.py:55 | `f"{len(bits)}'b{bits}"` is the decimal width followed by `'b` and the bits: its length is theirs together, with the quote and the b right after the width |
| InitLiteral.DecodeLiteral | default-workspace/fuzzers/1-generic/1-lc/1-lut/generic-lc-lut-4-rand_all/script/generic-lc-lut-4-rand_all.py:55 | the literal `f"{len(bits)}'b{bits}"` parses back to its width and its bits |
| InitLiteral.Lut | default-workspace/fuzzers/1-generic/1-lc/1-lut/generic-lc-lut-4-rand_all/script/generic-lc-lut-4-rand_all.py:53-54 | a LUT slice is either missing or exactly lut_bits wide |
| InitLiteral.LutIsSlice | default-workspace/fuzzers/1-generic/1-lc/1-lut/generic-lc-lut-4-rand_all/script/generic-lc-lut-4-rand_all.py:53-54 | in a body of m slices, LUT i spans characters (m-1-i)*w up to (m-i)*w |
| InitLiteral.ConcatLength | default-workspace/fuzzers/1-generic/1-lc/1-lut/generic-lc-lut-4-rand_all/script/generic-lc-lut-4-rand_all.py:54 | joining m slices of width w gives m * w characters |
| InitLiteral.LutOfReversed | default-workspace/fuzzers/1-generic/1-lc/1-lut/generic-lc-lut-4-rand_all/script/generic-lc-lut-4-rand_all.py:53-54 | `"".join(reversed(slots))` puts slot i in LUT position i, slot 0 as the least significant slice |
| InitLiteral.LutOfRepeat | default-workspace/fuzzers/1-generic/1-lc/1-lut/generic-lc-lut-1-cell_mask/script/generic-lc-lut-1-cell_mask.py:56 | every LUT of `bits * n` holds bits |
| SortedSets.Insert | default-workspace/fuzzers/1-generic/1-lc/1-lut/generic-lc-lut-1-cell_mask/script/generic-lc-lut-1-cell_mask.py:80-82 | adding to a sorted set keeps it strictly increasing, with exactly the members of s and x |
| SortedSets.SortedDistinct | default-workspace/fuzzers/1-generic/1-lc/1-lut/generic-lc-lut-1-cell_mask/script/generic-lc-lut-1-cell_mask.py:80-82 | `sorted(set(xs))` is strictly increasing with exactly the members of xs |
| SortedSets.Without | default-workspace/fuzzers/1-generic/1-lc/1-lut/generic-lc-lut-1-cell_mask/script/generic-lc-lut-1-cell_mask.py:81 | holds exactly the members of a that are not in b |
| SortedSets.SymmetricDifference | default-workspace/fuzzers/1-generic/1-lc/1-lut/generic-lc-lut-1-cell_mask/script/generic-lc-lut-1-cell_mask.py:80-82 | strictly increasing, and holds exactly the offsets in one list but not the other |
| SortedSets.StrictlyIncreasingUnique | default-workspace/fuzzers/1-generic/1-lc/1-lut/generic-lc-lut-1-cell_mask/script/generic-lc-lut-1-cell_mask.py:80-82 | a sorted set is determined by its members, so the diff is unique |
| SortedSets.SymmetricDifferenceCommutes | default-workspace/fuzzers/1-generic/1-lc/1-lut/generic-lc-lut-1-cell_mask/script/generic-lc-lut-1-cell_mask.py:81 | the symmetric difference does not depend on the order of its arguments |
| Experiment.FindFirst | default-workspace/fuzzers/1-generic/1-lc/1-lut/generic-lc-lut-4-rand_all/script/generic-lc-lut-4-rand_all.py:69-77 | the position `next(...)` stops at satisfies the condition, no earlier element does, and there is none exactly when no element satisfies it |
| Experiment.Next | default-workspace/fuzzers/1-generic/1-lc/1-lut/generic-lc-lut-1-cell_mask/script/generic-lc-lut-1-cell_mask.py:74-75 | `next((x for x in xs if p(x)), None)` is None exactly when no element satisfies p, and otherwise an element of xs that does |

## Left out

- The experiment runner is not part of this model. This covers `Fuzzer`, `run_experiment`, `save_results_to_db` and the process pool. `build_param_set` is modelled as a plain record holding its arguments, and the plan handed to `run_experiment` is a value.
- Configuration lookups (`vp.get("N", 1152)`, `cfg.active.get("num_values", 1)`, the init patterns, the static INIT values) are not modelled. The scripts' values arrive as parameters, and the `int(...)` conversions are taken to succeed. The defaults of cell-mask are modelled as constants, so that the lemmas about the default plan can name them: the two patterns and `MaxLutsPerParameter`, the CHUNK_LUTS default.
- `random.choice("01")` is replaced by the random stream described above; the Mersenne Twister itself is not modelled.
- Printing, logging, timestamps, the `.off` file's path and the write itself are not modelled. The text written is modelled (`OffsetFileText`).
- RandAll.ExtraCols: the float column `bits_per_lut` (`f"{total_bits / total_luts:.2f}"`) is not modelled, because it is floating-point formatting.
- CellMask.Extra: the `lut_config_bits_file` column is not modelled, because it holds the path of a file named after the clock.
- CellMask.CeilDiv: computes the exact ceiling on integers. `math.ceil(len(xor) / (1 << k))` divides in floating point, and the two can differ for counts beyond 2^53, or for K above about 1074, where the quotient underflows to 0 and `math.ceil` gives 0 for a non-empty diff. The same limit applies to the "zero exactly for an empty diff" clause of `CellMask.AnalyzeSaved`.
- Truthiness is taken in its usual sense. `r.get("success")` is a boolean field of the row. `not (base and inv)` holds exactly when a row is missing, since a result row is a non-empty dictionary.
- Malformed result rows are not modelled. These are rows without `params`, `data` or `offsets`, or offsets that are not integers; they would raise KeyError or TypeError in the scripts.
- A non-integer or non-iterable `num_values` is not modelled; `RandAll.BuildPlan` takes an integer.
