/**
 * The cell-mask LUT fuzzer (generic-lc-lut-1-cell_mask.py): two bitstreams
 * whose N LUTs all carry one INIT pattern, the base pattern in the first and
 * its bitwise complement in the second, so that every configuration bit that
 * differs between the two frames is a LUT memory cell; and the analysis that
 * diffs the two offset lists and counts the LUTs they touch.
 */
module CellMask {
  import opened Wrappers
  import opened Text
  import opened InitLiteral
  import opened SortedSets
  import opened Experiment

  /** The LUTs one chunked INIT parameter holds in the HDL template. */
  const MaxLutsPerParameter: int := 256

  /** The base pattern `main` uses when the configuration names none. */
  const DefaultBasePattern: string := "16'b0001_0110_0110_1000"

  /** The inverted pattern `main` uses when the configuration names none. */
  const DefaultInvertedPattern: string := "16'b1110_1001_1001_0111"

  /** The exceptions the script raises. */
  datatype Error =
    | PatternWidth(got: nat, expected: nat)  // _generate_init_values, wrong bit count
    | NegativeShift                          // `1 << k` with k < 0

  // ---------------------------------------------------------------------------
  // _generate_init_values
  // ---------------------------------------------------------------------------

  /** What `_generate_init_values` keeps of a pattern: the text after its first 'b', underscores removed. */
  function CleanBits(pattern: string): (r: string)
    ensures '_' !in r
    ensures 'b' !in pattern ==> r == []
    ensures 'b' in pattern ==> |r| < |pattern|
  {
    Remove(AfterFirst(pattern, 'b'), '_')
  }

  /**
   * `_generate_init_values(n, k, pattern)`: the ValueError raised when the
   * pattern does not hold 2^k bits, or the literal of the bits repeated n times.
   */
  function GenerateInitValues(n: int, k: nat, pattern: string): (r: Result<string, Error>)
    ensures r.Ok? <==> |CleanBits(pattern)| == Pow2(k)
    ensures r.Err? ==> r.error == PatternWidth(|CleanBits(pattern)|, Pow2(k))
    ensures 'b' !in pattern ==> r.Err?
  {
    var bits := CleanBits(pattern);
    var lutBits := Pow2(k);
    if |bits| != lutBits then Err(PatternWidth(|bits|, lutBits))
    else Ok(Literal(Repeat(bits, n)))
  }

  /**
   * A literal `_generate_init_values` returns declares as many bits as it
   * carries, n * 2^k of them (none for n <= 0).
   */
  lemma GenerateWidth(n: int, k: nat, pattern: string, lit: string)
    requires GenerateInitValues(n, k, pattern) == Ok(lit)
    ensures Decode(lit).Some?
    ensures Decode(lit).value.0 == |Decode(lit).value.1|
    ensures |Decode(lit).value.1| == if n <= 0 then 0 else n * Pow2(k)
  {
    DecodeLiteral(Repeat(CleanBits(pattern), n));
  }

  /** Every LUT position of the chain holds the cleaned pattern. */
  lemma GenerateLut(n: int, k: nat, pattern: string, lit: string, i: nat)
    requires GenerateInitValues(n, k, pattern) == Ok(lit)
    requires i < n
    ensures Decode(lit).Some?
    ensures Lut(Decode(lit).value.1, i, Pow2(k)) == CleanBits(pattern)
  {
    var bits := CleanBits(pattern);
    DecodeLiteral(Repeat(bits, n));
    LutOfRepeat(bits, n, i);
  }

  /** A chain of no LUTs is the empty literal `0'b`, not an error. */
  lemma GenerateNoLuts(n: int, k: nat, pattern: string)
    requires n <= 0
    requires |CleanBits(pattern)| == Pow2(k)
    ensures GenerateInitValues(n, k, pattern) == Ok("0'b")
  {
    assert Repeat(CleanBits(pattern), n) == [];
    assert NatToDecimal(0) == "0";
    assert Literal([]) == "0'b";
  }

  /** The pattern read from a literal of binary digits is those digits. */
  lemma CleanBitsOfLiteral(bits: string)
    requires IsBits(bits)
    ensures CleanBits(Literal(bits)) == bits
  {
    var w := NatToDecimal(|bits|) + ['\''];
    assert 'b' !in w by {
      forall i | 0 <= i < |w| ensures w[i] != 'b' {
        if i < |w| - 1 {
          assert IsDigit(NatToDecimal(|bits|)[i]);
        }
      }
    }
    assert '_' !in bits by {
      forall i | 0 <= i < |bits| ensures bits[i] != '_' {
        assert bits[i] == '0' || bits[i] == '1';
      }
    }
    assert Literal(bits) == w + ['b'] + bits;
    PartitionAt(w, 'b', bits);
    RemoveAbsent(bits, '_');
  }

  /**
   * A one-LUT literal the fuzzer wrote is a pattern it accepts, and it writes
   * that same literal again.
   */
  lemma GenerateIdempotent(k: nat, pattern: string)
    requires GenerateInitValues(1, k, pattern).Ok?
    requires IsBits(CleanBits(pattern))
    ensures GenerateInitValues(1, k, GenerateInitValues(1, k, pattern).value) == GenerateInitValues(1, k, pattern)
  {
    var bits := CleanBits(pattern);
    assert Repeat(bits, 1) == bits;
    CleanBitsOfLiteral(bits);
  }

  // ---------------------------------------------------------------------------
  // Complementary patterns
  // ---------------------------------------------------------------------------

  /** Two strings of binary digits that differ in every position. */
  predicate Complementary(a: string, b: string)
  {
    IsBits(a) && IsBits(b) && |a| == |b| && forall i :: 0 <= i < |a| ==> a[i] != b[i]
  }

  /** The default base and inverted patterns are 4-input LUT patterns and bitwise complements. */
  lemma DefaultPatternsComplementary()
    ensures |CleanBits(DefaultBasePattern)| == Pow2(4)
    ensures Complementary(CleanBits(DefaultBasePattern), CleanBits(DefaultInvertedPattern))
  {
    DefaultBaseBits();
    DefaultInvertedBits();
    DefaultBitsComplementary();
  }

  lemma DefaultBitsComplementary()
    ensures |"0001011001101000"| == Pow2(4)
    ensures Complementary("0001011001101000", "1110100110010111")
  {
  }

  lemma DefaultBaseBits()
    ensures CleanBits(DefaultBasePattern) == "0001011001101000"
  {
    DefaultBaseSpelling();
    CleanFourGroups("16'", "0001", "0110", "0110", "1000");
  }

  lemma DefaultBaseSpelling()
    ensures DefaultBasePattern == "16'" + ['b'] + ("0001" + "_" + ("0110" + "_" + ("0110" + "_" + "1000")))
    ensures "0001" + ("0110" + ("0110" + "1000")) == "0001011001101000"
  {
  }

  lemma DefaultInvertedBits()
    ensures CleanBits(DefaultInvertedPattern) == "1110100110010111"
  {
    DefaultInvertedSpelling();
    CleanFourGroups("16'", "1110", "1001", "1001", "0111");
  }

  lemma DefaultInvertedSpelling()
    ensures DefaultInvertedPattern == "16'" + ['b'] + ("1110" + "_" + ("1001" + "_" + ("1001" + "_" + "0111")))
    ensures "1110" + ("1001" + ("1001" + "0111")) == "1110100110010111"
  {
  }

  /** A pattern written as width, 'b and four underscore-separated groups. */
  lemma CleanFourGroups(width: string, g0: string, g1: string, g2: string, g3: string)
    requires 'b' !in width
    requires '_' !in g0 && '_' !in g1 && '_' !in g2 && '_' !in g3
    ensures CleanBits(width + ['b'] + (g0 + "_" + (g1 + "_" + (g2 + "_" + g3))))
         == g0 + (g1 + (g2 + g3))
  {
    PartitionAt(width, 'b', g0 + "_" + (g1 + "_" + (g2 + "_" + g3)));
    RemoveUnderscores(g0, g1 + "_" + (g2 + "_" + g3));
    RemoveUnderscores(g1, g2 + "_" + g3);
    RemoveUnderscores(g2, g3);
    RemoveAbsent(g3, '_');
  }

  /** Removing underscores from a group, an underscore and the rest. */
  lemma RemoveUnderscores(group: string, rest: string)
    requires '_' !in group
    ensures Remove(group + "_" + rest, '_') == group + Remove(rest, '_')
  {
    RemoveConcat(group + "_", rest, '_');
    RemoveConcat(group, "_", '_');
    RemoveAbsent(group, '_');
    assert Remove("_", '_') == [];
    assert Remove(group + "_", '_') == group;
  }

  // ---------------------------------------------------------------------------
  // main
  // ---------------------------------------------------------------------------

  /**
   * The single experiment group `main` hands to `run_experiment`, with two
   * processes: the base chain as param set 0 and the inverted chain as
   * param set 1. `1 << k` is evaluated before either literal, so a negative K
   * fails first, then a bad base pattern, then a bad inverted pattern.
   */
  function BuildPlan(n: int, k: int, chunkLuts: int, basePattern: string, invertedPattern: string): (r: Result<Plan, Error>)
    ensures k < 0 ==> r == Err(NegativeShift)
    ensures k >= 0 ==> (r.Ok? <==> GenerateInitValues(n, k, basePattern).Ok? && GenerateInitValues(n, k, invertedPattern).Ok?)
    ensures k >= 0 && r.Err? ==> r.error == if GenerateInitValues(n, k, basePattern).Err?
                                             then GenerateInitValues(n, k, basePattern).error
                                             else GenerateInitValues(n, k, invertedPattern).error
    ensures r.Ok? ==> k >= 0 && r.value.numProcesses == 2 && |r.value.groups| == 1 && |r.value.groups[0]| == 2
    ensures r.Ok? ==> forall p :: 0 <= p < 2 ==>
              r.value.groups[0][p].index == p &&
              r.value.groups[0][p].chunkBits == Pow2(k) * chunkLuts &&
              r.value.groups[0][p].chunkKeys == ["INIT"] &&
              r.value.groups[0][p].verilogParameters.n == n &&
              r.value.groups[0][p].verilogParameters.k == k &&
              r.value.groups[0][p].verilogParameters.chunkLuts == chunkLuts
    ensures r.Ok? ==> Ok(r.value.groups[0][0].verilogParameters.init) == GenerateInitValues(n, k, basePattern)
    ensures r.Ok? ==> Ok(r.value.groups[0][1].verilogParameters.init) == GenerateInitValues(n, k, invertedPattern)
  {
    if k < 0 then Err(NegativeShift)
    else
      var chunkBits := Pow2(k) * chunkLuts;
      match GenerateInitValues(n, k, basePattern)
      case Err(e) => Err(e)
      case Ok(baseInit) =>
        match GenerateInitValues(n, k, invertedPattern)
        case Err(e) => Err(e)
        case Ok(invInit) =>
          var baseSet := BuildParamSet(0, chunkBits, n, k, chunkLuts, baseInit);
          var invSet := BuildParamSet(1, chunkBits, n, k, chunkLuts, invInit);
          Ok(Plan([[baseSet, invSet]], 2))
  }

  /**
   * With complementary patterns the two runs configure every LUT of the chain
   * with complementary INIT bits, which is what makes the diff a cell mask.
   */
  lemma PlanComplementary(n: int, k: int, chunkLuts: int, basePattern: string, invertedPattern: string, i: nat)
    requires BuildPlan(n, k, chunkLuts, basePattern, invertedPattern).Ok?
    requires Complementary(CleanBits(basePattern), CleanBits(invertedPattern))
    requires i < n
    ensures k >= 0
    ensures var g := BuildPlan(n, k, chunkLuts, basePattern, invertedPattern).value.groups[0];
            Decode(g[0].verilogParameters.init).Some? && Decode(g[1].verilogParameters.init).Some? &&
            Complementary(Lut(Decode(g[0].verilogParameters.init).value.1, i, Pow2(k)),
                          Lut(Decode(g[1].verilogParameters.init).value.1, i, Pow2(k)))
  {
    var g := BuildPlan(n, k, chunkLuts, basePattern, invertedPattern).value.groups[0];
    GenerateLut(n, k, basePattern, g[0].verilogParameters.init, i);
    GenerateLut(n, k, invertedPattern, g[1].verilogParameters.init, i);
  }

  /** With the default patterns and K = 4 the plan is built for every N, a chain of no LUTs included. */
  lemma DefaultPlanBuilds(n: int, chunkLuts: int)
    ensures BuildPlan(n, 4, chunkLuts, DefaultBasePattern, DefaultInvertedPattern).Ok?
  {
    DefaultPatternsComplementary();
  }

  /**
   * With every default (K = 4 and CHUNK_LUTS = 256 LUTs per parameter) each
   * INIT parameter chunk holds 4096 bits.
   */
  lemma DefaultChunkBits(n: int)
    ensures var r := BuildPlan(n, 4, MaxLutsPerParameter, DefaultBasePattern, DefaultInvertedPattern);
            r.Ok? && r.value.groups[0][0].chunkBits == 4096 && r.value.groups[0][1].chunkBits == 4096
  {
    DefaultPlanBuilds(n, MaxLutsPerParameter);
    assert Pow2(2) == 4;
    assert Pow2(4) == 16;
    var g := BuildPlan(n, 4, MaxLutsPerParameter, DefaultBasePattern, DefaultInvertedPattern).value.groups[0];
    assert g[0].chunkBits == Pow2(4) * MaxLutsPerParameter;
    assert g[1].chunkBits == Pow2(4) * MaxLutsPerParameter;
  }

  /** The default patterns give complementary chains whatever N is. */
  lemma DefaultPlanComplementary(n: int, chunkLuts: int, i: nat)
    requires i < n
    ensures BuildPlan(n, 4, chunkLuts, DefaultBasePattern, DefaultInvertedPattern).Ok?
    ensures var g := BuildPlan(n, 4, chunkLuts, DefaultBasePattern, DefaultInvertedPattern).value.groups[0];
            Decode(g[0].verilogParameters.init).Some? && Decode(g[1].verilogParameters.init).Some? &&
            Complementary(Lut(Decode(g[0].verilogParameters.init).value.1, i, Pow2(4)),
                          Lut(Decode(g[1].verilogParameters.init).value.1, i, Pow2(4)))
  {
    DefaultPatternsComplementary();
    PlanComplementary(n, 4, chunkLuts, DefaultBasePattern, DefaultInvertedPattern, i);
  }

  // ---------------------------------------------------------------------------
  // _analyze_results
  // ---------------------------------------------------------------------------

  /** `math.ceil(a / d)`, computed on integers. */
  function CeilDiv(a: nat, d: nat): (q: nat)
    requires d >= 1
    ensures a <= q * d
    ensures q >= 1 ==> (q - 1) * d < a
    ensures q == 0 <==> a == 0
    decreases a
  {
    if a == 0 then 0
    else if a <= d then 1
    else
      var q := CeilDiv(a - d, d);
      MulSucc(q, d);
      q + 1
  }

  /** What one call of `_analyze_results` ends in. */
  datatype Analysis =
    | WrongRunCount(got: nat)  // not exactly two param sets: aborted
    | MissingRows              // no row with param_index 0 or none with 1: aborted
    | ShiftFailed              // `1 << k` with a negative K
    | Saved(xor: seq<int>, activated: nat)

  predicate HasIndex(row: Row, idx: int)
  {
    row.paramIndex == idx
  }

  /**
   * `_analyze_results(fuzzer, dyn_params)` given `fuzzer.results`: the
   * configuration bits in which the first base row and the first inverted row
   * differ, and how many LUTs of 2^K bits they cover.
   */
  function AnalyzeResults(results: seq<Row>, dynParams: seq<ParamSet>): (a: Analysis)
    ensures a.WrongRunCount? <==> |dynParams| != 2
    ensures a.WrongRunCount? ==> a.got == |dynParams|
    ensures a.MissingRows? <==> (|dynParams| == 2 &&
              ((forall i :: 0 <= i < |results| ==> !HasIndex(results[i], 0)) ||
               (forall i :: 0 <= i < |results| ==> !HasIndex(results[i], 1))))
    ensures a.ShiftFailed? ==> dynParams[0].verilogParameters.k < 0
    ensures !a.WrongRunCount? && !a.MissingRows? && dynParams[0].verilogParameters.k < 0 ==> a.ShiftFailed?
  {
    if |dynParams| != 2 then WrongRunCount(|dynParams|)
    else
      var base := Next(results, (row: Row) => HasIndex(row, 0));
      var inv := Next(results, (row: Row) => HasIndex(row, 1));
      if base.None? || inv.None? then MissingRows
      else
        var xor := SymmetricDifference(base.value.offsets, inv.value.offsets);
        var k := dynParams[0].verilogParameters.k;
        if k < 0 then ShiftFailed
        else Saved(xor, CeilDiv(|xor|, Pow2(k)))
  }

  /**
   * A saved analysis diffs the first row of each index: its offsets are
   * ascending, without repetitions, exactly those in one list and not the
   * other, and `activated` is the number of 2^K-bit LUTs they need.
   */
  lemma AnalyzeSaved(results: seq<Row>, dynParams: seq<ParamSet>, b: nat, v: nat)
    requires AnalyzeResults(results, dynParams).Saved?
    requires b < |results| && HasIndex(results[b], 0) && forall j :: 0 <= j < b ==> !HasIndex(results[j], 0)
    requires v < |results| && HasIndex(results[v], 1) && forall j :: 0 <= j < v ==> !HasIndex(results[j], 1)
    ensures var a := AnalyzeResults(results, dynParams);
            var k := dynParams[0].verilogParameters.k;
            k >= 0 &&
            StrictlyIncreasing(a.xor) &&
            (forall y :: y in a.xor <==> (y in results[b].offsets) != (y in results[v].offsets)) &&
            |a.xor| <= a.activated * Pow2(k) &&
            (a.activated >= 1 ==> (a.activated - 1) * Pow2(k) < |a.xor|) &&
            (a.activated == 0 <==> a.xor == [])
  {
    FirstIsUnique(results, (row: Row) => HasIndex(row, 0), b);
    FirstIsUnique(results, (row: Row) => HasIndex(row, 1), v);
  }

  /** The first position satisfying p is the one `FindFirst` returns. */
  lemma FirstIsUnique<T>(xs: seq<T>, p: T -> bool, i: nat)
    requires i < |xs| && p(xs[i]) && forall j :: 0 <= j < i ==> !p(xs[j])
    ensures Next(xs, p) == Some(xs[i])
  {
    var f := FindFirst(xs, p);
    assert f.Some?;
    assert f.value == i;
  }

  /** Which of the two runs is called base does not change the diff or the count. */
  lemma AnalyzeSwap(base: Row, inv: Row, dynParams: seq<ParamSet>)
    requires |dynParams| == 2
    ensures AnalyzeResults([base.(paramIndex := 0), inv.(paramIndex := 1)], dynParams)
         == AnalyzeResults([inv.(paramIndex := 0), base.(paramIndex := 1)], dynParams)
  {
    var r1 := [base.(paramIndex := 0), inv.(paramIndex := 1)];
    var r2 := [inv.(paramIndex := 0), base.(paramIndex := 1)];
    FirstIsUnique(r1, (row: Row) => HasIndex(row, 0), 0);
    FirstIsUnique(r1, (row: Row) => HasIndex(row, 1), 1);
    FirstIsUnique(r2, (row: Row) => HasIndex(row, 0), 0);
    FirstIsUnique(r2, (row: Row) => HasIndex(row, 1), 1);
    SymmetricDifferenceCommutes(base.offsets, inv.offsets);
  }

  // ---------------------------------------------------------------------------
  // _extra
  // ---------------------------------------------------------------------------

  /** `"base" if idx == 0 else "inverted"` for the row's `param_index`, -1 without a row. */
  function PatternType(res: Option<Row>): (t: string)
    ensures t == "base" <==> res.Some? && res.value.paramIndex == 0
    ensures t != "base" ==> t == "inverted"
  {
    var idx := if res.Some? then res.value.paramIndex else -1;
    if idx == 0 then "base" else "inverted"
  }

  /**
   * The columns `_extra(res)` adds to a DB row; `lut_config_bits_file`, the
   * path of the offset file, is not modelled.
   */
  function Extra(a: Analysis, res: Option<Row>): (cols: map<string, string>)
    requires a.Saved?
    ensures cols.Keys == {"pattern_type", "lut_config_bits", "activated_luts"}
    ensures cols["pattern_type"] == PatternType(res)
    ensures ParseInts(cols["lut_config_bits"], ',') == Some(a.xor)
    ensures ParseInt(cols["activated_luts"]) == Some(a.activated)
  {
    JoinIntsRoundTrip(a.xor, ',');
    ParseIntToDecimal(a.activated);
    map["pattern_type" := PatternType(res),
        "lut_config_bits" := JoinInts(a.xor, ','),
        "activated_luts" := IntToDecimal(a.activated)]
  }

  /** The text of the `.off` file: one offset per line, in ascending order. */
  function OffsetFileText(a: Analysis): (text: string)
    requires a.Saved?
    ensures ParseInts(text, '\n') == Some(a.xor)
  {
    JoinIntsRoundTrip(a.xor, '\n');
    JoinInts(a.xor, '\n')
  }
}
