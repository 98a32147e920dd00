/**
 * The random-all LUT-initialisation fuzzer
 * (generic-lc-lut-4-rand_all.py): one long chain of N K-input LUTs whose
 * first LUTs take user-given static INIT patterns and whose remaining LUTs
 * take random patterns, the whole chain written as one flat INIT literal;
 * `num_values` such experiments; and the analysis callback that picks the
 * result row of each experiment.
 *
 * `random.choice("01")` is replaced by a caller-supplied random stream: draw
 * number d of the run returns '1' when `stream(d)` holds and '0' otherwise.
 */
module RandAll {
  import opened Wrappers
  import opened Text
  import opened InitLiteral
  import opened SortedSets
  import opened Experiment

  /** The exceptions the script raises. */
  datatype Error =
    | PatternWidth(pattern: string, got: nat, expected: nat)  // _plain_bits, wrong bit count
    | TooManyStatic                                           // more static patterns than LUTs
    | NegativeShift                                           // `1 << k` with k < 0

  // ---------------------------------------------------------------------------
  // _plain_bits
  // ---------------------------------------------------------------------------

  /** What `_plain_bits` keeps of a pattern: the text after its last 'b', underscores removed. */
  function CleanBits(pattern: string): (r: string)
    ensures 'b' !in r && '_' !in r
  {
    var tail := AfterLast(pattern, 'b');
    RemoveMembers(tail, '_', 'b');
    Remove(tail, '_')
  }

  /**
   * `_plain_bits(pattern, k)`: the bits of one INIT pattern, or the ValueError
   * raised when there are not exactly 2^k of them.
   */
  function PlainBits(pattern: string, k: nat): (r: Result<string, Error>)
    ensures r.Ok? <==> |CleanBits(pattern)| == Pow2(k)
    ensures r.Ok? ==> r.value == CleanBits(pattern)
    ensures r.Err? ==> r.error == PatternWidth(pattern, |CleanBits(pattern)|, Pow2(k))
  {
    var bits := CleanBits(pattern);
    if |bits| != Pow2(k) then Err(PatternWidth(pattern, |bits|, Pow2(k))) else Ok(bits)
  }

  /** Cleaning is idempotent: what `_plain_bits` returns it accepts and returns unchanged. */
  lemma PlainBitsIdempotent(pattern: string, k: nat)
    requires PlainBits(pattern, k).Ok?
    ensures PlainBits(PlainBits(pattern, k).value, k) == PlainBits(pattern, k)
  {
    var bits := PlainBits(pattern, k).value;
    AfterLastAbsent(bits, 'b');
    RemoveAbsent(bits, '_');
  }

  /** `_plain_bits` reads back the digits of a literal this fuzzer could write for one LUT. */
  lemma PlainBitsOfLiteral(bits: string, k: nat)
    requires |bits| == Pow2(k) && IsBits(bits)
    ensures PlainBits(Literal(bits), k) == Ok(bits)
  {
    var w := NatToDecimal(|bits|);
    assert 'b' !in bits by {
      forall i | 0 <= i < |bits| ensures bits[i] != 'b' {
        assert bits[i] == '0' || bits[i] == '1';
      }
    }
    assert '_' !in bits by {
      forall i | 0 <= i < |bits| ensures bits[i] != '_' {
        assert bits[i] == '0' || bits[i] == '1';
      }
    }
    assert Literal(bits) == (w + ['\'']) + ['b'] + bits;
    AfterLastAt(w + ['\''], 'b', bits);
    RemoveAbsent(bits, '_');
  }

  /** The text after the last c is everything after a c that no later c follows. */
  lemma {:induction false} AfterLastAt(a: string, c: char, b: string)
    requires c !in b
    ensures AfterLast(a + [c] + b, c) == b
  {
    var s := a + [c] + b;
    if b != [] {
      var front := b[..|b| - 1];
      assert s[..|s| - 1] == a + [c] + front;
      AfterLastAt(a, c, front);
      assert b == front + [b[|b| - 1]];
    }
  }

  // ---------------------------------------------------------------------------
  // _build_flat_init_literal, as a specification
  // ---------------------------------------------------------------------------

  /**
   * `[_plain_bits(pat, k) for pat in patterns]`: the bits of every pattern, or
   * the error of the first pattern that fails.
   */
  function StaticBits(patterns: seq<string>, k: nat): (r: Result<seq<string>, Error>)
    ensures r.Ok? ==> |r.value| == |patterns| && AllWidth(r.value, Pow2(k))
    ensures r.Err? ==> r.error.PatternWidth?
  {
    if patterns == [] then Ok([])
    else match PlainBits(patterns[0], k)
      case Err(e) => Err(e)
      case Ok(bits) =>
        match StaticBits(patterns[1..], k)
        case Err(e) => Err(e)
        case Ok(rest) => Ok([bits] + rest)
  }

  /** The comprehension succeeds exactly when every pattern passes `_plain_bits`. */
  lemma {:induction false} StaticBitsOk(patterns: seq<string>, k: nat)
    ensures StaticBits(patterns, k).Ok? <==> forall i :: 0 <= i < |patterns| ==> PlainBits(patterns[i], k).Ok?
  {
    if patterns != [] {
      StaticBitsOk(patterns[1..], k);
      assert forall i :: 0 < i < |patterns| ==> patterns[i] == patterns[1..][i - 1];
    }
  }

  /** Entry i of the comprehension is `_plain_bits` of pattern i. */
  lemma {:induction false} StaticBitsAt(patterns: seq<string>, k: nat, i: nat)
    requires StaticBits(patterns, k).Ok? && i < |patterns|
    ensures PlainBits(patterns[i], k) == Ok(StaticBits(patterns, k).value[i])
  {
    if i > 0 {
      StaticBitsAt(patterns[1..], k, i - 1);
      assert patterns[1..][i - 1] == patterns[i];
    }
  }

  /** The error of the comprehension is that of the first pattern that fails. */
  lemma {:induction false} StaticBitsFirstError(patterns: seq<string>, k: nat, i: nat)
    requires i < |patterns| && PlainBits(patterns[i], k).Err?
    requires forall j :: 0 <= j < i ==> PlainBits(patterns[j], k).Ok?
    ensures StaticBits(patterns, k) == Err(PlainBits(patterns[i], k).error)
  {
    if i > 0 {
      var tail := patterns[1..];
      assert PlainBits(patterns[0], k).Ok?;
      assert forall j :: 0 <= j < i - 1 ==> tail[j] == patterns[j + 1];
      StaticBitsFirstError(tail, k, i - 1);
    }
  }

  /** The character `random.choice("01")` returns for a coin of the random stream. */
  function Choice(coin: bool): (ch: char)
    ensures ch == '0' || ch == '1'
    ensures ch == '1' <==> coin
  {
    if coin then '1' else '0'
  }

  /**
   * `"".join(random.choice("01") for _ in range(lutBits))` made with draws
   * start, start + 1, ... of the random stream.
   */
  function RandomPattern(stream: nat -> bool, start: nat, lutBits: nat): (r: string)
    ensures |r| == lutBits && IsBits(r)
    decreases lutBits
  {
    if lutBits == 0 then []
    else [Choice(stream(start))] + RandomPattern(stream, start + 1, lutBits - 1)
  }

  /** Digit t of a random pattern is the character of draw start + t. */
  lemma {:induction false} RandomPatternAt(stream: nat -> bool, start: nat, lutBits: nat, t: nat)
    requires t < lutBits
    ensures RandomPattern(stream, start, lutBits)[t] == Choice(stream(start + t))
    decreases t
  {
    if t > 0 {
      RandomPatternAt(stream, start + 1, lutBits - 1, t - 1);
    }
  }

  /**
   * The draw where random pattern j begins when every pattern takes lutBits
   * draws from draw `start` on (start + j * lutBits, see OffsetIsProduct).
   */
  function Offset(start: nat, j: nat, lutBits: nat): nat
  {
    if j == 0 then start else Offset(start, j - 1, lutBits) + lutBits
  }

  lemma {:induction false} OffsetIsProduct(start: nat, j: nat, lutBits: nat)
    ensures Offset(start, j, lutBits) == start + j * lutBits
  {
    if j > 0 {
      OffsetIsProduct(start, j - 1, lutBits);
      MulSucc(j - 1, lutBits);
    }
  }

  lemma {:induction false} OffsetFrom(start: nat, j: nat, lutBits: nat)
    ensures Offset(start, j, lutBits) == start + Offset(0, j, lutBits)
  {
    if j > 0 {
      OffsetFrom(start, j - 1, lutBits);
    }
  }

  /** The first m random patterns of `lutBits` draws each, drawn in order from draw `start` on. */
  function Fills(stream: nat -> bool, start: nat, m: nat, lutBits: nat): (r: seq<string>)
    ensures |r| == m && AllWidth(r, lutBits)
    ensures forall j :: 0 <= j < m ==> IsBits(r[j])
  {
    if m == 0 then []
    else Fills(stream, start, m - 1, lutBits) + [RandomPattern(stream, Offset(start, m - 1, lutBits), lutBits)]
  }

  /** Fill j is made of draws start + j * lutBits onwards. */
  lemma {:induction false} FillsAt(stream: nat -> bool, start: nat, m: nat, lutBits: nat, j: nat)
    requires j < m
    ensures Fills(stream, start, m, lutBits)[j] == RandomPattern(stream, Offset(start, j, lutBits), lutBits)
  {
    if j < m - 1 {
      FillsAt(stream, start, m - 1, lutBits, j);
    }
  }

  /**
   * The INIT bits of every LUT of the chain, LUT 0 first: the static patterns,
   * then random fills up to n.
   */
  function ChainSlots(n: int, k: nat, patterns: seq<string>, stream: nat -> bool, start: nat): (r: Result<seq<string>, Error>)
    ensures r.Ok? <==> StaticBits(patterns, k).Ok? && |patterns| <= n
    ensures r.Err? ==> r.error == if StaticBits(patterns, k).Err? then StaticBits(patterns, k).error else TooManyStatic
    ensures r.Ok? ==> |r.value| == n && AllWidth(r.value, Pow2(k))
  {
    match StaticBits(patterns, k)
    case Err(e) => Err(e)
    case Ok(sb) =>
      if |sb| > n then Err(TooManyStatic)
      else Ok(sb + Fills(stream, start, n - |sb|, Pow2(k)))
  }

  /**
   * `_build_flat_init_literal(n, k, patterns)` with the random stream at draw
   * `start`: the ValueError it raises, or the literal of the reversed
   * concatenation of the chain's slots.
   */
  function FlatInitLiteral(n: int, k: nat, patterns: seq<string>, stream: nat -> bool, start: nat): (r: Result<string, Error>)
    ensures r.Ok? <==> StaticBits(patterns, k).Ok? && |patterns| <= n
    ensures r.Err? ==> r.error == if StaticBits(patterns, k).Err? then StaticBits(patterns, k).error else TooManyStatic
  {
    match ChainSlots(n, k, patterns, stream, start)
    case Err(e) => Err(e)
    case Ok(slots) => Ok(Literal(Concat(Reverse(slots))))
  }

  /** How many draws one build takes from the random stream: none when it fails. */
  function Draws(n: int, k: nat, patterns: seq<string>): nat
  {
    if StaticBits(patterns, k).Ok? && |patterns| <= n then Offset(0, n - |patterns|, Pow2(k)) else 0
  }

  /**
   * The build fails exactly when some static pattern has the wrong width or
   * there are more static patterns than LUTs; a bad pattern is reported in
   * preference to the count, because the patterns are cleaned first.
   */
  lemma FlatInitErrors(n: int, k: nat, patterns: seq<string>, stream: nat -> bool, start: nat)
    ensures FlatInitLiteral(n, k, patterns, stream, start).Err?
        <==> (exists i :: 0 <= i < |patterns| && PlainBits(patterns[i], k).Err?) || |patterns| > n
    ensures (exists i :: 0 <= i < |patterns| && PlainBits(patterns[i], k).Err?)
        ==> (FlatInitLiteral(n, k, patterns, stream, start).Err?
             && FlatInitLiteral(n, k, patterns, stream, start).error.PatternWidth?)
    ensures (forall i :: 0 <= i < |patterns| ==> PlainBits(patterns[i], k).Ok?) && |patterns| > n
        ==> FlatInitLiteral(n, k, patterns, stream, start) == Err(TooManyStatic)
  {
    StaticBitsOk(patterns, k);
  }

  /** The literal declares and carries n * 2^k bits. */
  lemma FlatInitWidth(n: int, k: nat, patterns: seq<string>, stream: nat -> bool, start: nat, lit: string)
    requires FlatInitLiteral(n, k, patterns, stream, start) == Ok(lit)
    ensures n >= 0
    ensures Decode(lit).Some?
    ensures Decode(lit).value.0 == n * Pow2(k) == |Decode(lit).value.1|
  {
    var slots := ChainSlots(n, k, patterns, stream, start).value;
    var body := Concat(Reverse(slots));
    ConcatLength(Reverse(slots), Pow2(k));
    DecodeLiteral(body);
  }

  /** Static pattern i sits in LUT position i, counted from the least significant end. */
  lemma FlatInitStaticLut(n: int, k: nat, patterns: seq<string>, stream: nat -> bool, start: nat, lit: string, i: nat)
    requires FlatInitLiteral(n, k, patterns, stream, start) == Ok(lit)
    requires i < |patterns|
    ensures Decode(lit).Some?
    ensures PlainBits(patterns[i], k) == Ok(Lut(Decode(lit).value.1, i, Pow2(k)))
  {
    var slots := ChainSlots(n, k, patterns, stream, start).value;
    var body := Concat(Reverse(slots));
    DecodeLiteral(body);
    LutOfReversed(slots, Pow2(k), i);
    StaticBitsAt(patterns, k, i);
    assert slots[i] == StaticBits(patterns, k).value[i];
  }

  /**
   * Every LUT after the static ones holds 2^k random binary digits: LUT i is
   * made of the draws from start + (i - |patterns|) * 2^k on, so the fills are
   * drawn in LUT order.
   */
  lemma FlatInitRandomLut(n: int, k: nat, patterns: seq<string>, stream: nat -> bool, start: nat, lit: string, i: nat)
    requires FlatInitLiteral(n, k, patterns, stream, start) == Ok(lit)
    requires |patterns| <= i < n
    ensures Decode(lit).Some?
    ensures |Lut(Decode(lit).value.1, i, Pow2(k))| == Pow2(k)
    ensures IsBits(Lut(Decode(lit).value.1, i, Pow2(k)))
    ensures Lut(Decode(lit).value.1, i, Pow2(k))
         == RandomPattern(stream, Offset(start, i - |patterns|, Pow2(k)), Pow2(k))
  {
    var body := Concat(Reverse(ChainSlots(n, k, patterns, stream, start).value));
    assert lit == Literal(body);
    DecodeLiteral(body);
    ChainRandomLut(n, k, patterns, stream, start, i);
  }

  lemma ChainRandomLut(n: int, k: nat, patterns: seq<string>, stream: nat -> bool, start: nat, i: nat)
    requires ChainSlots(n, k, patterns, stream, start).Ok?
    requires |patterns| <= i < n
    ensures Lut(Concat(Reverse(ChainSlots(n, k, patterns, stream, start).value)), i, Pow2(k))
         == RandomPattern(stream, Offset(start, i - |patterns|, Pow2(k)), Pow2(k))
  {
    var slots := ChainSlots(n, k, patterns, stream, start).value;
    ChainSlotsRandom(n, k, patterns, stream, start, i - |patterns|);
    LutOfReversed(slots, Pow2(k), i);
  }

  lemma ChainSlotsRandom(n: int, k: nat, patterns: seq<string>, stream: nat -> bool, start: nat, j: nat)
    requires StaticBits(patterns, k).Ok?
    requires |patterns| + j < n
    ensures ChainSlots(n, k, patterns, stream, start).Ok?
    ensures |ChainSlots(n, k, patterns, stream, start).value| == n
    ensures ChainSlots(n, k, patterns, stream, start).value[|patterns| + j]
         == RandomPattern(stream, Offset(start, j, Pow2(k)), Pow2(k))
  {
    var sb := StaticBits(patterns, k).value;
    var fills := Fills(stream, start, n - |patterns|, Pow2(k));
    ChainSlotsValue(n, k, patterns, stream, start);
    FillsAt(stream, start, n - |patterns|, Pow2(k), j);
    assert (sb + fills)[|sb| + j] == fills[j];
  }

  /** A chain that builds is the static bits followed by the fills. */
  lemma ChainSlotsValue(n: int, k: nat, patterns: seq<string>, stream: nat -> bool, start: nat)
    requires StaticBits(patterns, k).Ok? && |patterns| <= n
    ensures ChainSlots(n, k, patterns, stream, start)
         == Ok(StaticBits(patterns, k).value + Fills(stream, start, n - |patterns|, Pow2(k)))
  {
  }

  /**
   * The random stream never decides whether the build fails, and once the
   * static patterns fill the chain it does not decide the literal either.
   */
  lemma FlatInitRandomIrrelevant(n: int, k: nat, patterns: seq<string>,
                                 stream1: nat -> bool, start1: nat, stream2: nat -> bool, start2: nat)
    ensures FlatInitLiteral(n, k, patterns, stream1, start1).Err?
        ==> FlatInitLiteral(n, k, patterns, stream1, start1) == FlatInitLiteral(n, k, patterns, stream2, start2)
    ensures |patterns| == n
        ==> FlatInitLiteral(n, k, patterns, stream1, start1) == FlatInitLiteral(n, k, patterns, stream2, start2)
  {
  }

  // ---------------------------------------------------------------------------
  // _build_flat_init_literal, as the script runs it
  // ---------------------------------------------------------------------------

  /**
   * `_build_flat_init_literal(n, k, static_patterns)`: clean the static
   * patterns, refuse more of them than LUTs, fill the chain up with random
   * patterns, and write the reversed concatenation as one literal. `drawn` is
   * how many draws were taken from the stream, from `start` on.
   */
  method BuildFlatInitLiteral(n: int, k: nat, staticPatterns: seq<string>, stream: nat -> bool, start: nat)
    returns (r: Result<string, Error>, drawn: nat)
    ensures r == FlatInitLiteral(n, k, staticPatterns, stream, start)
    ensures drawn == Draws(n, k, staticPatterns)
  {
    var cleaned := StaticBits(staticPatterns, k);
    if cleaned.Err? {
      return Err(cleaned.error), 0;
    }
    if |cleaned.value| > n {
      return Err(TooManyStatic), 0;
    }
    var chain;
    chain, drawn := FillChain(cleaned.value, n, Pow2(k), stream, start);
    var flatBits := Concat(Reverse(chain));
    r := Ok(Literal(flatBits));
  }

  /**
   * The loop of `_build_flat_init_literal`: append random patterns of
   * `lutBits` draws each until the chain holds n of them.
   */
  method FillChain(staticBits: seq<string>, n: int, lutBits: nat, stream: nat -> bool, start: nat)
    returns (chain: seq<string>, drawn: nat)
    requires |staticBits| <= n
    ensures chain == staticBits + Fills(stream, start, n - |staticBits|, lutBits)
    ensures drawn == Offset(0, n - |staticBits|, lutBits)
  {
    chain := staticBits;
    drawn := 0;
    ghost var filled: nat := 0;
    while |chain| < n
      invariant |chain| == |staticBits| + filled <= n
      invariant drawn == Offset(0, filled, lutBits)
      invariant chain == staticBits + Fills(stream, start, filled, lutBits)
      decreases n - |chain|
    {
      var rnd := RandomPattern(stream, start + drawn, lutBits);
      OffsetFrom(start, filled, lutBits);
      assert Fills(stream, start, filled + 1, lutBits) == Fills(stream, start, filled, lutBits) + [rnd];
      chain := chain + [rnd];
      drawn := drawn + lutBits;
      filled := filled + 1;
    }
  }

  // ---------------------------------------------------------------------------
  // main
  // ---------------------------------------------------------------------------

  /** Python's `max(a, b)`. */
  function Max(a: int, b: int): (m: int)
    ensures m >= a && m >= b
    ensures m == a || m == b
  {
    if a < b then b else a
  }

  /**
   * Group idx of the plan: one param set with index idx, `chunk_bits` of
   * CHUNK_LUTS LUTs, and the INIT literal built from where the random stream
   * stood after idx earlier builds.
   */
  predicate PlannedGroup(g: seq<ParamSet>, idx: nat, n: int, k: nat, chunkLuts: int,
                         staticInit: seq<string>, stream: nat -> bool)
  {
    |g| == 1 &&
    g[0] == BuildParamSet(idx, Pow2(k) * chunkLuts, n, k, chunkLuts, g[0].verilogParameters.init) &&
    FlatInitLiteral(n, k, staticInit, stream, Offset(0, idx, Draws(n, k, staticInit))) == Ok(g[0].verilogParameters.init)
  }

  /**
   * The experiment plan `main` hands to `run_experiment`: one group of one
   * param set per iteration, every iteration drawing its random patterns from
   * the one random stream where the previous iteration stopped.
   */
  method BuildPlan(n: int, k: int, chunkLuts: int, iterations: int, staticInit: seq<string>, stream: nat -> bool)
    returns (r: Result<Plan, Error>)
    ensures k < 0 ==> r == Err(NegativeShift)
    ensures k >= 0 && iterations <= 0 ==> r.Ok?
    ensures k >= 0 && iterations > 0 ==> (r.Err? <==> FlatInitLiteral(n, k, staticInit, stream, 0).Err?)
    ensures k >= 0 && iterations > 0 && r.Err? ==> r.error == FlatInitLiteral(n, k, staticInit, stream, 0).error
    ensures r.Ok? ==> k >= 0
    ensures r.Ok? ==> |r.value.groups| == Max(0, iterations)
    ensures r.Ok? ==> r.value.numProcesses == Max(1, iterations) >= 1
    ensures r.Ok? ==> forall idx :: 0 <= idx < |r.value.groups| ==>
              PlannedGroup(r.value.groups[idx], idx, n, k, chunkLuts, staticInit, stream)
  {
    if k < 0 {
      return Err(NegativeShift);
    }
    var groups: seq<seq<ParamSet>> := [];
    var chunkBits := Pow2(k) * chunkLuts;
    var cursor := 0;
    var idx := 0;
    while idx < iterations
      invariant 0 <= idx <= Max(0, iterations)
      invariant |groups| == idx
      invariant cursor == Offset(0, idx, Draws(n, k, staticInit))
      invariant idx > 0 ==> FlatInitLiteral(n, k, staticInit, stream, 0).Ok?
      invariant chunkBits == Pow2(k) * chunkLuts
      invariant forall j :: 0 <= j < idx ==> PlannedGroup(groups[j], j, n, k, chunkLuts, staticInit, stream)
    {
      var flatInit, drawn := BuildFlatInitLiteral(n, k, staticInit, stream, cursor);
      if flatInit.Err? {
        FlatInitRandomIrrelevant(n, k, staticInit, stream, cursor, stream, 0);
        return Err(flatInit.error);
      }
      var paramSet := BuildParamSet(idx, chunkBits, n, k, chunkLuts, flatInit.value);
      assert PlannedGroup([paramSet], idx, n, k, chunkLuts, staticInit, stream);
      groups := groups + [[paramSet]];
      cursor := cursor + drawn;
      idx := idx + 1;
    }
    r := Ok(Plan(groups, Max(1, iterations)));
  }

  // ---------------------------------------------------------------------------
  // analyze_results
  // ---------------------------------------------------------------------------

  /** What one call of `analyze_results` ends in. */
  datatype Analysis =
    | IndexError      // `dynamic_params[0]` of an empty group
    | Skipped         // no successful row with the group's Verilog parameters
    | ZeroDivision    // `total_bits / total_luts` with N == 0, while printing
    | Save(result: Row, totalLuts: int, totalBits: nat, staticLuts: nat)

  /** The row `analyze_results` is looking for: successful, with the group's Verilog parameters. */
  predicate Matches(row: Row, vp: VerilogParameters)
    ensures Matches(row, vp) ==> row.success && row.params.verilogParameters.init == vp.init
  {
    row.success && row.params.verilogParameters == vp
  }

  /**
   * `analyze_results(fuzzer, dynamic_params)` given `fuzzer.results` and the
   * number of static INIT values in the configuration.
   */
  function AnalyzeResults(results: seq<Row>, dynamicParams: seq<ParamSet>, staticCount: nat): (a: Analysis)
    ensures a == IndexError <==> dynamicParams == []
    ensures a == Skipped <==> (dynamicParams != [] &&
              forall i :: 0 <= i < |results| ==> !Matches(results[i], dynamicParams[0].verilogParameters))
    ensures a.Save? ==> exists i :: (0 <= i < |results| && a.result == results[i] &&
              Matches(results[i], dynamicParams[0].verilogParameters) &&
              forall j :: 0 <= j < i ==> !Matches(results[j], dynamicParams[0].verilogParameters))
    ensures a.Save? ==> a.totalBits == |a.result.offsets| && a.staticLuts == staticCount
    ensures a.Save? ==> a.totalLuts == dynamicParams[0].verilogParameters.n != 0
    ensures a == ZeroDivision ==> dynamicParams[0].verilogParameters.n == 0
  {
    if dynamicParams == [] then IndexError
    else
      var vp := dynamicParams[0].verilogParameters;
      var found := FindFirst(results, (row: Row) => Matches(row, vp));
      if found.None? then Skipped
      else if vp.n == 0 then ZeroDivision
      else Save(results[found.value], vp.n, |results[found.value].offsets|, staticCount)
  }

  /** The extra DB columns `extra_cols` returns; `bits_per_lut`, a float, is not modelled. */
  function ExtraCols(a: Analysis): (cols: map<string, string>)
    requires a.Save?
    ensures cols.Keys == {"total_luts", "total_bits", "static_luts"}
    ensures ParseInt(cols["total_luts"]) == Some(a.totalLuts)
    ensures ParseInt(cols["total_bits"]) == Some(a.totalBits)
    ensures ParseInt(cols["static_luts"]) == Some(a.staticLuts)
  {
    ParseIntToDecimal(a.totalLuts);
    ParseIntToDecimal(a.totalBits);
    ParseIntToDecimal(a.staticLuts);
    map["total_luts" := IntToDecimal(a.totalLuts),
        "total_bits" := IntToDecimal(a.totalBits),
        "static_luts" := IntToDecimal(a.staticLuts)]
  }
}
