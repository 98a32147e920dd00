/**
 * The records the two fuzzer scripts exchange with the experiment runner. The
 * runner (`Fuzzer`, `build_param_set`, `run_experiment`) is not part of this
 * model; its records are taken as plain values holding what the scripts put in
 * and read out.
 */
module Experiment {
  import opened Wrappers

  /** The Verilog parameters both scripts pass: chain length N, LUT inputs K, CHUNK_LUTS and INIT. */
  datatype VerilogParameters = VerilogParameters(n: int, k: int, chunkLuts: int, init: string)

  /** What `build_param_set(index, chunk_bits=..., chunk_keys=..., N=.., K=.., CHUNK_LUTS=.., INIT=..)` returns. */
  datatype ParamSet = ParamSet(
    index: int,
    chunkBits: int,
    chunkKeys: seq<string>,
    verilogParameters: VerilogParameters)

  /** One row of `fuzzer.results`: its `param_index`, `success`, `params` and `data["offsets"]`. */
  datatype Row = Row(paramIndex: int, success: bool, params: ParamSet, offsets: seq<int>)

  /** The arguments both drivers hand to `fuzzer.run_experiment`: the groups and `num_processes`. */
  datatype Plan = Plan(groups: seq<seq<ParamSet>>, numProcesses: int)

  /** Both scripts always chunk the INIT vector: `chunk_keys=("INIT",)`. */
  function BuildParamSet(index: int, chunkBits: int, n: int, k: int, chunkLuts: int, init: string): ParamSet
  {
    ParamSet(index, chunkBits, ["INIT"], VerilogParameters(n, k, chunkLuts, init))
  }

  /** The position `next((x for x in xs if p(x)), None)` stops at: the first x with p(x). */
  function FindFirst<T>(xs: seq<T>, p: T -> bool): (r: Option<nat>)
    ensures r.Some? ==> r.value < |xs| && p(xs[r.value])
    ensures r.Some? ==> forall j :: 0 <= j < r.value ==> !p(xs[j])
    ensures r.None? <==> forall j :: 0 <= j < |xs| ==> !p(xs[j])
  {
    if xs == [] then None
    else if p(xs[0]) then Some(0)
    else match FindFirst(xs[1..], p)
      case None => None
      case Some(i) => Some(i + 1)
  }

  /** `next((x for x in xs if p(x)), None)` */
  function Next<T>(xs: seq<T>, p: T -> bool): (r: Option<T>)
    ensures r.None? <==> forall j :: 0 <= j < |xs| ==> !p(xs[j])
    ensures r.Some? ==> r.value in xs && p(r.value)
  {
    match FindFirst(xs, p)
    case None => None
    case Some(i) => Some(xs[i])
  }
}
