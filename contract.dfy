/**
 * The deployed prediction market as the front end names it
 * (app/utils/contract.ts): its address and its ABI, kept as constant data.
 * The wagmi hooks around them are calls into a library and are not modelled.
 */
module Contract {
  import opened Wrappers

  const PredictionMarketAddress: string := "0x8449064a1bFD716a7046e3B9E05448aB19A7E5ae"

  datatype AbiType = Uint256 | Str | StrArray | Address | Bool | Uint256Array | TupleArray(components: seq<AbiType>)

  datatype AbiParam = AbiParam(name: string, typ: AbiType)

  datatype Mutability = View | NonPayable

  datatype AbiEntry =
    | Function(name: string, inputs: seq<AbiParam>, outputs: seq<AbiParam>, mutability: Mutability)
    | Constructor(inputs: seq<AbiParam>, mutability: Mutability)
    | Event(name: string, inputs: seq<AbiParam>)

  const CreatePredictionEntry: AbiEntry := Function("createPrediction",
    [AbiParam("_question", Str), AbiParam("_options", StrArray), AbiParam("_deadline", Uint256)], [], NonPayable)
  const ConstructorEntry: AbiEntry := Constructor([], NonPayable)
  const PredictionCreatedEntry: AbiEntry := Event("PredictionCreated",
    [AbiParam("id", Uint256), AbiParam("question", Str), AbiParam("options", StrArray), AbiParam("deadline", Uint256)])
  const PredictionResolvedEntry: AbiEntry := Event("PredictionResolved",
    [AbiParam("id", Uint256), AbiParam("winningOption", Uint256)])
  const ResolvePredictionEntry: AbiEntry := Function("resolvePrediction",
    [AbiParam("_id", Uint256), AbiParam("_winningOption", Uint256)], [], NonPayable)
  const VoteEntry: AbiEntry := Function("vote", [AbiParam("_id", Uint256), AbiParam("_option", Uint256)], [], NonPayable)
  const VotedEntry: AbiEntry := Event("Voted",
    [AbiParam("id", Uint256), AbiParam("voter", Address), AbiParam("option", Uint256)])
  const GetPredictionsEntry: AbiEntry := Function("getPredictions", [],
    [AbiParam("", TupleArray([Uint256, Address, Str, StrArray, Uint256, Bool, Uint256]))], View)
  const GetVotesEntry: AbiEntry := Function("getVotes", [AbiParam("_id", Uint256)], [AbiParam("", Uint256Array)], View)
  const OwnerEntry: AbiEntry := Function("owner", [], [AbiParam("", Address)], View)
  const PredictionCounterEntry: AbiEntry := Function("predictionCounter", [], [AbiParam("", Uint256)], View)
  const PredictionsEntry: AbiEntry := Function("predictions", [AbiParam("", Uint256)],
    [AbiParam("id", Uint256), AbiParam("creator", Address), AbiParam("question", Str),
     AbiParam("deadline", Uint256), AbiParam("resolved", Bool), AbiParam("winningOption", Uint256)], View)

  /** `PREDICTION_MARKET_ABI`, entry by entry in its order. */
  const PredictionMarketAbi: seq<AbiEntry> := [
    CreatePredictionEntry, ConstructorEntry, PredictionCreatedEntry, PredictionResolvedEntry,
    ResolvePredictionEntry, VoteEntry, VotedEntry, GetPredictionsEntry, GetVotesEntry, OwnerEntry,
    PredictionCounterEntry, PredictionsEntry
  ]

  /** The first function entry of `abi` named `name`, as a call by name resolves it. */
  function LookupFunction(abi: seq<AbiEntry>, name: string): (r: Option<AbiEntry>)
    ensures r.Some? ==> r.value.Function? && r.value.name == name && r.value in abi
    ensures r.None? ==> forall e :: e in abi && e.Function? ==> e.name != name
  {
    if abi == [] then None
    else if abi[0].Function? && abi[0].name == name then Some(abi[0])
    else LookupFunction(abi[1..], name)
  }

  /** A function entry preceded by no function of the same name is what the lookup finds. */
  lemma {:induction false} LookupFindsFirst(abi: seq<AbiEntry>, name: string, k: nat)
    requires k < |abi| && abi[k].Function? && abi[k].name == name
    requires forall j :: 0 <= j < k ==> !(abi[j].Function? && abi[j].name == name)
    ensures LookupFunction(abi, name) == Some(abi[k])
  {
    if k > 0 {
      LookupFindsFirst(abi[1..], name, k - 1);
    }
  }
}
