/**
 * The contract-call descriptors the front end hands to the transaction
 * component (app/calls.ts): each names the market's address and ABI, a
 * function and its arguments.
 */
module Calls {
  import opened Wrappers
  import opened Contract

  /** An argument as viem receives it; `BigInt(n)` becomes `UintArg(n)`. */
  datatype Arg = StrArg(s: string) | StrListArg(items: seq<string>) | UintArg(n: int)

  datatype ContractCall = ContractCall(address: string, abi: seq<AbiEntry>, functionName: string, args: seq<Arg>)

  const Uint256Bound: int := 0x1_0000_0000_0000_0000_0000_0000_0000_0000_0000_0000_0000_0000_0000_0000_0000_0000

  function CreatePredictionCall(question: string, options: seq<string>, deadline: int): ContractCall {
    ContractCall(PredictionMarketAddress, PredictionMarketAbi, "createPrediction",
                 [StrArg(question), StrListArg(options), UintArg(deadline)])
  }

  function VoteCall(predictionId: int, optionIndex: int): ContractCall {
    ContractCall(PredictionMarketAddress, PredictionMarketAbi, "vote", [UintArg(predictionId), UintArg(optionIndex)])
  }

  function ResolvePredictionCall(predictionId: int, winningOption: int): ContractCall {
    ContractCall(PredictionMarketAddress, PredictionMarketAbi, "resolvePrediction",
                 [UintArg(predictionId), UintArg(winningOption)])
  }

  /** An argument fits a parameter type when the kinds agree and an unsigned
      integer lies in `0 .. 2^256 - 1`. */
  predicate ArgFits(a: Arg, t: AbiType) {
    match a
    case StrArg(_) => t == Str
    case StrListArg(_) => t == StrArray
    case UintArg(n) => t == Uint256 && 0 <= n < Uint256Bound
  }

  /** The arguments fit the parameters one by one, and there are as many of each. */
  predicate ArgsFit(args: seq<Arg>, params: seq<AbiParam>) {
    if args == [] || params == [] then args == [] && params == []
    else ArgFits(args[0], params[0].typ) && ArgsFit(args[1..], params[1..])
  }

  /** A call can be encoded: it targets the market with the market's ABI, the
      ABI has a function of that name, and the arguments fit its inputs one by one. */
  predicate Encodable(call: ContractCall) {
    && call.address == PredictionMarketAddress
    && call.abi == PredictionMarketAbi
    && var f := LookupFunction(call.abi, call.functionName);
    && f.Some?
    && ArgsFit(call.args, f.value.inputs)
  }

  lemma {:induction false} ArgsFitPointwise(args: seq<Arg>, params: seq<AbiParam>)
    ensures ArgsFit(args, params) <==>
      |args| == |params| && forall i :: 0 <= i < |args| ==> ArgFits(args[i], params[i].typ)
  {
    if args != [] && params != [] {
      ArgsFitPointwise(args[1..], params[1..]);
      assert forall i :: 1 <= i < |args| ==> args[1..][i - 1] == args[i];
    }
  }

  /** The number of inputs the ABI gives the named function (0 when it has none). */
  function Arity(name: string): nat {
    match LookupFunction(PredictionMarketAbi, name)
    case Some(f) => |f.inputs|
    case None => 0
  }

  /** Where the three write functions sit in the ABI. */
  lemma FunctionEntries()
    ensures LookupFunction(PredictionMarketAbi, "createPrediction") == Some(CreatePredictionEntry)
    ensures LookupFunction(PredictionMarketAbi, "resolvePrediction") == Some(ResolvePredictionEntry)
    ensures LookupFunction(PredictionMarketAbi, "vote") == Some(VoteEntry)
  {
    CreatePredictionFound();
    ResolvePredictionFound();
    VoteFound();
  }

  lemma CreatePredictionFound()
    ensures LookupFunction(PredictionMarketAbi, "createPrediction") == Some(CreatePredictionEntry)
  {
    LookupFindsFirst(PredictionMarketAbi, "createPrediction", 0);
  }

  /** Entries 1 to 3 are the constructor and the two events. */
  lemma {:induction false} NoFunctionsBefore(name: string, k: nat)
    requires 1 <= k <= 4 && |CreatePredictionEntry.name| != |name|
    ensures forall j :: 0 <= j < k ==> !(PredictionMarketAbi[j].Function? && PredictionMarketAbi[j].name == name)
  {
    var abi := PredictionMarketAbi;
    assert abi[0] == CreatePredictionEntry && !abi[1].Function? && !abi[2].Function? && !abi[3].Function?;
  }

  lemma ResolvePredictionFound()
    ensures LookupFunction(PredictionMarketAbi, "resolvePrediction") == Some(ResolvePredictionEntry)
  {
    NoFunctionsBefore("resolvePrediction", 4);
    LookupFindsFirst(PredictionMarketAbi, "resolvePrediction", 4);
  }

  lemma VoteFound()
    ensures LookupFunction(PredictionMarketAbi, "vote") == Some(VoteEntry)
  {
    var abi := PredictionMarketAbi;
    NoFunctionsBefore("vote", 4);
    assert abi[4] == ResolvePredictionEntry && abi[5] == VoteEntry;
    assert |ResolvePredictionEntry.name| != |"vote"|;
    LookupFindsFirst(abi, "vote", 5);
  }

  /** The descriptors have the ABI's arities: 3 for createPrediction, 2 for
      vote and for resolvePrediction. */
  lemma ArgCountsMatchAbi(question: string, options: seq<string>, deadline: int, id: int, k: int)
    ensures |CreatePredictionCall(question, options, deadline).args| == Arity("createPrediction") == 3
    ensures |VoteCall(id, k).args| == Arity("vote") == 2
    ensures |ResolvePredictionCall(id, k).args| == Arity("resolvePrediction") == 2
  {
    FunctionEntries();
  }

  /** Two unsigned arguments against two `uint256` parameters. */
  lemma {:induction false} TwoUintsFit(x: int, y: int, p: seq<AbiParam>)
    requires |p| == 2 && p[0].typ == Uint256 && p[1].typ == Uint256
    ensures ArgsFit([UintArg(x), UintArg(y)], p) <==> 0 <= x < Uint256Bound && 0 <= y < Uint256Bound
  {
    var a: seq<Arg> := [UintArg(x), UintArg(y)];
    assert a[1..] == [UintArg(y)] && a[1..][1..] == [];
    assert p[1..][0] == p[1] && p[1..][1..] == [];
    assert ArgsFit(a[1..], p[1..]) <==> ArgFits(UintArg(y), Uint256) && ArgsFit([], []);
  }

  /** A string, a string list and an unsigned argument against `string`, `string[]`, `uint256`. */
  lemma {:induction false} CreateArgsFit(question: string, options: seq<string>, deadline: int, p: seq<AbiParam>)
    requires |p| == 3 && p[0].typ == Str && p[1].typ == StrArray && p[2].typ == Uint256
    ensures ArgsFit([StrArg(question), StrListArg(options), UintArg(deadline)], p) <==> 0 <= deadline < Uint256Bound
  {
    var a: seq<Arg> := [StrArg(question), StrListArg(options), UintArg(deadline)];
    assert a[1..] == [StrListArg(options), UintArg(deadline)];
    assert a[1..][1..] == [UintArg(deadline)] && a[1..][1..][1..] == [];
    assert p[1..][0] == p[1] && p[1..][1..][0] == p[2] && p[1..][1..][1..] == [];
    assert ArgsFit(a[1..][1..], p[1..][1..]) <==> ArgFits(UintArg(deadline), Uint256) && ArgsFit([], []);
  }

  /** A call to the market whose name the ABI resolves to `entry` is
      encodable exactly when its arguments fit that entry's inputs. */
  lemma EncodableAgainst(call: ContractCall, entry: AbiEntry)
    requires call.address == PredictionMarketAddress && call.abi == PredictionMarketAbi
    requires LookupFunction(PredictionMarketAbi, call.functionName) == Some(entry)
    ensures Encodable(call) <==> ArgsFit(call.args, entry.inputs)
  {
  }

  /** A createPrediction descriptor is encodable exactly when its deadline is a
      valid `uint256`; question and options can be anything. */
  lemma CreatePredictionEncodable(question: string, options: seq<string>, deadline: int)
    ensures Encodable(CreatePredictionCall(question, options, deadline)) <==> 0 <= deadline < Uint256Bound
  {
    CreatePredictionFound();
    EncodableAgainst(CreatePredictionCall(question, options, deadline), CreatePredictionEntry);
    CreateArgsFit(question, options, deadline, CreatePredictionEntry.inputs);
  }

  /** A vote descriptor is encodable exactly when both numbers are valid `uint256`s. */
  lemma VoteEncodable(id: int, optionIndex: int)
    ensures Encodable(VoteCall(id, optionIndex)) <==> 0 <= id < Uint256Bound && 0 <= optionIndex < Uint256Bound
  {
    VoteFound();
    EncodableAgainst(VoteCall(id, optionIndex), VoteEntry);
    TwoUintsFit(id, optionIndex, VoteEntry.inputs);
  }

  /** A resolvePrediction descriptor is encodable exactly when both numbers are valid `uint256`s. */
  lemma ResolvePredictionEncodable(id: int, winningOption: int)
    ensures Encodable(ResolvePredictionCall(id, winningOption)) <==> 0 <= id < Uint256Bound && 0 <= winningOption < Uint256Bound
  {
    ResolvePredictionFound();
    EncodableAgainst(ResolvePredictionCall(id, winningOption), ResolvePredictionEntry);
    TwoUintsFit(id, winningOption, ResolvePredictionEntry.inputs);
  }
}
