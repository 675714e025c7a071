/**
 * The create-prediction form (app/components/PredictionForm.tsx): the
 * `newPrediction` record its handlers replace, and the call it submits.
 * The clock reading is a parameter in milliseconds.
 */
module PredictionForm {
  import opened Calls

  const DefaultOptions: seq<string> := ["Yes", "No"]
  /** One day in seconds: the default deadline lies this far ahead. */
  const OneDaySeconds: int := 86400

  /** `Math.floor(ms / 1000)`. */
  function SecondsOf(ms: int): (s: int)
    ensures 1000 * s <= ms < 1000 * s + 1000
  {
    ms / 1000
  }

  function DefaultDeadline(nowMs: int): int {
    SecondsOf(nowMs) + OneDaySeconds
  }

  /** The default deadline is a day after the current second. */
  lemma DefaultDeadlineMeaning(nowMs: int)
    ensures 1000 * (DefaultDeadline(nowMs) - OneDaySeconds) <= nowMs < 1000 * (DefaultDeadline(nowMs) - OneDaySeconds) + 1000
  {
  }

  class FormState {
    var question: string
    var options: seq<string>
    var deadline: int

    /** The options are always the two defaults: no handler edits them. */
    predicate Valid()
      reads this
    {
      options == DefaultOptions
    }

    predicate IsFresh(nowMs: int)
      reads this
    {
      question == "" && options == DefaultOptions && deadline == DefaultDeadline(nowMs)
    }

    constructor(nowMs: int)
      ensures IsFresh(nowMs) && Valid()
    {
      question := "";
      options := DefaultOptions;
      deadline := DefaultDeadline(nowMs);
    }

    /** The question box: only the question changes, and nothing at all
        while the transaction is confirming, when the box is disabled. */
    method EditQuestion(text: string, isConfirming: bool)
      requires Valid()
      modifies this
      ensures Valid()
      ensures question == (if isConfirming then old(question) else text)
      ensures options == old(options) && deadline == old(deadline)
    {
      if !isConfirming {
        question := text;
      }
    }

    /** The date picker: the deadline becomes the chosen instant in whole
        seconds, rounded down; question and options stay. While the
        transaction is confirming the picker is disabled and nothing changes. */
    method EditDeadline(dateMs: int, isConfirming: bool)
      requires Valid()
      modifies this
      ensures Valid()
      ensures deadline == (if isConfirming then old(deadline) else SecondsOf(dateMs))
      ensures question == old(question) && options == old(options)
    {
      if !isConfirming {
        deadline := SecondsOf(dateMs);
      }
    }

    /** The transaction's completion: back to a fresh form with a deadline a
        day from the completion time. */
    method Complete(nowMs: int)
      modifies this
      ensures IsFresh(nowMs) && Valid()
    {
      question := "";
      options := DefaultOptions;
      deadline := DefaultDeadline(nowMs);
    }

    /** The one call the form's transaction carries. */
    function Call(): (c: ContractCall)
      reads this
      ensures c.functionName == "createPrediction"
      ensures c.args == [StrArg(question), StrListArg(options), UintArg(deadline)]
    {
      CreatePredictionCall(question, options, deadline)
    }

    /** The form's call is encodable exactly when the deadline is a valid
        `uint256`, which holds for every deadline that is not before 1970. */
    lemma CallEncodable()
      ensures Encodable(Call()) <==> 0 <= deadline < Uint256Bound
    {
      CreatePredictionEncodable(question, options, deadline);
    }
  }
}
