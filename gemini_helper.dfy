/** The Gemini client wrapper (`utils/geminiHelper.js`): a required key, a
    current model that starts as "gemini-1.5-pro", and one fallback to
    "gemini-1.0-pro" when the service reports the model as not found. The
    SDK's `generateContent` replies are inputs: the reply to the first call
    and the reply to the retry. */
module GeminiHelper {
  import opened Wrappers
  import opened Strings

  const PrimaryModel := "gemini-1.5-pro"
  const AlternativeModel := "gemini-1.0-pro"
  // Split so that the solver can look inside each part.
  const MissingKeyError := "\U{274C} Gemini API key is missing. " + "Please check your .env file"
  const BothFailedPrefix := "Both models failed: "
  const ApiErrorPrefix := "Gemini API error: "

  /** An error message that asks for the alternative model. */
  predicate WantsAlternative(message: string) {
    Contains(message, "not found") || Contains(message, "404")
  }

  /** The value `generateText` settles with, given the first reply and the
      reply to the retry (read only when the first failed with a not-found
      message). */
  function Outcome(first: Result<string, string>, retry: Result<string, string>): (r: Result<string, string>)
    ensures first.Ok? ==> r == first
    ensures r.Ok? ==> r == first || (first.Err? && WantsAlternative(first.error) && r == retry)
    ensures first.Err? && WantsAlternative(first.error) && retry.Ok? ==> r == retry
    ensures r.Err? ==> first.Err?
    ensures r.Err? && StartsWith(r.error, BothFailedPrefix) <==>
            first.Err? && WantsAlternative(first.error) && retry.Err?
    ensures r.Err? && StartsWith(r.error, BothFailedPrefix) ==>
            r.error[|BothFailedPrefix|..] == retry.error
    ensures first.Err? && !WantsAlternative(first.error) ==>
            r.Err? && StartsWith(r.error, ApiErrorPrefix) && r.error[|ApiErrorPrefix|..] == first.error
  {
    match first
    case Ok(_) => first
    case Err(message) =>
      if WantsAlternative(message) then
        match retry
        case Ok(_) => retry
        case Err(message2) =>
          assert !StartsWith(ApiErrorPrefix + message, BothFailedPrefix) by {
            assert ApiErrorPrefix[0] != BothFailedPrefix[0];
          }
          Err(BothFailedPrefix + message2)
      else
        assert !StartsWith(ApiErrorPrefix + message, BothFailedPrefix) by {
          assert (ApiErrorPrefix + message)[0] != BothFailedPrefix[0];
        }
        Err(ApiErrorPrefix + message)
  }

  /** The retry's reply matters only after a not-found failure. */
  lemma RetryOnlyAfterNotFound(first: Result<string, string>, retry1: Result<string, string>,
                               retry2: Result<string, string>)
    requires first.Ok? || !WantsAlternative(first.error)
    ensures Outcome(first, retry1) == Outcome(first, retry2)
  {
  }

  /** One `generateContent` call: the model it went to and the prompt. */
  datatype Call = Call(model: string, prompt: string)

  /** Once a call has gone to the alternative model, every later call does. */
  ghost predicate StaysSwitched(calls: seq<Call>) {
    forall i, j :: 0 <= i < j < |calls| && calls[i].model == AlternativeModel ==>
                   calls[j].model == AlternativeModel
  }

  /** The current model and the call log agree: every call went to one of the
      two models, the switch is never undone, the latest call went to the
      current model, and while the primary model is current no call has gone
      anywhere else. */
  ghost predicate Consistent(model: string, calls: seq<Call>) {
    (model == PrimaryModel || model == AlternativeModel) &&
    (forall i :: 0 <= i < |calls| ==> calls[i].model == PrimaryModel || calls[i].model == AlternativeModel) &&
    StaysSwitched(calls) &&
    (calls != [] ==> calls[|calls| - 1].model == model) &&
    (model == PrimaryModel ==> forall i :: 0 <= i < |calls| ==> calls[i].model == PrimaryModel)
  }

  /** A call to the current model, or a switch to the alternative model
      followed by a call to it, keeps the model and the log consistent. */
  lemma ConsistentCall(model: string, calls: seq<Call>, next: string, prompt: string)
    requires Consistent(model, calls)
    requires next == model || next == AlternativeModel
    ensures Consistent(next, calls + [Call(next, prompt)])
  {
    assert PrimaryModel[9] != AlternativeModel[9];
    var log := calls + [Call(next, prompt)];
    forall i, j | 0 <= i < j < |log| && log[i].model == AlternativeModel
      ensures log[j].model == AlternativeModel
    {
      if j == |calls| && next != AlternativeModel {
        // `next` is then the primary model, under which no call has gone to
        // the alternative one.
        assert false;
      } else if j < |calls| {
        assert log[i] == calls[i] && log[j] == calls[j];
      }
    }
  }

  class GeminiHelper {
    const apiKey: string
    var model: string
    /** Every `generateContent` call so far, in order. */
    ghost var calls: seq<Call>

    ghost predicate Valid()
      reads this
    {
      Consistent(model, calls)
    }

    /** The constructor past its key check. */
    constructor(key: string)
      requires key != ""
      ensures Valid()
      ensures apiKey == key && model == PrimaryModel && calls == []
    {
      apiKey := key;
      model := PrimaryModel;
      calls := [];
    }

    /** `new GeminiHelper()` with `GEMINI_API_KEY` as read from the
        environment: a missing or empty key is the error it throws. */
    static method Create(key: Option<string>) returns (helper: GeminiHelper?, error: Option<string>)
      ensures key.None? || key.value == "" ==> helper == null && error == Some(MissingKeyError)
      ensures key.Some? && key.value != "" ==>
              error.None? && helper != null && fresh(helper) && helper.Valid() &&
              helper.apiKey == key.value && helper.model == PrimaryModel && helper.calls == []
    {
      if key.None? || key.value == "" {
        return null, Some(MissingKeyError);
      }
      helper := new GeminiHelper(key.value);
      error := None;
    }

    /** `generateText(prompt)`: the prompt goes to the current model; after a
        not-found failure the helper switches to the alternative model for
        good and sends the same prompt once more. */
    method GenerateText(prompt: string, first: Result<string, string>, retry: Result<string, string>)
      returns (result: Result<string, string>)
      requires Valid()
      modifies this`model, this`calls
      ensures Valid()
      ensures result == Outcome(first, retry)
      ensures first.Err? && WantsAlternative(first.error) ==>
              model == AlternativeModel &&
              calls == old(calls) + [Call(old(model), prompt), Call(AlternativeModel, prompt)]
      ensures first.Ok? || !WantsAlternative(first.error) ==>
              model == old(model) && calls == old(calls) + [Call(old(model), prompt)]
    {
      ConsistentCall(model, calls, model, prompt);
      calls := calls + [Call(model, prompt)];
      if first.Ok? {
        return first;
      }
      if WantsAlternative(first.error) {
        ConsistentCall(model, calls, AlternativeModel, prompt);
        model := AlternativeModel;
        calls := calls + [Call(model, prompt)];
        if retry.Ok? {
          return retry;
        }
        return Err(BothFailedPrefix + retry.error);
      }
      return Err(ApiErrorPrefix + first.error);
    }
  }
}
