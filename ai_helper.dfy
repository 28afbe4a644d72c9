/** The rate-limited DeepSeek chat-completion wrapper (`AIHelper`, one
    long-lived instance) and its three prompt builders.

    The clock is an input: `now` is the reading taken before throttling and
    `completedAt` the reading taken after a successful completion. The timer
    is taken to fire exactly when asked, so the provider is called at
    `now + wait`. The chat-completion call is an oracle: `reply` is what the
    provider returns if it is called. */
module AiHelper {
  import opened Wrappers
  import opened Strings

  /** Minimum spacing, in milliseconds, between a successful completion and the
      next provider call. */
  const MinRequestInterval := 3000

  const MissingKeyMessage := "DeepSeek API key not configured"
  const RateLimitMessage := "Rate limit exceeded. " + "Please wait 10 seconds and try again."
  const ServiceErrorPrefix := "AI service error: "

  /** The `type` argument callers pass along; it never reaches the request. */
  datatype ArtifactKind = Summary | Flashcards | Quiz

  /** `DEEPSEEK_API_KEY || OPENROUTER_API_KEY` */
  function SelectApiKey(deepseek: Option<string>, openrouter: Option<string>): (key: Option<string>)
    ensures Truthy(deepseek) ==> key == deepseek
    ensures !Truthy(deepseek) ==> key == openrouter
    ensures Truthy(key) <==> Truthy(deepseek) || Truthy(openrouter)
  {
    if Truthy(deepseek) then deepseek else openrouter
  }

  /** How long the throttle sleeps when a call arrives at `now` and the last
      successful completion was at `last`: the least non-negative delay that
      puts the provider call at least `interval` after `last`. */
  function Wait(now: int, last: int, interval: int): (ms: int)
    ensures ms >= 0
    ensures now + ms >= last + interval
    ensures ms == 0 || now + ms == last + interval
  {
    var since := now - last;
    if since < interval then interval - since else 0
  }

  /** A failure of the chat-completion call: the HTTP status when there is
      one, and the error's message. */
  datatype ProviderError = ProviderError(status: Option<int>, message: string)

  /** What the chat-completion call yields: the first choice's content, or an
      error. */
  type Completion = Result<string, ProviderError>

  /** The message of the error `generateText` rethrows for a caught error. */
  function ServiceError(e: ProviderError): (message: string)
    ensures e.status == Some(429) ==> message == RateLimitMessage
    ensures e.status != Some(429) ==> message == ServiceErrorPrefix + e.message
  {
    if e.status == Some(429) then RateLimitMessage else ServiceErrorPrefix + e.message
  }

  /** The two message shapes can be told apart, and the original message can be
      read back from the second. */
  lemma ServiceErrorShapes(e: ProviderError)
    ensures StartsWith(ServiceError(e), ServiceErrorPrefix) <==> e.status != Some(429)
    ensures e.status != Some(429) ==> ServiceError(e)[|ServiceErrorPrefix|..] == e.message
  {
    if e.status == Some(429) {
      assert RateLimitMessage[0] == 'R' && ServiceErrorPrefix[0] == 'A';
    } else {
      var m := ServiceError(e);
      assert m[..|ServiceErrorPrefix|] == ServiceErrorPrefix;
    }
  }

  /** What `generateText` resolves to or rejects with, given the configured key
      and the provider's reply. Without a key the provider is not consulted and
      the inner "not configured" error goes through the same catch block. */
  function TextOutcome(apiKey: Option<string>, reply: Completion): (r: Result<string, string>)
    ensures !Truthy(apiKey) ==> r == Err(ServiceErrorPrefix + MissingKeyMessage)
    ensures Truthy(apiKey) && reply.Ok? ==> r == Ok(reply.value)
    ensures Truthy(apiKey) && reply.Err? ==> r == Err(ServiceError(reply.error))
  {
    if !Truthy(apiKey) then Err(ServiceError(ProviderError(None, MissingKeyMessage)))
    else match reply
      case Ok(text) => Ok(text)
      case Err(e) => Err(ServiceError(e))
  }

  /** One call that reached the provider: when it was issued, with which
      prompt, whether it succeeded and the clock reading after it. */
  datatype Dispatch = Dispatch(at: int, prompt: string, succeeded: bool, completedAt: int)

  /** The completion time of the latest successful call in `log`, or 0. */
  function LastSuccess(log: seq<Dispatch>): int {
    if log == [] then 0
    else if log[|log| - 1].succeeded then log[|log| - 1].completedAt
    else LastSuccess(log[..|log| - 1])
  }

  /** Every call in `log` was issued at least `interval` after the latest
      successful call before it completed. */
  ghost predicate Spaced(log: seq<Dispatch>, interval: int) {
    log == [] ||
    (Spaced(log[..|log| - 1], interval) &&
     log[|log| - 1].at >= LastSuccess(log[..|log| - 1]) + interval)
  }

  /** The spacing holds call by call: each call in a spaced log was issued at
      least `interval` after the latest success among the calls before it. */
  lemma {:induction false} SpacedAt(log: seq<Dispatch>, interval: int, i: int)
    requires Spaced(log, interval) && 0 <= i < |log|
    ensures log[i].at >= LastSuccess(log[..i]) + interval
  {
    var prefix := log[..|log| - 1];
    if i < |log| - 1 {
      SpacedAt(prefix, interval, i);
      assert prefix[..i] == log[..i];
    }
  }

  /** Appending a call issued late enough keeps a log spaced, and only a
      successful call moves the latest success time. */
  lemma SpacedAppend(log: seq<Dispatch>, interval: int, d: Dispatch)
    requires Spaced(log, interval)
    requires d.at >= LastSuccess(log) + interval
    ensures Spaced(log + [d], interval)
    ensures LastSuccess(log + [d]) == if d.succeeded then d.completedAt else LastSuccess(log)
  {
    assert (log + [d])[..|log|] == log;
  }

  // Each instruction is written as its distinguishing opening words followed
  // by the rest, so that the verifier can read the characters that tell the
  // three apart.
  const SummaryInstruction := "Create a comprehensive " + "and well-structured summary of the following text. Make it educational and easy to understand. Return only the summary without any additional text:"
  const FlashcardsInstruction := "Create educational " + "flashcards from the following text. Format each flashcard as \"Question | Answer\". Create 5-10 flashcards. Return only the flashcards without any additional text:"
  const QuizInstruction := "Create a quiz " + "with multiple choice questions from the following text. Format each question as \"Question? A) Option1 B) Option2 C) Option3 D) Option4 | CorrectAnswer\". Create 5 questions. Return only the quiz questions without any additional text:"

  /** The instruction each helper prompt builder puts before the text. */
  function Instruction(kind: ArtifactKind): string {
    match kind
    case Summary => SummaryInstruction
    case Flashcards => FlashcardsInstruction
    case Quiz => QuizInstruction
  }

  /** An instruction, a blank line, then the text. */
  function InstructionPrompt(instruction: string, text: string): (prompt: string)
    ensures |prompt| == |instruction| + 2 + |text|
    ensures StartsWith(prompt, instruction)
    ensures prompt[|prompt| - |text|..] == text
  {
    instruction + "\n\n" + text
  }

  /** The prompt `generateSummary`, `generateFlashcards` or `generateQuiz`
      sends: the kind's instruction, a blank line, then the whole text. */
  function HelperPrompt(kind: ArtifactKind, text: string): (prompt: string)
    ensures |prompt| == |Instruction(kind)| + 2 + |text|
    ensures StartsWith(prompt, Instruction(kind))
    ensures prompt[|prompt| - |text|..] == text
  {
    InstructionPrompt(Instruction(kind), text)
  }

  /** The character at index 9 of each instruction: "c", "u" and "q" tell the
      three apart. */
  function Marker(kind: ArtifactKind): char {
    match kind
    case Summary => 'c'
    case Flashcards => 'u'
    case Quiz => 'q'
  }

  lemma InstructionMarker(kind: ArtifactKind)
    ensures |Instruction(kind)| > 9 && Instruction(kind)[9] == Marker(kind)
  {
    match kind
    case Summary => assert SummaryInstruction[9] == 'c';
    case Flashcards => assert FlashcardsInstruction[9] == 'u';
    case Quiz => assert QuizInstruction[9] == 'q';
  }

  /** Two instruction prompts that are equal agree on every character of the
      shorter instruction, and carry the same text when the instructions are
      the same. */
  lemma InstructionPromptsEqual(a: string, t1: string, b: string, t2: string)
    requires InstructionPrompt(a, t1) == InstructionPrompt(b, t2)
    ensures |a| > 9 && |b| > 9 ==> a[9] == b[9]
    ensures a == b ==> t1 == t2
  {
    var p := InstructionPrompt(a, t1);
    if |a| > 9 && |b| > 9 {
      assert p[..|a|][9] == p[9] == p[..|b|][9];
    }
  }

  /** A helper prompt determines both the kind that built it and the full,
      untruncated text it carries. */
  lemma HelperPromptInjective(k1: ArtifactKind, t1: string, k2: ArtifactKind, t2: string)
    requires HelperPrompt(k1, t1) == HelperPrompt(k2, t2)
    ensures k1 == k2 && t1 == t2
  {
    InstructionMarker(k1);
    InstructionMarker(k2);
    InstructionPromptsEqual(Instruction(k1), t1, Instruction(k2), t2);
  }

  /** The single long-lived helper instance. */
  class AIHelper {
    const apiKey: Option<string>
    var lastRequestTime: int
    var minRequestInterval: int
    /** The calls that reached the provider, oldest first. */
    ghost var dispatched: seq<Dispatch>

    ghost predicate Valid()
      reads this
    {
      minRequestInterval == MinRequestInterval &&
      lastRequestTime == LastSuccess(dispatched) &&
      Spaced(dispatched, minRequestInterval)
    }

    /** Reads the two key variables once; a missing key only warns. */
    constructor (deepseekKey: Option<string>, openrouterKey: Option<string>)
      ensures Valid()
      ensures apiKey == SelectApiKey(deepseekKey, openrouterKey)
      ensures lastRequestTime == 0 && minRequestInterval == 3000
      ensures dispatched == []
    {
      apiKey := SelectApiKey(deepseekKey, openrouterKey);
      lastRequestTime := 0;
      minRequestInterval := 3000;
      dispatched := [];
    }

    /** `generateText(prompt, type)`: throttle, check the key, call the
        provider, record the completion time on success only, and map
        failures to the two message shapes. `kind` does not reach the
        request. `waited` is the delay the throttle slept. */
    method GenerateText(prompt: string, kind: ArtifactKind, now: int, completedAt: int, reply: Completion)
      returns (waited: int, result: Result<string, string>)
      requires Valid()
      modifies this`lastRequestTime, this`dispatched
      ensures Valid()
      ensures waited == Wait(now, old(lastRequestTime), minRequestInterval)
      ensures result == TextOutcome(apiKey, reply)
      ensures dispatched == if Truthy(apiKey)
                            then old(dispatched) + [Dispatch(now + waited, prompt, reply.Ok?, completedAt)]
                            else old(dispatched)
      ensures lastRequestTime == if Truthy(apiKey) && reply.Ok? then completedAt else old(lastRequestTime)
    {
      var timeSinceLastRequest := now - lastRequestTime;
      waited := 0;
      if timeSinceLastRequest < minRequestInterval {
        waited := minRequestInterval - timeSinceLastRequest;
      }
      if !Truthy(apiKey) {
        result := Err(ServiceError(ProviderError(None, MissingKeyMessage)));
        return;
      }
      var call := Dispatch(now + waited, prompt, reply.Ok?, completedAt);
      SpacedAppend(dispatched, minRequestInterval, call);
      dispatched := dispatched + [call];
      match reply {
        case Ok(text) =>
          lastRequestTime := completedAt;
          result := Ok(text);
        case Err(e) =>
          result := Err(ServiceError(e));
      }
    }

    /** `generateSummary(text)` */
    method GenerateSummary(text: string, now: int, completedAt: int, reply: Completion)
      returns (waited: int, result: Result<string, string>)
      requires Valid()
      modifies this`lastRequestTime, this`dispatched
      ensures Valid()
      ensures waited == Wait(now, old(lastRequestTime), minRequestInterval)
      ensures result == TextOutcome(apiKey, reply)
      ensures dispatched == if Truthy(apiKey)
                            then old(dispatched) + [Dispatch(now + waited, HelperPrompt(Summary, text), reply.Ok?, completedAt)]
                            else old(dispatched)
      ensures lastRequestTime == if Truthy(apiKey) && reply.Ok? then completedAt else old(lastRequestTime)
    {
      waited, result := GenerateText(HelperPrompt(Summary, text), Summary, now, completedAt, reply);
    }

    /** `generateFlashcards(text)` */
    method GenerateFlashcards(text: string, now: int, completedAt: int, reply: Completion)
      returns (waited: int, result: Result<string, string>)
      requires Valid()
      modifies this`lastRequestTime, this`dispatched
      ensures Valid()
      ensures waited == Wait(now, old(lastRequestTime), minRequestInterval)
      ensures result == TextOutcome(apiKey, reply)
      ensures dispatched == if Truthy(apiKey)
                            then old(dispatched) + [Dispatch(now + waited, HelperPrompt(Flashcards, text), reply.Ok?, completedAt)]
                            else old(dispatched)
      ensures lastRequestTime == if Truthy(apiKey) && reply.Ok? then completedAt else old(lastRequestTime)
    {
      waited, result := GenerateText(HelperPrompt(Flashcards, text), Flashcards, now, completedAt, reply);
    }

    /** `generateQuiz(text)` */
    method GenerateQuiz(text: string, now: int, completedAt: int, reply: Completion)
      returns (waited: int, result: Result<string, string>)
      requires Valid()
      modifies this`lastRequestTime, this`dispatched
      ensures Valid()
      ensures waited == Wait(now, old(lastRequestTime), minRequestInterval)
      ensures result == TextOutcome(apiKey, reply)
      ensures dispatched == if Truthy(apiKey)
                            then old(dispatched) + [Dispatch(now + waited, HelperPrompt(Quiz, text), reply.Ok?, completedAt)]
                            else old(dispatched)
      ensures lastRequestTime == if Truthy(apiKey) && reply.Ok? then completedAt else old(lastRequestTime)
    {
      waited, result := GenerateText(HelperPrompt(Quiz, text), Quiz, now, completedAt, reply);
    }
  }
}
