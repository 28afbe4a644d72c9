/** The `/summary`, `/flashcards` and `/quiz` handlers: input validation,
    the 6000-character prompt excerpt, cleaning of code fences from the
    model's output, the array check with its fixed fallbacks, and the
    response fields. `JSON.parse` is an oracle (`parse`), the generator's
    outcome is an input, and the HTTP response is a `Reply` value. */
module AiRoutes {
  import opened Wrappers
  import opened Strings
  import opened AiHelper

  /** A value `JSON.parse` can produce. Numbers are kept as integers; their
      value never matters here. */
  datatype Json =
    | JNull
    | JBool(b: bool)
    | JNumber(n: int)
    | JString(s: string)
    | JArray(items: seq<Json>)
    | JObject(members: seq<(string, Json)>)

  /** How many characters of the request text a prompt embeds. */
  const MaxTextChars := 6000

  const EmptyTextError := "Text is required and cannot be empty"
  const AiService := "OpenAI GPT-4"

  // ---------------------------------------------------------------------------
  // Prompts

  /** The indentation of the template literal's body lines. */
  const Indent := "            "

  /** A prompt template literal: what it holds before
      `${text.substring(0, 6000)}` and what it holds after. */
  datatype Template = Template(head: string, tail: string)

  /** The template literal of each handler. */
  function TemplateFor(kind: ArtifactKind): Template {
    match kind
    case Summary =>
      Template(
        "\n" + Indent + "Create a comprehensive and well-structured summary of the following text for students.\n"
        + Indent + "Make it educational, organized with clear sections, and highlight key concepts.\n"
        + Indent + "\n" + Indent + "TEXT:\n" + Indent,
        "\n" + Indent + "\n" + Indent + "Provide a detailed summary that helps with studying.\n        ")
    case Flashcards =>
      Template(
        "\n" + Indent + "Create 8-10 educational flashcards based on this text.\n"
        + Indent + "Each should have a clear question and concise answer.\n"
        + Indent + "\n" + Indent + "TEXT:\n" + Indent,
        "\n" + Indent + "\n" + Indent + "Return valid JSON format:\n"
        + Indent + "[{\"question\": \"Question?\", \"answer\": \"Answer.\"}]\n        ")
    case Quiz =>
      Template(
        "\n" + Indent + "Create a quiz with 6 multiple-choice questions based on this text.\n"
        + Indent + "Each question should have 4 options and one correct answer.\n"
        + Indent + "\n" + Indent + "TEXT:\n" + Indent,
        "\n" + Indent + "\n" + Indent + "Return valid JSON format:\n"
        + Indent + "[{\n"
        + Indent + "    \"question\": \"Question?\",\n"
        + Indent + "    \"options\": [\"A\", \"B\", \"C\", \"D\"],\n"
        + Indent + "    \"answer\": \"Correct Answer\"\n"
        + Indent + "}]\n        ")
  }

  /** The prompt a handler with template `t` sends. */
  function RoutePrompt(t: Template, text: string): string {
    t.head + Take(text, MaxTextChars) + t.tail
  }

  /** A route prompt holds the first `min(6000, |text|)` characters of the
      untrimmed request text, between the template's head and tail. */
  lemma RoutePromptShape(t: Template, text: string)
    ensures var prompt, excerpt := RoutePrompt(t, text), Take(text, MaxTextChars);
            |prompt| == |t.head| + |excerpt| + |t.tail| &&
            StartsWith(prompt, t.head) &&
            prompt[|t.head|..|t.head| + |excerpt|] == excerpt &&
            prompt[|t.head| + |excerpt|..] == t.tail
  {
  }

  /** The excerpt a prompt built from template `t` carries, read back out of
      the prompt. */
  function EmbeddedText(t: Template, prompt: string): string
    requires |t.head| + |t.tail| <= |prompt|
  {
    prompt[|t.head|..|prompt| - |t.tail|]
  }

  /** Reading the excerpt back out of a route prompt gives exactly
      `text.substring(0, 6000)`. */
  lemma RoutePromptExcerpt(t: Template, text: string)
    ensures |t.head| + |t.tail| <= |RoutePrompt(t, text)|
    ensures EmbeddedText(t, RoutePrompt(t, text)) == Take(text, MaxTextChars)
  {
    RoutePromptShape(t, text);
  }

  /** Two texts give the same prompt exactly when their first 6000 characters
      agree: nothing past the excerpt reaches the model. */
  lemma RoutePromptDeterminedByExcerpt(t: Template, text: string, other: string)
    ensures RoutePrompt(t, text) == RoutePrompt(t, other) <==>
            Take(text, MaxTextChars) == Take(other, MaxTextChars)
  {
    var p, q := RoutePrompt(t, text), RoutePrompt(t, other);
    RoutePromptExcerpt(t, text);
    RoutePromptExcerpt(t, other);
    if p == q {
      assert EmbeddedText(t, p) == EmbeddedText(t, q);
    }
  }

  // ---------------------------------------------------------------------------
  // Cleaning the model's output: `response.replace(/```json|```/g, '').trim()`

  const Fence := "```"
  const JsonFence := "```json"

  /** Three backticks start at index `i` of `s`. */
  predicate FenceAt(s: string, i: int) {
    0 <= i && i + 3 <= |s| && s[i] == '`' && s[i + 1] == '`' && s[i + 2] == '`'
  }

  /** `s` contains "```". */
  predicate HasFence(s: string) {
    exists i :: 0 <= i < |s| && FenceAt(s, i)
  }

  /** The global regex replacement: scanning left to right, an occurrence of
      "```json" (tried first) or "```" is deleted and the scan resumes after
      it; every other character is kept. It never lengthens its input. */
  function StripFences(s: string): (r: string)
    ensures |r| <= |s|
  {
    if s == [] then []
    else if StartsWith(s, JsonFence) then StripFences(s[7..])
    else if StartsWith(s, Fence) then StripFences(s[3..])
    else [s[0]] + StripFences(s[1..])
  }

  lemma FenceStart(s: string)
    ensures StartsWith(s, Fence) <==> FenceAt(s, 0)
    ensures StartsWith(s, JsonFence) ==> FenceAt(s, 0)
  {
    if FenceAt(s, 0) {
      assert s[..3] == Fence;
    }
    if StartsWith(s, JsonFence) {
      assert s[..7][..3] == s[..3] == Fence;
    }
  }

  /** The output cannot start with two backticks when the input does not. */
  lemma StripFencesHead(t: string)
    requires !(|t| >= 2 && t[0] == '`' && t[1] == '`')
    ensures var r := StripFences(t); !(|r| >= 2 && r[0] == '`' && r[1] == '`')
  {
    FenceStart(t);
    if |t| >= 2 && t[0] == '`' {
      var u := t[1..];
      FenceStart(u);
      assert StripFences(t) == [t[0]] + StripFences(u);
      assert StripFences(u) == [u[0]] + StripFences(u[1..]);
    }
  }

  /** Every "```" is gone from the result, including any that deleting an
      occurrence could have brought together. */
  lemma {:induction false} StripFencesRemovesAll(s: string)
    ensures !HasFence(StripFences(s))
  {
    if s != [] {
      FenceStart(s);
      if StartsWith(s, JsonFence) {
        StripFencesRemovesAll(s[7..]);
      } else if StartsWith(s, Fence) {
        StripFencesRemovesAll(s[3..]);
      } else {
        var t := s[1..];
        StripFencesRemovesAll(t);
        var rest := StripFences(t);
        var r := StripFences(s);
        assert r == [s[0]] + rest;
        if s[0] == '`' {
          assert !(|t| >= 2 && t[0] == '`' && t[1] == '`');
          StripFencesHead(t);
        }
        forall i | 0 <= i < |r| ensures !FenceAt(r, i) {
          if i > 0 && FenceAt(r, i) {
            assert FenceAt(rest, i - 1);
          }
        }
      }
    }
  }

  /** Text without "```" passes through unchanged. */
  lemma {:induction false} StripFencesKeeps(s: string)
    requires !HasFence(s)
    ensures StripFences(s) == s
  {
    if s != [] {
      FenceStart(s);
      assert !FenceAt(s, 0);
      var t := s[1..];
      assert !HasFence(t) by {
        forall i | 0 <= i < |t| ensures !FenceAt(t, i) {
          assert FenceAt(t, i) ==> FenceAt(s, i + 1);
        }
      }
      StripFencesKeeps(t);
    }
  }

  /** Text with a "```" strictly shrinks. */
  lemma {:induction false} StripFencesShrinks(s: string)
    requires HasFence(s)
    ensures |StripFences(s)| < |s|
  {
    FenceStart(s);
    if !StartsWith(s, JsonFence) && !StartsWith(s, Fence) {
      var i :| 0 <= i < |s| && FenceAt(s, i);
      assert i != 0;
      assert FenceAt(s[1..], i - 1);
      StripFencesShrinks(s[1..]);
    }
  }

  /** The replacement changes its input exactly when the input holds a fence. */
  lemma StripFencesFixedPoint(s: string)
    ensures StripFences(s) == s <==> !HasFence(s)
  {
    if HasFence(s) {
      StripFencesShrinks(s);
    } else {
      StripFencesKeeps(s);
    }
  }

  /** A piece of fence-free text is fence-free. */
  lemma NoFenceSlice(s: string, a: int, b: int)
    requires 0 <= a <= b <= |s|
    requires !HasFence(s)
    ensures !HasFence(s[a..b])
  {
    var t := s[a..b];
    forall i | 0 <= i < |t| ensures !FenceAt(t, i) {
      assert FenceAt(t, i) ==> FenceAt(s, a + i);
    }
  }

  /** Trimming fence-free text leaves it fence-free. */
  lemma NoFenceTrim(s: string)
    requires !HasFence(s)
    ensures !HasFence(Trim(s))
  {
    TrimSlice(s);
    var k := |s| - |TrimStart(s)|;
    NoFenceSlice(s, k, k + |Trim(s)|);
  }

  /** `response.replace(/```json|```/g, '').trim()`: the result holds no
      "```" and neither starts nor ends with whitespace. */
  function Clean(response: string): (r: string)
    ensures !HasFence(r)
    ensures r == [] || (!IsJsWhitespace(r[0]) && !IsJsWhitespace(r[|r| - 1]))
  {
    StripFencesRemovesAll(response);
    NoFenceTrim(StripFences(response));
    Trim(StripFences(response))
  }

  /** Cleaning a cleaned response changes nothing. */
  lemma CleanIdempotent(response: string)
    ensures Clean(Clean(response)) == Clean(response)
  {
    var c := Clean(response);
    StripFencesKeeps(c);
    TrimIdempotent(StripFences(response));
  }

  /** The fenced reply of a model that wraps its JSON in a markdown block
      cleans to the bare JSON. */
  lemma CleanFencedJson()
    ensures Clean("```json\n[]\n```") == "[]"
  {
    StripFencedJson();
    TrimNewlines();
  }

  lemma StripFencedJson()
    ensures StripFences("```json\n[]\n```") == "\n[]\n"
  {
    var s := "```json\n[]\n```";
    assert s[..7] == JsonFence;
    var a := s[7..];
    assert a == "\n[]\n```";
    StripKeptTail();
  }

  lemma StripKeptTail()
    ensures StripFences("\n[]\n```") == "\n[]\n"
  {
    var a := "\n[]\n```";
    KeptHead(a);
    var b := a[1..];
    assert b == "[]\n```";
    KeptHead(b);
    var c := b[1..];
    assert c == "]\n```";
    KeptHead(c);
    var d := c[1..];
    assert d == "\n```";
    KeptHead(d);
    var e := d[1..];
    assert e == "```" && e[..3] == Fence && !StartsWith(e, JsonFence);
    assert StripFences(e) == StripFences([]) == [];
  }

  lemma TrimNewlines()
    ensures Trim("\n[]\n") == "[]"
  {
    assert "\n[]\n" == "\n" + "[]" + "\n";
    TrimPadded("\n", "[]", "\n");
  }

  /** A first character other than a backtick is kept. */
  lemma KeptHead(s: string)
    requires s != [] && s[0] != '`'
    ensures StripFences(s) == [s[0]] + StripFences(s[1..])
  {
    FenceStart(s);
  }

  // ---------------------------------------------------------------------------
  // Fallback artifacts

  /** The value of the last member named `key` (the one `JSON.parse` keeps). */
  function Member(members: seq<(string, Json)>, key: string): Option<Json> {
    if members == [] then None
    else if members[|members| - 1].0 == key then Some(members[|members| - 1].1)
    else Member(members[..|members| - 1], key)
  }

  /** The string held by member `key` of object `j`, if there is one. */
  function StringMember(j: Json, key: string): Option<string> {
    if !j.JObject? then None
    else match Member(j.members, key)
      case Some(JString(v)) => Some(v)
      case _ => None
  }

  /** A flashcard object: non-empty string `question` and `answer`. */
  predicate IsFlashcard(j: Json) {
    StringMember(j, "question").Some? && StringMember(j, "question").value != "" &&
    StringMember(j, "answer").Some? && StringMember(j, "answer").value != ""
  }

  /** A quiz object: a string `question`, exactly four string `options`, and a
      string `answer` that is one of them. */
  predicate IsQuizItem(j: Json) {
    j.JObject? && StringMember(j, "question").Some? && StringMember(j, "answer").Some? &&
    match Member(j.members, "options")
    case Some(JArray(options)) =>
      |options| == 4 && (forall o <- options :: o.JString?) &&
      JString(StringMember(j, "answer").value) in options
    case _ => false
  }

  function FlashcardObject(question: string, answer: string): Json {
    JObject([("question", JString(question)), ("answer", JString(answer))])
  }

  /** The two flashcards the handler substitutes for unusable output. */
  function FallbackFlashcards(): (cards: seq<Json>)
    ensures |cards| == 2
    ensures forall c <- cards :: IsFlashcard(c)
  {
    [ FlashcardObject("What is the main topic?", "The text discusses important educational content."),
      FlashcardObject("Key concepts covered?", "Various important concepts are explained in the text.") ]
  }

  /** The single four-option question the handler substitutes for unusable
      output; its answer is "Subject A". */
  function FallbackQuiz(): (quiz: seq<Json>)
    ensures |quiz| == 1 && IsQuizItem(quiz[0])
    ensures StringMember(quiz[0], "answer") == Some("Subject A")
  {
    var options := [JString("Subject A"), JString("Subject B"), JString("Subject C"), JString("Subject D")];
    var members := [
      ("question", JString("What is the primary subject of this text?")),
      ("options", JArray(options)),
      ("answer", JString("Subject A"))];
    assert members[..2][..1] == members[..1];
    assert Member(members, "options") == Member(members[..2], "options") == Some(JArray(options));
    assert Member(members, "question") == Member(members[..2], "question") == Member(members[..1], "question");
    [JObject(members)]
  }

  /** What the handler sends as flashcards or quiz: the parsed array of the
      cleaned output exactly as parsed when it is an array, otherwise the
      fallback. */
  function ArtifactItems(response: string, parse: string -> Option<Json>, fallback: seq<Json>): (items: seq<Json>)
    ensures parse(Clean(response)).Some? && parse(Clean(response)).value.JArray? ==>
            items == parse(Clean(response)).value.items
    ensures !(parse(Clean(response)).Some? && parse(Clean(response)).value.JArray?) ==>
            items == fallback
  {
    match parse(Clean(response))
    case Some(JArray(parsed)) => parsed
    case _ => fallback
  }

  // ---------------------------------------------------------------------------
  // Handlers

  /** The JSON body a handler sends, by kind. `timestamp` is left out. */
  datatype Reply =
    | Rejected(error: string)
    | Failed(error: string, message: string)
    | SummaryReply(summary: string, originalLength: nat, summaryLength: nat, aiService: string)
    | FlashcardsReply(flashcards: seq<Json>, count: nat, aiService: string)
    | QuizReply(quiz: seq<Json>, count: nat, aiService: string)

  /** The HTTP status sent with a reply. */
  function Status(r: Reply): int {
    match r
    case Rejected(_) => 400
    case Failed(_, _) => 500
    case _ => 200
  }

  /** `!text || text.trim().length === 0` for an absent or string `text`. */
  predicate MissingText(body: Option<string>) {
    body.None? || IsBlank(body.value)
  }

  /** A request is rejected exactly when it has no text or its trimmed text
      has length zero. */
  lemma MissingTextTrim(body: Option<string>)
    ensures MissingText(body) <==> body.None? || |Trim(body.value)| == 0
  {
  }

  /** What every generation failure's `error` string begins with. */
  const FailurePrefix := "Failed to generate "

  /** The `error` string of a generation failure, by kind: it names what could
      not be generated, so the three routes' failures are told apart. */
  function FailureLabel(kind: ArtifactKind): (message: string)
    ensures StartsWith(message, FailurePrefix) && |message| > |FailurePrefix|
  {
    match kind
    case Summary => FailurePrefix + "summary"
    case Flashcards => FailurePrefix + "flashcards"
    case Quiz => FailurePrefix + "quiz"
  }

  /** Different routes fail with different messages. */
  lemma FailureLabelsDistinct(kind: ArtifactKind, other: ArtifactKind)
    ensures FailureLabel(kind) == FailureLabel(other) ==> kind == other
  {
  }

  /** The reply of a handler whose generator produced `output` for the
      request text `text`. */
  function Success(kind: ArtifactKind, text: string, output: string, parse: string -> Option<Json>): (reply: Reply)
    ensures kind == Summary ==> reply == SummaryReply(output, |text|, |output|, AiService)
    ensures kind == Flashcards ==>
            reply.FlashcardsReply? && reply.count == |reply.flashcards| && reply.aiService == AiService &&
            reply.flashcards == ArtifactItems(output, parse, FallbackFlashcards())
    ensures kind == Quiz ==>
            reply.QuizReply? && reply.count == |reply.quiz| && reply.aiService == AiService &&
            reply.quiz == ArtifactItems(output, parse, FallbackQuiz())
  {
    match kind
    case Summary => SummaryReply(output, |text|, |output|, AiService)
    case Flashcards =>
      var cards := ArtifactItems(output, parse, FallbackFlashcards());
      FlashcardsReply(cards, |cards|, AiService)
    case Quiz =>
      var quiz := ArtifactItems(output, parse, FallbackQuiz());
      QuizReply(quiz, |quiz|, AiService)
  }

  /** A handler, given the request's `text`, the generator's outcome for
      `RoutePrompt(TemplateFor(kind), text)` (its text, or the message of its
      error) and the JSON parser. */
  function Handle(kind: ArtifactKind, body: Option<string>, generated: Result<string, string>,
                  parse: string -> Option<Json>): (reply: Reply)
    ensures Status(reply) == 400 <==> MissingText(body)
    ensures MissingText(body) ==> reply == Rejected(EmptyTextError)
    ensures !MissingText(body) && generated.Err? ==>
            reply == Failed(FailureLabel(kind), generated.error)
    ensures !MissingText(body) && generated.Ok? ==>
            reply == Success(kind, body.value, generated.value, parse)
  {
    if MissingText(body) then Rejected(EmptyTextError)
    else match generated
      case Err(message) => Failed(FailureLabel(kind), message)
      case Ok(output) => Success(kind, body.value, output, parse)
  }

  /** A successful flashcards or quiz reply is never empty-handed on bad
      output: either the model's array came through untouched, or the
      well-formed fallback was sent. */
  lemma ArtifactSource(kind: ArtifactKind, text: string, output: string, parse: string -> Option<Json>)
    requires !IsBlank(text) && kind != Summary
    ensures var reply := Handle(kind, Some(text), Ok(output), parse);
            var items := if kind == Flashcards then reply.flashcards else reply.quiz;
            parse(Clean(output)) == Some(JArray(items)) ||
            (kind == Flashcards && items == FallbackFlashcards() && forall c <- items :: IsFlashcard(c)) ||
            (kind == Quiz && items == FallbackQuiz() && |items| == 1 && IsQuizItem(items[0]))
  {
  }

  /** The `/summary`, `/flashcards` or `/quiz` route as it runs against the
      helper instance, for a handler whose template literal is `t`
      (`TemplateFor(kind)` in the source): a rejected request leaves the helper
      untouched and reaches no provider; an accepted one hands
      `RoutePrompt(t, text)` to `generateText` and turns its outcome into the
      reply. */
  method Serve(ai: AIHelper, kind: ArtifactKind, t: Template, body: Option<string>, now: int,
               completedAt: int, reply: Completion, parse: string -> Option<Json>)
    returns (r: Reply)
    requires ai.Valid()
    modifies ai`lastRequestTime, ai`dispatched
    ensures ai.Valid()
    ensures r == Handle(kind, body, TextOutcome(ai.apiKey, reply), parse)
    ensures MissingText(body) ==>
            ai.dispatched == old(ai.dispatched) && ai.lastRequestTime == old(ai.lastRequestTime)
    ensures !MissingText(body) && Truthy(ai.apiKey) ==>
            ai.dispatched == old(ai.dispatched) +
              [Dispatch(now + Wait(now, old(ai.lastRequestTime), MinRequestInterval),
                        RoutePrompt(t, body.value), reply.Ok?, completedAt)]
    ensures !MissingText(body) && !Truthy(ai.apiKey) ==> ai.dispatched == old(ai.dispatched)
    ensures !MissingText(body) ==>
            ai.lastRequestTime == if Truthy(ai.apiKey) && reply.Ok? then completedAt else old(ai.lastRequestTime)
  {
    if MissingText(body) {
      r := Rejected(EmptyTextError);
    } else {
      var prompt := RoutePrompt(t, body.value);
      var _, generated := ai.GenerateText(prompt, kind, now, completedAt, reply);
      r := Handle(kind, body, generated, parse);
    }
  }
}
