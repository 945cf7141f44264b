/** The upstream response normaliser. The completion API answers in one of
    two JSON shapes, told apart only by which field is present: an
    OpenAI-style `choices` array or a Gemini-style `candidates` array. The
    normaliser tries them in that order and falls back to a placeholder so
    that the answer is never empty. A property read on a JSON `null` throws,
    which the model returns as `Err(TypeError)`. */
module Normalizer {
  import opened Results
  import opened Text

  /** An element of a `parts` array: `null`, or an object with an optional `text`. */
  datatype Part = NullPart | Part(text: Option<string>)

  /** `choices[i].message`: optional `content` and `parts`. */
  datatype ChoiceMessage = ChoiceMessage(content: Option<string>, parts: Option<seq<Part>>)

  /** An element of `choices`: `null`, or an object with an optional
      `message` (a `null` message reads as missing) and an optional `text`. */
  datatype Choice = NullChoice | Choice(message: Option<ChoiceMessage>, text: Option<string>)

  /** `candidates[i].content`: optional `parts`. */
  datatype Content = Content(parts: Option<seq<Part>>)

  /** An element of `candidates`: `null`, or an object with optional `content`. */
  datatype Candidate = NullCandidate | Candidate(content: Option<Content>)

  /** The parsed upstream body: `null`, or an object with optional
      `choices` and `candidates` arrays. */
  datatype Body = NullBody | Body(choices: Option<seq<Choice>>, candidates: Option<seq<Candidate>>)

  /** Which shape the body was read as: the first choice, the first
      candidate, or neither. */
  datatype Shape = OpenAIStyle(choice: Choice) | GeminiStyle(candidate: Candidate) | Unrecognized

  /** The answer given when the body yields no text. */
  const Placeholder: string := "[Empty response]"

  /** The separator between the texts of several parts. */
  const PartSeparator: string := "\n"

  /** The array is present and has at least one element (`a?.length > 0`). */
  predicate NonEmpty<T>(a: Option<seq<T>>)
  {
    a.Some? && |a.value| > 0
  }

  /** The text of a non-null part, a missing text read as `""`. */
  function PartText(p: Part): (t: string)
    requires p.Part?
  {
    OrElse(p.text, "")
  }

  /** `parts.map(p => p.text || "")`, throwing on a `null` part. */
  function PartTexts(parts: seq<Part>): (r: Result<seq<string>>)
    ensures r.Ok? <==> forall i :: 0 <= i < |parts| ==> parts[i].Part?
    ensures r.Ok? ==> |r.value| == |parts|
    ensures r.Ok? ==> forall i :: 0 <= i < |parts| ==> r.value[i] == PartText(parts[i])
    ensures r.Err? ==> r.error == TypeError
  {
    if |parts| == 0 then Ok([])
    else if parts[0].NullPart? then Err(TypeError)
    else
      match PartTexts(parts[1..])
      case Ok(rest) => Ok([PartText(parts[0])] + rest)
      case Err(e) => Err(e)
  }

  /** Some element of a `parts` array is `null`. */
  ghost predicate HasNullPart(parts: seq<Part>)
  {
    exists i :: 0 <= i < |parts| && parts[i].NullPart?
  }

  /** The texts of the parts joined by newlines; a `null` part throws. */
  function JoinParts(parts: seq<Part>): (r: Result<string>)
    ensures r.Err? <==> HasNullPart(parts)
    ensures r.Err? ==> r.error == TypeError
    ensures r.Ok? ==> r.value == Join(PartTexts(parts).value, PartSeparator)
  {
    match PartTexts(parts)
    case Ok(texts) => Ok(Join(texts, PartSeparator))
    case Err(e) => Err(e)
  }

  /** Reads the shape of the body; reading `choices` of a `null` body throws. */
  function Classify(data: Body): (r: Result<Shape>)
    ensures r.Err? <==> data.NullBody?
    ensures r.Ok? && r.value.OpenAIStyle? <==> data.Body? && NonEmpty(data.choices)
    ensures r.Ok? && r.value.GeminiStyle? <==>
              data.Body? && !NonEmpty(data.choices) && NonEmpty(data.candidates)
    ensures r.Ok? && r.value.OpenAIStyle? ==> r.value.choice == data.choices.value[0]
    ensures r.Ok? && r.value.GeminiStyle? ==> r.value.candidate == data.candidates.value[0]
  {
    match data
    case NullBody => Err(TypeError)
    case Body(choices, candidates) =>
      if NonEmpty(choices) then Ok(OpenAIStyle(choices.value[0]))
      else if NonEmpty(candidates) then Ok(GeminiStyle(candidates.value[0]))
      else Ok(Unrecognized)
  }

  /** The answer read from the first choice: its message content when that
      is a non-empty string, else its own text when that is, else the texts
      of the message parts joined by newlines, else the empty string. A part
      without text joins as `""`, as in the candidates branch. */
  function ChoiceAnswer(c: Choice): (r: Result<string>)
    ensures c.NullChoice? ==> r == Err(TypeError)
    // The first operand: a truthy `message.content`.
    ensures c.Choice? && c.message.Some? && Truthy(c.message.value.content)
            ==> r == Ok(c.message.value.content.value)
    // The second operand: a truthy `text`, when the content is falsy.
    ensures c.Choice? && !(c.message.Some? && Truthy(c.message.value.content)) && Truthy(c.text)
            ==> r == Ok(c.text.value)
    // The third operand: the part texts joined by newlines; a `null` part throws.
    ensures c.Choice? && !(c.message.Some? && Truthy(c.message.value.content)) && !Truthy(c.text)
            && c.message.Some? && c.message.value.parts.Some?
            ==> && (r.Err? <==> HasNullPart(c.message.value.parts.value))
                && (r.Ok? ==> r.value == Join(PartTexts(c.message.value.parts.value).value, PartSeparator))
    // Nothing usable: the empty string, which the caller replaces.
    ensures c.Choice? && !(c.message.Some? && Truthy(c.message.value.content)) && !Truthy(c.text)
            && !(c.message.Some? && c.message.value.parts.Some?)
            ==> r == Ok("")
    ensures r.Err? ==> r.error == TypeError
  {
    match c
    case NullChoice => Err(TypeError)
    case Choice(message, text) =>
      var content := if message.Some? then message.value.content else None;
      if Truthy(content) then Ok(content.value)
      else if Truthy(text) then Ok(text.value)
      else if message.Some? && message.value.parts.Some? then JoinParts(message.value.parts.value)
      else Ok("")
  }

  /** `candidate.content?.parts || []`: a missing `content` or `parts`
      reads as no parts. */
  function CandidateParts(c: Candidate): (parts: seq<Part>)
    requires c.Candidate?
    ensures c.content.None? || c.content.value.parts.None? ==> parts == []
    ensures c.content.Some? && c.content.value.parts.Some? ==> parts == c.content.value.parts.value
  {
    if c.content.Some? && c.content.value.parts.Some? then c.content.value.parts.value else []
  }

  /** `(candidate.content?.parts || []).map(p => p.text || "").join("\n")`. */
  function CandidateAnswer(c: Candidate): (r: Result<string>)
    ensures c.NullCandidate? ==> r == Err(TypeError)
    ensures c.Candidate? ==> (r.Err? <==> HasNullPart(CandidateParts(c)))
    ensures c.Candidate? && r.Ok? ==> r.value == Join(PartTexts(CandidateParts(c)).value, PartSeparator)
    ensures c.Candidate? && (c.content.None? || c.content.value.parts.None?) ==> r == Ok("")
    ensures r.Err? ==> r.error == TypeError
  {
    match c
    case NullCandidate => Err(TypeError)
    case Candidate(_) => JoinParts(CandidateParts(c))
  }

  /** The answer read from a shape, before the placeholder is applied. */
  function ShapeAnswer(shape: Shape): (r: Result<string>)
  {
    match shape
    case OpenAIStyle(c) => ChoiceAnswer(c)
    case GeminiStyle(c) => CandidateAnswer(c)
    case Unrecognized => Ok("")
  }

  /** The reads of the body that dereference `null`. */
  ghost predicate Throws(data: Body)
  {
    || data.NullBody?
    || (NonEmpty(data.choices) &&
        var c := data.choices.value[0];
        || c.NullChoice?
        || (&& !(c.message.Some? && Truthy(c.message.value.content))
            && !Truthy(c.text)
            && c.message.Some? && c.message.value.parts.Some?
            && exists i :: 0 <= i < |c.message.value.parts.value| && c.message.value.parts.value[i].NullPart?))
    || (!NonEmpty(data.choices) && NonEmpty(data.candidates) &&
        var c := data.candidates.value[0];
        || c.NullCandidate?
        || (&& c.content.Some? && c.content.value.parts.Some?
            && exists i :: 0 <= i < |c.content.value.parts.value| && c.content.value.parts.value[i].NullPart?))
  }

  /** The normalised answer: never empty, and a failure exactly when a read
      of the body dereferences `null`. */
  function Normalize(data: Body): (r: Result<string>)
    ensures r.Ok? ==> r.value != ""
    ensures r.Err? <==> Throws(data)
    ensures r.Err? ==> r.error == TypeError
  {
    match Classify(data)
    case Err(e) => Err(e)
    case Ok(shape) =>
      match ShapeAnswer(shape)
      case Err(e) => Err(e)
      case Ok(answer) => Ok(if answer == "" then Placeholder else answer)
  }

  /** Only the shape matters: bodies read as the same shape normalise alike.
      In particular, a non-empty `choices` hides `candidates` entirely. */
  lemma SameShapeSameAnswer(a: Body, b: Body)
    requires Classify(a) == Classify(b)
    ensures Normalize(a) == Normalize(b)
  {
  }

  /** A non-empty `choices` wins over whatever `candidates` holds. */
  lemma ChoicesWin(choices: seq<Choice>, x: Option<seq<Candidate>>, y: Option<seq<Candidate>>)
    requires |choices| > 0
    ensures Normalize(Body(Some(choices), x)) == Normalize(Body(Some(choices), y))
  {
    SameShapeSameAnswer(Body(Some(choices), x), Body(Some(choices), y));
  }

  /** Within the first choice, a non-empty `message.content` comes first. */
  lemma ContentFirst(choices: seq<Choice>, candidates: Option<seq<Candidate>>, s: string)
    requires |choices| > 0 && choices[0].Choice? && choices[0].message.Some?
    requires choices[0].message.value.content == Some(s) && s != ""
    ensures Normalize(Body(Some(choices), candidates)) == Ok(s)
  {
  }

  /** Then a non-empty `text`, when the content is missing or empty. */
  lemma TextSecond(choices: seq<Choice>, candidates: Option<seq<Candidate>>, s: string)
    requires |choices| > 0 && choices[0].Choice?
    requires !(choices[0].message.Some? && Truthy(choices[0].message.value.content))
    requires choices[0].text == Some(s) && s != ""
    ensures Normalize(Body(Some(choices), candidates)) == Ok(s)
  {
  }

  /** Then the texts of `message.parts`, joined by newlines; an empty join
      gives the placeholder. */
  lemma PartsThird(choices: seq<Choice>, candidates: Option<seq<Candidate>>, parts: seq<Part>)
    requires |choices| > 0 && choices[0].Choice? && choices[0].message.Some?
    requires !Truthy(choices[0].message.value.content) && !Truthy(choices[0].text)
    requires choices[0].message.value.parts == Some(parts)
    requires forall i :: 0 <= i < |parts| ==> parts[i].Part?
    ensures var joined := Join(seq(|parts|, i requires 0 <= i < |parts| => PartText(parts[i])), PartSeparator);
            Normalize(Body(Some(choices), candidates)) == Ok(if joined == "" then Placeholder else joined)
  {
    var texts := PartTexts(parts).value;
    assert texts == seq(|parts|, i requires 0 <= i < |parts| => PartText(parts[i]));
  }

  /** A first choice that yields nothing gives the placeholder; the
      normaliser does not fall through to `candidates`. */
  lemma NoFallThrough(choices: seq<Choice>, candidates: Option<seq<Candidate>>)
    requires |choices| > 0 && choices[0].Choice?
    requires !Truthy(choices[0].text)
    requires choices[0].message.None?
             || (!Truthy(choices[0].message.value.content) && choices[0].message.value.parts.None?)
    ensures Normalize(Body(Some(choices), candidates)) == Ok(Placeholder)
  {
  }

  /** Without choices, the first candidate's part texts joined by newlines;
      missing `content` or `parts` reads as no parts. */
  lemma CandidatesJoined(choices: Option<seq<Choice>>, candidates: seq<Candidate>, parts: seq<Part>)
    requires !NonEmpty(choices) && |candidates| > 0 && candidates[0].Candidate?
    requires (candidates[0].content.Some? && candidates[0].content.value.parts == Some(parts))
             || (parts == [] && (candidates[0].content.None? || candidates[0].content.value.parts.None?))
    requires forall i :: 0 <= i < |parts| ==> parts[i].Part?
    ensures var joined := Join(seq(|parts|, i requires 0 <= i < |parts| => PartText(parts[i])), PartSeparator);
            Normalize(Body(choices, Some(candidates))) == Ok(if joined == "" then Placeholder else joined)
  {
    var texts := PartTexts(parts).value;
    assert texts == seq(|parts|, i requires 0 <= i < |parts| => PartText(parts[i]));
  }

  /** Two parts without text join to a single newline, which is not empty
      and so is not replaced by the placeholder. */
  lemma TwoEmptyPartsGiveNewline()
    ensures Normalize(Body(None, Some([Candidate(Some(Content(Some([Part(None), Part(Some(""))]))))])))
            == Ok("\n")
  {
    var parts := [Part(None), Part(Some(""))];
    var texts: seq<string> := ["", ""];
    var r := PartTexts(parts);
    assert r.Ok?;
    assert PartText(parts[0]) == "" && PartText(parts[1]) == "";
    assert r.value == texts;
    assert texts[1..] == [""];
    assert Join(texts, PartSeparator) == texts[0] + PartSeparator + Join([""], PartSeparator);
    assert Join([""], PartSeparator) == "";
    assert "" + PartSeparator + "" == "\n";
    assert JoinParts(parts) == Ok("\n");
  }

  /** A body with neither non-empty array gives the placeholder. */
  lemma UnrecognizedGivesPlaceholder(choices: Option<seq<Choice>>, candidates: Option<seq<Candidate>>)
    requires !NonEmpty(choices) && !NonEmpty(candidates)
    ensures Normalize(Body(choices, candidates)) == Ok(Placeholder)
  {
  }
}
