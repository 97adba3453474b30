/** `Service/GeminiService.java`: the prompt built for an operation, the text
    taken out of a Gemini reply, and `processContent`, which turns every
    failure into one fixed apology instead of raising it. */
module Gemini {
  import opened Wrappers
  import opened Api

  const Unavailable := "AI service temporarily unavailable. Please try again later."
  const NoCandidates := "No candidates found in response"
  const NoContent := "No content found in response"
  const DefaultField := "general"

  /** A context that is null or empty counts as absent. */
  predicate Blank(context: Option<string>) {
    context.None? || context.value == ""
  }

  const SummarizeForFieldLead := "Summarize this text for the field of "
  const SummarizeForFieldTail := " in a few concise lines. Highlight important words using <b>bold</b> tags:\n\n"
  const SummarizeLead := "Summarize this text in a few concise lines. Highlight important words using <b>bold</b> tags:\n\n"
  const SuggestLead := "You are an expert in "
  const SuggestTail := ". Provide a list of topics or notes relevant to this field, highlighting important words using <b>bold</b> tags, one per line:\n\n"

  /** The instruction placed in front of the content for an operation. */
  function Preamble(operation: string, context: Option<string>): string {
    if operation == "summarize" then
      if Blank(context) then SummarizeLead
      else SummarizeForFieldLead + context.value + SummarizeForFieldTail
    else if operation == "suggest" then
      SuggestLead + (if Blank(context) then DefaultField else context.value) + SuggestTail
    else ""
  }

  /** `buildPrompt`.  `None` when the operation is null: the `switch` on it
      raises a NullPointerException. */
  function BuildPrompt(req: ResearchRequest): (r: Option<string>)
    ensures r.None? <==> req.operation.None?
    ensures r.Some? ==>
      var c := Appended(req.content);
      |c| <= |r.value| && r.value[|r.value| - |c|..] == c
    ensures req.operation == Some("summarize") && !Blank(req.context) ==>
      r == Some(SummarizeForFieldLead + req.context.value + SummarizeForFieldTail + Appended(req.content))
    ensures req.operation == Some("summarize") && Blank(req.context) ==>
      r == Some(SummarizeLead + Appended(req.content))
    ensures req.operation == Some("suggest") ==>
      r == Some(SuggestLead + (if Blank(req.context) then DefaultField else req.context.value)
                + SuggestTail + Appended(req.content))
    ensures req.operation.Some? && req.operation.value != "summarize" && req.operation.value != "suggest" ==>
      r == Some(Appended(req.content))
  {
    match req.operation
    case None => None
    case Some(op) => Some(Preamble(op, req.context) + Appended(req.content))
  }

  /** A null context and an empty one give the same prompt. */
  lemma NullAndEmptyContextAgree(req: ResearchRequest)
    ensures BuildPrompt(req.(context := None)) == BuildPrompt(req.(context := Some("")))
  {
  }

  /** For a fixed operation and context the prompt determines the content:
      two requests that differ only in their content give different prompts. */
  lemma PromptDeterminesContent(req: ResearchRequest, other: Option<string>)
    requires req.operation.Some?
    requires Appended(other) != Appended(req.content)
    ensures BuildPrompt(req.(content := other)) != BuildPrompt(req)
  {
  }

  /** `extractText`. */
  function ExtractText(resp: GeminiResponse): (r: Option<string>)
    ensures !HasCandidates(resp) ==> r == Some(NoCandidates)
    ensures HasFirstPart(resp) ==> r == FirstPartText(resp)
    ensures HasCandidates(resp) && !HasFirstPart(resp) ==> r == Some(NoContent)
  {
    if !HasCandidates(resp) then Some(NoCandidates)
    else if HasFirstPart(resp) then FirstPartText(resp)
    else Some(NoContent)
  }

  /** What the WebClient call, with its retries on 503 and its recovery from
      error responses, hands back to `processContent`: a parsed reply, nothing
      (an empty body or a recovered error response), or an exception. */
  datatype CallOutcome = Responded(response: GeminiResponse) | NoResponse | Threw

  /** `processContent`.  It never raises: a null operation, a missing reply
      and every exception all yield the fixed apology. */
  function ProcessContent(req: ResearchRequest, call: CallOutcome): (r: Option<string>)
    ensures req.operation.None? || !call.Responded? ==> r == Some(Unavailable)
    ensures req.operation.Some? && call.Responded? ==> r == ExtractText(call.response)
  {
    match BuildPrompt(req)
    case None => Some(Unavailable)
    case Some(_) =>
      match call
      case Responded(resp) => ExtractText(resp)
      case _ => Some(Unavailable)
  }

  /** The caller receives a non-null string in every case but one: a reply
      whose first part carries a null text. */
  lemma ProcessContentNullOnlyFromNullText(req: ResearchRequest, call: CallOutcome)
    ensures ProcessContent(req, call).None? <==>
      req.operation.Some? && call.Responded? && HasFirstPart(call.response)
      && FirstPartText(call.response).None?
  {
  }
}
