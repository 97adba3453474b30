/** The data the two backend services exchange: the `/process` request body
    and the parsed reply of the Gemini API. */
module Api {
  import opened Wrappers

  /** The body of a `/process` request; a field missing from the JSON is `None`. */
  datatype ResearchRequest = ResearchRequest(
    content: Option<string>,
    operation: Option<string>,
    context: Option<string>,
    saveToDatabase: bool)

  /** The parsed Gemini reply: candidates, each holding content made of parts
      that carry text.  A JSON `null` or a missing field is `None`. */
  datatype Part = Part(text: Option<string>)
  datatype Content = Content(parts: Option<seq<Part>>)
  datatype Candidate = Candidate(content: Option<Content>)
  datatype GeminiResponse = GeminiResponse(candidates: Option<seq<Candidate>>)

  /** The reply has at least one candidate. */
  predicate HasCandidates(resp: GeminiResponse) {
    resp.candidates.Some? && resp.candidates.value != []
  }

  /** The first candidate has content with at least one part. */
  predicate HasFirstPart(resp: GeminiResponse) {
    && HasCandidates(resp)
    && resp.candidates.value[0].content.Some?
    && resp.candidates.value[0].content.value.parts.Some?
    && resp.candidates.value[0].content.value.parts.value != []
  }

  /** The text of part 0 of candidate 0 (`None` when that text is null). */
  function FirstPartText(resp: GeminiResponse): Option<string>
    requires HasFirstPart(resp)
  {
    resp.candidates.value[0].content.value.parts.value[0].text
  }

  /** What `StringBuilder.append(String)` appends: the text, or the four
      characters "null" for a null reference. */
  function Appended(s: Option<string>): (r: string)
    ensures s.None? ==> r == "null"
    ensures s.Some? ==> r == s.value
  {
    if s.Some? then s.value else "null"
  }
}
