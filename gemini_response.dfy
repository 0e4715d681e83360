/** The shape of a reply object from `google.generativeai`, as far as the
    generator reads it.  The AIpipe wrapper builds objects of the same shape. */
module GeminiResponse {
  import opened Wrappers

  /** One part of a reply; `text` is `None` when the part has no `text` attribute. */
  datatype Part = Part(text: Option<string>)

  /** One candidate; `parts` is `None` when its content has no `parts` attribute. */
  datatype Candidate = Candidate(parts: Option<seq<Part>>)

  /** A reply: `text` is `None` when reading `response.text` raises (as the
      Gemini client does for replies that are not a single text part);
      `parts` and `candidates` are `None` when the attribute is absent;
      `repr` is `str(response)`. */
  datatype Response = Response(
    text: Option<string>,
    parts: Option<seq<Part>>,
    candidates: Option<seq<Candidate>>,
    repr: string)
}
