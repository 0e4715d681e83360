/** `AIpipeGenerator` (aipipe_generator.py): the request it sends to the
    OpenRouter proxy and the `AIpipeResponse` wrapper that reshapes the
    OpenAI-style reply into the Gemini reply shape.  The HTTP call itself is
    not modelled: its outcome is an input of the generator model. */
module AIpipeGenerator {
  import opened Wrappers
  import GeminiResponse

  /** `choices[i]['message']`; `content` is `None` when the key is absent. */
  datatype Message = Message(content: Option<string>)

  /** `choices[i]`; `message` is `None` when the key is absent. */
  datatype Choice = Choice(message: Option<Message>)

  /** The decoded JSON reply; `choices` is `None` when the key is absent. */
  datatype OpenRouterReply = OpenRouterReply(choices: Option<seq<Choice>>)

  /** The chat-completions request body. */
  datatype ChatRequest = ChatRequest(
    model: string,
    messages: seq<(string, string)>,
    temperature: real,
    maxTokens: nat)

  /** An `AIpipeResponse`: the reply text and the Gemini-style structures
      built around it. */
  datatype AIpipeResponse = AIpipeResponse(
    text: string,
    candidates: seq<GeminiResponse.Candidate>,
    parts: seq<GeminiResponse.Part>,
    raw: OpenRouterReply)

  const Model := "google/gemini-2.0-flash-lite-001"

  /** The body `generate_content(prompt)` posts: one user message holding the
      prompt, with sampling fixed at temperature 0.7 and 8192 tokens; the
      method takes no sampling configuration from its caller. */
  function ChatPayload(prompt: string): (req: ChatRequest)
    ensures req.messages == [("user", prompt)]
    ensures req.temperature == 0.7 && req.maxTokens == 8192
  {
    ChatRequest(Model, [("user", prompt)], 0.7, 8192)
  }

  /** The content of the first choice's message, when the reply has one. */
  predicate HasContent(reply: OpenRouterReply) {
    && reply.choices.Some? && |reply.choices.value| > 0
    && reply.choices.value[0].message.Some?
    && reply.choices.value[0].message.value.content.Some?
  }

  /** `AIpipeResponse(openrouter_response)`. */
  function Normalize(reply: OpenRouterReply): (r: AIpipeResponse)
    ensures HasContent(reply) ==> r.text == reply.choices.value[0].message.value.content.value
    ensures !HasContent(reply) ==> r.text == ""
    ensures |r.candidates| == 1
    ensures r.candidates[0].parts == Some([GeminiResponse.Part(Some(r.text))])
    ensures |r.parts| == (if r.text != "" then 1 else 0)
    ensures forall p :: p in r.parts ==> p.text == Some(r.text)
    ensures r.raw == reply
  {
    var text :=
      if reply.choices.Some? && |reply.choices.value| > 0 then
        var choice := reply.choices.value[0];
        if choice.message.Some? && choice.message.value.content.Some?
        then choice.message.value.content.value
        else ""
      else "";
    var part := GeminiResponse.Part(Some(text));
    AIpipeResponse(text, [GeminiResponse.Candidate(Some([part]))],
                   if text != "" then [part] else [], reply)
  }

  /** The wrapper seen through the Gemini reply shape: `.text` always reads
      successfully.  `repr` is `str()` of the wrapper object. */
  function AsResponse(r: AIpipeResponse, repr: string): (g: GeminiResponse.Response)
    ensures g.text == Some(r.text)
  {
    GeminiResponse.Response(Some(r.text), Some(r.parts), Some(r.candidates), repr)
  }
}
