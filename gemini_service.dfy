/**
 * The generation client: the prompt template sent for an excuse, the
 * request sent for a chat turn, and the fallbacks that replace an empty
 * model answer. The remote model itself is not modelled: the text it
 * returns is an input, `None` when the SDK gives no text at all.
 */
module GeminiService {
  import opened Types

  const ModelId := "gemini-3-flash-preview"

  const ExcuseFallback := "I couldn't generate an excuse. Maybe try a different reason category?"
  const ChatFallback := "I'm having a bit of a creative block. What else you got?"

  /** The assistant persona; it is fixed text, not built from any request. */
  const SystemInstruction := "You are the 'Excuse Assistant'. You help people refine their excuses to sound more believable and appropriate for their recipients. You are witty, slightly mischievous, but always professional in your advice. Never suggest illegal or harmful lies. Focus on social 'white lies' and logistical smoothing."

  // The fixed pieces of the excuse prompt, in template order.
  const Intro := "Generate a human-written, authentic-sounding excuse. \n  \n  CONTEXT:\n  - Intended Recipient: "
  const SituationLabel := "\n  - The Situation: "
  const ReasonLabel := "\n  - Category of Reason: "
  const ToneLabel := "\n  - Tone to use: "
  const DetailsLabel := "\n  - Extra Details provided: "
  const Guidelines := "\n\n  GUIDELINES:\n  1. DO NOT mention medical or legal issues.\n  2. Sound like a real person, not an AI. Use natural contractions and slightly informal phrasing if the recipient is a friend/partner.\n  3. Be concise. Most human excuses are short.\n  4. If the recipient is a \"Boss\" or \"Client\", be respectful but firm.\n  5. Provide ONLY the final text of the message/excuse."

  /** JavaScript `a || b` on an optional string: an absent or empty text gives way. */
  function TextOr(text: Option<string>, fallback: string): (r: string)
    ensures text.Some? && text.value != "" ==> r == text.value
    ensures text.None? || text.value == "" ==> r == fallback
  {
    if text.Some? && text.value != "" then text.value else fallback
  }

  /** What fills the details slot of the prompt. */
  function DetailsSlot(details: Option<string>): (r: string)
    ensures r != ""
    ensures details.Some? && details.value != "" ==> r == details.value
    ensures details.None? || details.value == "" ==> r == "None"
  {
    TextOr(details, "None")
  }

  /** The fixed text around the five substituted fields of a prompt template. */
  datatype Template = Template(
    intro: string, situationLabel: string, reasonLabel: string,
    toneLabel: string, detailsLabel: string, closing: string)

  /** The excuse prompt's fixed text: the labelled context lines and the guidelines. */
  const ExcuseTemplate := Template(Intro, SituationLabel, ReasonLabel, ToneLabel, DetailsLabel, Guidelines)

  /** The pieces of a filled template in order: fixed text and fields alternate. */
  function Pieces(t: Template, req: ExcuseRequest): seq<string> {
    [t.intro, req.recipient, t.situationLabel, req.situation, t.reasonLabel, req.reasonType,
     t.toneLabel, req.tone, t.detailsLabel, DetailsSlot(req.additionalDetails), t.closing]
  }

  // Piece numbers of the five substituted fields.
  const RecipientPiece := 1
  const SituationPiece := 3
  const ReasonPiece := 5
  const TonePiece := 7
  const DetailsPiece := 9

  function Concat(ps: seq<string>): string {
    if ps == [] then [] else ps[0] + Concat(ps[1..])
  }

  /** The template with the request's fields substituted, recipient first. */
  function Fill(t: Template, req: ExcuseRequest): string {
    Concat(Pieces(t, req))
  }

  /** The excuse prompt. */
  function BuildPrompt(req: ExcuseRequest): string {
    Fill(ExcuseTemplate, req)
  }

  /** Where piece `k` starts in the concatenation: the total length of the pieces before it. */
  function Offset(ps: seq<string>, k: nat): nat
    requires k <= |ps|
  {
    if k == 0 then 0 else Offset(ps, k - 1) + |ps[k - 1]|
  }

  /** Where piece `k` starts in the filled template. */
  function PieceAt(t: Template, req: ExcuseRequest, k: nat): nat
    requires k <= 11
  {
    Offset(Pieces(t, req), k)
  }

  /** `s` appears verbatim in `text` starting at position `at`. */
  predicate OccursAt(s: string, text: string, at: nat) {
    at + |s| <= |text| && text[at..at + |s|] == s
  }

  lemma {:induction false} OffsetFront(ps: seq<string>, k: nat)
    requires 0 < k <= |ps|
    ensures Offset(ps, k) == |ps[0]| + Offset(ps[1..], k - 1)
  {
    if k > 1 {
      OffsetFront(ps, k - 1);
      assert ps[1..][k - 2] == ps[k - 1];
    }
  }

  /** Text found in `b` is found in `a + b`, shifted by `|a|`. */
  lemma OccursShift(s: string, a: string, b: string, at: nat)
    requires OccursAt(s, b, at)
    ensures OccursAt(s, a + b, |a| + at)
  {
    assert (a + b)[|a| + at..|a| + at + |s|] == b[at..at + |s|];
  }

  /** Piece `k` sits verbatim in the concatenation, at its offset. */
  lemma {:induction false} ConcatPiece(ps: seq<string>, k: nat)
    requires k < |ps|
    ensures OccursAt(ps[k], Concat(ps), Offset(ps, k))
  {
    if k == 0 {
      assert (ps[0] + Concat(ps[1..]))[..|ps[0]|] == ps[0];
    } else {
      ConcatPiece(ps[1..], k - 1);
      OffsetFront(ps, k);
      OccursShift(ps[k], ps[0], Concat(ps[1..]), Offset(ps[1..], k - 1));
    }
  }

  /** The concatenation is as long as all its pieces together. */
  lemma {:induction false} ConcatLength(ps: seq<string>)
    ensures |Concat(ps)| == Offset(ps, |ps|)
  {
    if ps != [] {
      ConcatLength(ps[1..]);
      OffsetFront(ps, |ps|);
    }
  }

  /** The fixed text between two fields is never empty, so the fields cannot run together. */
  predicate LabelsNonEmpty(t: Template) {
    t.situationLabel != [] && t.reasonLabel != [] && t.toneLabel != [] && t.detailsLabel != []
  }

  /**
   * A filled template can be read back: it starts with the introduction,
   * each field sits verbatim at its offset, in template order and apart
   * from its neighbours, and it ends with the closing text.
   */
  lemma FillSlots(t: Template, req: ExcuseRequest)
    requires LabelsNonEmpty(t)
    ensures OccursAt(t.intro, Fill(t, req), 0)
    ensures OccursAt(req.recipient, Fill(t, req), PieceAt(t, req, RecipientPiece))
    ensures OccursAt(req.situation, Fill(t, req), PieceAt(t, req, SituationPiece))
    ensures OccursAt(req.reasonType, Fill(t, req), PieceAt(t, req, ReasonPiece))
    ensures OccursAt(req.tone, Fill(t, req), PieceAt(t, req, TonePiece))
    ensures OccursAt(DetailsSlot(req.additionalDetails), Fill(t, req), PieceAt(t, req, DetailsPiece))
    ensures OccursAt(t.closing, Fill(t, req), PieceAt(t, req, 10))
    ensures PieceAt(t, req, 10) + |t.closing| == |Fill(t, req)|
    ensures PieceAt(t, req, RecipientPiece) + |req.recipient| < PieceAt(t, req, SituationPiece)
    ensures PieceAt(t, req, SituationPiece) + |req.situation| < PieceAt(t, req, ReasonPiece)
    ensures PieceAt(t, req, ReasonPiece) + |req.reasonType| < PieceAt(t, req, TonePiece)
    ensures PieceAt(t, req, TonePiece) + |req.tone| < PieceAt(t, req, DetailsPiece)
  {
    var ps := Pieces(t, req);
    ConcatPiece(ps, 0);
    ConcatPiece(ps, RecipientPiece);
    ConcatPiece(ps, SituationPiece);
    ConcatPiece(ps, ReasonPiece);
    ConcatPiece(ps, TonePiece);
    ConcatPiece(ps, DetailsPiece);
    ConcatPiece(ps, 10);
    ConcatLength(ps);
    assert Offset(ps, 3) == Offset(ps, 1) + |ps[1]| + |ps[2]|;
    assert Offset(ps, 5) == Offset(ps, 3) + |ps[3]| + |ps[4]|;
    assert Offset(ps, 7) == Offset(ps, 5) + |ps[5]| + |ps[6]|;
    assert Offset(ps, 9) == Offset(ps, 7) + |ps[7]| + |ps[8]|;
  }

  lemma ExcuseTemplateLabels()
    ensures SituationLabel != [] && ReasonLabel != [] && ToneLabel != [] && DetailsLabel != []
  {
    assert SituationLabel[0] == ReasonLabel[0] == ToneLabel[0] == DetailsLabel[0] == '\n';
  }

  /**
   * The excuse prompt carries recipient, situation, reason and tone
   * verbatim, each in its own slot and in that order, then the details
   * slot; it starts with the same introduction and ends with the same
   * guideline block for every request.
   */
  lemma PromptSlots(req: ExcuseRequest)
    ensures OccursAt(ExcuseTemplate.intro, BuildPrompt(req), 0)
    ensures OccursAt(req.recipient, BuildPrompt(req), PieceAt(ExcuseTemplate, req, RecipientPiece))
    ensures OccursAt(req.situation, BuildPrompt(req), PieceAt(ExcuseTemplate, req, SituationPiece))
    ensures OccursAt(req.reasonType, BuildPrompt(req), PieceAt(ExcuseTemplate, req, ReasonPiece))
    ensures OccursAt(req.tone, BuildPrompt(req), PieceAt(ExcuseTemplate, req, TonePiece))
    ensures OccursAt(DetailsSlot(req.additionalDetails), BuildPrompt(req), PieceAt(ExcuseTemplate, req, DetailsPiece))
    ensures OccursAt(ExcuseTemplate.closing, BuildPrompt(req), PieceAt(ExcuseTemplate, req, 10))
    ensures PieceAt(ExcuseTemplate, req, 10) + |ExcuseTemplate.closing| == |BuildPrompt(req)|
    ensures PieceAt(ExcuseTemplate, req, RecipientPiece) + |req.recipient| < PieceAt(ExcuseTemplate, req, SituationPiece)
    ensures PieceAt(ExcuseTemplate, req, SituationPiece) + |req.situation| < PieceAt(ExcuseTemplate, req, ReasonPiece)
    ensures PieceAt(ExcuseTemplate, req, ReasonPiece) + |req.reasonType| < PieceAt(ExcuseTemplate, req, TonePiece)
    ensures PieceAt(ExcuseTemplate, req, TonePiece) + |req.tone| < PieceAt(ExcuseTemplate, req, DetailsPiece)
  {
    ExcuseTemplateLabels();
    FillSlots(ExcuseTemplate, req);
  }

  /**
   * The details slot holds "None" exactly when the detail is absent or
   * empty, and the detail verbatim otherwise.
   */
  lemma PromptDetails(req: ExcuseRequest)
    ensures req.additionalDetails.None? || req.additionalDetails.value == ""
      ==> OccursAt("None", BuildPrompt(req), PieceAt(ExcuseTemplate, req, DetailsPiece))
    ensures req.additionalDetails.Some? && req.additionalDetails.value != ""
      ==> OccursAt(req.additionalDetails.value, BuildPrompt(req), PieceAt(ExcuseTemplate, req, DetailsPiece))
  {
    PromptSlots(req);
  }

  /**
   * The template cannot tell an absent detail from an empty one, nor from
   * a detail that is literally "None".
   */
  lemma PromptMergesMissingDetails(req: ExcuseRequest)
    ensures BuildPrompt(req.(additionalDetails := None)) == BuildPrompt(req.(additionalDetails := Some("")))
    ensures BuildPrompt(req.(additionalDetails := None)) == BuildPrompt(req.(additionalDetails := Some("None")))
  {
  }

  /** The payload of a model call: a single prompt, or a chat history. */
  datatype Contents = Prompt(prompt: string) | Turns(history: seq<ChatMessage>)

  /** One call to the remote model: the model id, what is sent, and the persona. */
  datatype ModelCall = ModelCall(model: string, contents: Contents, systemInstruction: Option<string>)

  /** The call `generateExcuse` makes: the built prompt and no persona. */
  function ExcuseCall(req: ExcuseRequest): (c: ModelCall)
    ensures c.model == ModelId && c.systemInstruction.None?
    ensures c.contents == Prompt(BuildPrompt(req))
  {
    ModelCall(ModelId, Prompt(BuildPrompt(req)), None)
  }

  /**
   * The call `chatWithAssistant` makes: the history as given, with a system
   * instruction that is the same constant whatever the history.
   */
  function ChatCall(history: seq<ChatMessage>): (c: ModelCall)
    ensures c.model == ModelId
    ensures c.contents == Turns(history)
    ensures c.systemInstruction == Some(SystemInstruction)
  {
    ModelCall(ModelId, Turns(history), Some(SystemInstruction))
  }

  /** What `generateExcuse` returns for the model's text: never empty. */
  function ExcuseReply(response: Option<string>): (r: string)
    ensures r != ""
    ensures r == ExcuseFallback <== response.None? || response.value == ""
    ensures response.Some? && response.value != "" ==> r == response.value
  {
    TextOr(response, ExcuseFallback)
  }

  /** What `chatWithAssistant` returns for the model's text: never empty. */
  function ChatReply(response: Option<string>): (r: string)
    ensures r != ""
    ensures r == ChatFallback <== response.None? || response.value == ""
    ensures response.Some? && response.value != "" ==> r == response.value
  {
    TextOr(response, ChatFallback)
  }
}
