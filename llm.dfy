/** The language model and `json.loads`, as oracles. A `Model` answers one
    request with the text of the first choice, or with `None` when the call
    raises (transport error, missing credentials, no text in the answer).
    A `Decoder` is `json.loads`: `None` is a `JSONDecodeError`. */
module Llm {
  import opened Text
  import opened Json

  /** The requests the converter sends; each carries the inputs its prompt embeds. */
  datatype Request =
    | ClassifyChunk(chunk: nat, total: nat, files: seq<string>)   // rails_parser.summarize_structure
    | AnalyzeBatch(batch: nat, total: nat, payload: string)       // rails_parser.analyze_units
    | SynthesizeBlueprint(summary: Json, units: Json)             // converter_node.run, first attempt
    | RepairJson(raw: string)                                     // converter_node._repair_json_with_llm
    | RefineBlueprint(blueprint: Json, summary: Json, units: Json) // converter_node._refine_blueprint_with_llm
    | ConvertTemplate(content: string)                            // template_converter.convert_template_with_llm
    | WriteReadme(summary: Json)                                  // integration_node.call_llm

  type Model = Request -> Option<string>
  type Decoder = string -> Option<Json>

  /** One call followed by `.strip()` on the returned text. */
  function Answer(model: Model, req: Request): Option<string> {
    match model(req)
    case None => None
    case Some(t) => Some(Strip(t))
  }

  /** The stripped texts of a sequence of calls issued one after another,
      up to (not including) the first call that raises. */
  function Answers(reqs: seq<Request>, model: Model): (texts: seq<string>)
    ensures |texts| <= |reqs|
    ensures forall j :: 0 <= j < |texts| ==> Answer(model, reqs[j]) == Some(texts[j])
    ensures |texts| < |reqs| ==> Answer(model, reqs[|texts|]).None?
    decreases |reqs|
  {
    if reqs == [] then []
    else match Answer(model, reqs[0])
      case None => []
      case Some(t) =>

        [t] + Answers(reqs[1..], model)
  }

  /** The requests actually sent: all of them, or up to and including the one that raised. */
  function CallsMade(reqs: seq<Request>, model: Model): (calls: seq<Request>)
    ensures calls <= reqs
  {
    var n := |Answers(reqs, model)|;
    if n < |reqs| then reqs[..n + 1] else reqs
  }

  /** The record a response that does not decode is replaced with. */
  function ErrorRecord(rawKey: string, text: string): Json {
    JObj(map["error" := JStr("invalid_json"), rawKey := JStr(text)])
  }

  /** `json.loads(text)`, with a decode error turned into the error record. */
  function DecodeOrError(decode: Decoder, text: string, rawKey: string): Json {
    match decode(text)
    case Some(v) => v
    case None => ErrorRecord(rawKey, text)
  }

  function DecodeAll(texts: seq<string>, decode: Decoder, rawKey: string): (r: seq<Json>)
    ensures |r| == |texts|
    ensures forall j :: 0 <= j < |texts| ==> r[j] == DecodeOrError(decode, texts[j], rawKey)
  {
    seq(|texts|, j requires 0 <= j < |texts| => DecodeOrError(decode, texts[j], rawKey))
  }

  /** Decoding one more text appends one more decoded value. */
  lemma DecodeAllAppend(texts: seq<string>, text: string, decode: Decoder, rawKey: string)
    ensures DecodeAll(texts + [text], decode, rawKey) == DecodeAll(texts, decode, rawKey) + [DecodeOrError(decode, text, rawKey)]
  {
    var l := DecodeAll(texts + [text], decode, rawKey);
    var r := DecodeAll(texts, decode, rawKey) + [DecodeOrError(decode, text, rawKey)];
    assert |l| == |r|;
    forall j | 0 <= j < |l| ensures l[j] == r[j] {
      assert (texts + [text])[j] == if j < |texts| then texts[j] else text;
    }
  }
}
