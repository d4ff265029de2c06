/** The text tuner: the correction instruction chosen by language, the chat-completion
    request it sends, and the policy of one verified attempt, one unverified retry after a
    certificate error, and the untuned text as the fallback. The network is an oracle. */
module Tuner {
  import opened Wrappers

  const ApiUrl: string := "https://openrouter.ai/api/v1/chat/completions"

  /** The model identifier the request names (the sixth entry of the source's model list). */
  const TuningModel: string := "tngtech/deepseek-r1t2-chimera:free"

  const PersianInstruction: string := "فقط متن فارسی زیر را از نظر:\n1. دستور زبان و ساختار جملات\n2. روان\U{200C}سازی و طبیعی\U{200C}سازی متن\n3. اصلاح اشتباهات املایی و نگارشی\n\nمهم: تحت هیچ شرایطی:\n- متن را ترجمه نکن\n- اصطلاحات تخصصی را تغییر نده\n- محتوای اصلی را عوض نکن"
  const EnglishInstruction: string := "Improve this English text's grammar and clarity without translation"
  const DefaultInstruction: string := "Improve grammar and clarity while preserving the original language"

  /** The instruction table, with its "default" entry. */
  const Instructions: map<string, string> :=
    map["fa" := PersianInstruction, "en" := EnglishInstruction, "default" := DefaultInstruction]

  datatype Message = Message(role: string, content: string)

  /** The JSON body of the request; the sampling temperature is not modelled. */
  datatype Payload = Payload(model: string, messages: seq<Message>)

  datatype Request = Request(url: string, headers: map<string, string>, payload: Payload, verify: bool)

  /** What one request comes to: the first choice's message content when the response is
      well formed (None when that JSON value is not a string, such as `null`), a
      certificate-verification error, or any other failure (connection, timeout, HTTP error
      status, unexpected response shape). */
  datatype Outcome = Success(content: Option<string>) | SslError | OtherError

  /** The chat-completion service a request goes to: its endpoint, the request headers, the
      model named in the body and the instruction table. `OpenRouter` is the program's. */
  datatype Service = Service(url: string, headers: map<string, string>, model: string,
                             instructions: map<string, string>)

  /** The requests issued, in order, and the value returned: a text, or None for a
      content that is not a string. */
  datatype Tuning = Tuning(sent: seq<Request>, text: Option<string>)

  /** The instruction for a language: the table's entry for a listed key, and otherwise the
      literal string "default", not the table's "default" entry. */
  function Instruction(table: map<string, string>, lang: string): (s: string)
    ensures lang in table ==> s == table[lang]
    ensures lang !in table ==> s == "default"
  {
    Get(table, lang, "default")
  }

  function Headers(apiKey: string): (h: map<string, string>)
    ensures h.Keys == {"Authorization", "HTTP-Referer", "X-Title"}
    ensures h["Authorization"] == "Bearer " + apiKey
  {
    map["Authorization" := "Bearer " + apiKey,
        "HTTP-Referer" := "https://localhost",
        "X-Title" := "Audio Corrector"]
  }

  /** The service the program uses, with the credential read at start-up. */
  function OpenRouter(apiKey: string): Service {
    Service(ApiUrl, Headers(apiKey), TuningModel, Instructions)
  }

  /** The request body: the service's model and exactly two messages, the instruction as
      the system message and the text, unchanged, as the user message. */
  function BuildPayload(service: Service, text: string, lang: string): (p: Payload)
    ensures p.model == service.model
    ensures |p.messages| == 2
    ensures p.messages[0] == Message("system", Instruction(service.instructions, lang))
    ensures p.messages[1] == Message("user", text)
  {
    Payload(service.model, [Message("system", Instruction(service.instructions, lang)), Message("user", text)])
  }

  /** The request of one attempt; only the certificate-verification flag differs. */
  function MakeRequest(service: Service, text: string, lang: string, verify: bool): Request {
    Request(service.url, service.headers, BuildPayload(service, text, lang), verify)
  }

  /** `tune_text_with_openrouter`, with `send` standing for the network: the outcome of
      each request (the two attempts differ in `verify`, so any pair of outcomes can occur).
      A verified attempt comes first; an unverified retry follows only a certificate error;
      the content of the last attempt is returned if it succeeded, the input text otherwise. */
  function Tune(service: Service, text: string, lang: string, send: Request -> Outcome): (r: Tuning)
    ensures 1 <= |r.sent| <= 2
  {
    var secure := MakeRequest(service, text, lang, true);
    match send(secure)
    case Success(content) => Tuning([secure], content)
    case OtherError => Tuning([secure], Some(text))
    case SslError =>
      var insecure := MakeRequest(service, text, lang, false);
      match send(insecure)
      case Success(content) => Tuning([secure, insecure], content)
      case _ => Tuning([secure, insecure], Some(text))
  }

  /** The requests of a tuning: the verified one first; a second, unverified one exactly
      when the first ended in a certificate error; both carry the same body; and the text
      returned is the content of the last attempt if it succeeded, the input text otherwise. */
  lemma TuneRequests(service: Service, text: string, lang: string, send: Request -> Outcome)
    ensures var r := Tune(service, text, lang, send);
      r.sent[0] == MakeRequest(service, text, lang, true)
      && (|r.sent| == 2 <==> send(r.sent[0]) == SslError)
      && (|r.sent| == 2 ==> r.sent[1] == MakeRequest(service, text, lang, false))
    ensures var r := Tune(service, text, lang, send);
      forall k :: 0 <= k < |r.sent| ==> r.sent[k].payload == BuildPayload(service, text, lang)
    ensures var r := Tune(service, text, lang, send);
      var last := send(r.sent[|r.sent| - 1]);
      r.text == if last.Success? then last.content else Some(text)
  {
  }

  /** Every request goes to the service's endpoint with its headers and names its model;
      its body is the instruction as the system message and the text, unchanged, as the
      user message, and nothing else. */
  lemma RequestsCarryText(service: Service, text: string, lang: string, send: Request -> Outcome)
    ensures var r := Tune(service, text, lang, send);
      forall k | 0 <= k < |r.sent| ::
        r.sent[k].url == service.url && r.sent[k].headers == service.headers
        && r.sent[k].payload.model == service.model
        && r.sent[k].payload.messages ==
             [Message("system", Instruction(service.instructions, lang)), Message("user", text)]
  {
    TuneRequests(service, text, lang, send);
  }

  /** The program's requests go to the OpenRouter endpoint, carry the key as a bearer
      token, and name the fixed model. */
  lemma ProgramRequests(apiKey: string, text: string, lang: string, send: Request -> Outcome)
    ensures var r := Tune(OpenRouter(apiKey), text, lang, send);
      forall k | 0 <= k < |r.sent| ::
        r.sent[k].url == ApiUrl && r.sent[k].headers["Authorization"] == "Bearer " + apiKey
        && r.sent[k].payload.model == TuningModel
  {
    RequestsCarryText(OpenRouter(apiKey), text, lang, send);
  }

  /** The program's table: the Persian text for "fa", the English text for "en", the default
      entry's text only for the key "default" itself, and the literal "default" for every
      other language. */
  lemma InstructionTable(lang: string)
    ensures Instruction(Instructions, lang) == PersianInstruction <==> lang == "fa"
    ensures Instruction(Instructions, lang) == EnglishInstruction <==> lang == "en"
    ensures Instruction(Instructions, lang) == DefaultInstruction <==> lang == "default"
    ensures Instruction(Instructions, lang) == "default" <==> lang !in {"fa", "en", "default"}
  {
  }

  /** Which text comes back: the content of the verified attempt if it succeeded, else the
      content of the unverified retry if there was one and it succeeded, else the input. */
  lemma TuneResult(service: Service, text: string, lang: string, send: Request -> Outcome)
    ensures var secure := send(MakeRequest(service, text, lang, true));
      var insecure := send(MakeRequest(service, text, lang, false));
      Tune(service, text, lang, send).text ==
        if secure.Success? then secure.content
        else if secure == SslError && insecure.Success? then insecure.content
        else Some(text)
  {
  }

  /** No success, no change: when no attempt succeeds the untuned text is returned. */
  lemma FailedTuningKeepsText(service: Service, text: string, lang: string, send: Request -> Outcome)
    requires !send(MakeRequest(service, text, lang, true)).Success?
    requires send(MakeRequest(service, text, lang, true)) == SslError ==>
      !send(MakeRequest(service, text, lang, false)).Success?
    ensures Tune(service, text, lang, send).text == Some(text)
  {
  }

  /** A service that echoes the user message back leaves the text as it was. */
  lemma EchoServiceKeepsText(service: Service, text: string, lang: string, send: Request -> Outcome)
    requires forall q: Request :: |q.payload.messages| == 2 ==>
      send(q) == Success(Some(q.payload.messages[1].content))
    ensures Tune(service, text, lang, send).text == Some(text)
  {
    var q := MakeRequest(service, text, lang, true);
    assert send(q) == Success(Some(text));
  }
}
