/** The `/chat` request handler as a pure function. The OCR result, the
    upstream completion API and the success of the log append come in as
    parameters; the result is the client reply together with the record
    that would be appended to the log and the prompt that would be sent
    upstream. */
module Handler {
  import opened Results
  import Text
  import Logger
  import Denylist
  import Message
  import Normalizer

  /** What OCR of the upload gave: no image was uploaded, the recognised
      text, or an engine failure. */
  datatype Ocr = NoImage | Recognized(text: string) | OcrFailed

  /** What the upstream call gave: a network failure or a body that is not
      JSON, or the HTTP status together with the parsed JSON body. */
  datatype Upstream = Unreachable | Replied(status: int, body: Normalizer.Body)

  /** `r.ok`: the status is in the 2xx range. */
  predicate IsSuccessStatus(status: int)
  {
    200 <= status < 300
  }

  /** The reply to the client: `{ok: true, text}` or `{ok: false, error}`. */
  datatype Reply = Answer(text: string) | Failure(error: string)

  /** One handled request: the reply, the record the handler tried to
      append to the log (if it got that far; the line is
      `Logger.LogLine(record)`) and the prompt sent upstream (if any). */
  datatype Exchange = Exchange(reply: Reply, logged: Option<Logger.LogRecord>, forwarded: Option<string>)

  /** The site tag written in every log line. */
  const Site: string := "A"

  /** The only error a client ever sees. */
  const ProxyError: string := "proxy_error"

  /** The HTTP status of a reply. */
  function Status(reply: Reply): (code: int)
    ensures code == 200 <==> reply.Answer?
    ensures code == 500 <==> reply.Failure?
  {
    if reply.Answer? then 200 else 500
  }

  /** The message the filter and the upstream see, once OCR has succeeded. */
  function UserMessage(text: Option<string>, ocr: Ocr): (m: string)
    requires !ocr.OcrFailed?
    ensures ocr.NoImage? ==> m == OrElse(text, "")
    ensures ocr.Recognized? && Text.IsBlank(ocr.text) ==> m == OrElse(text, "")
    ensures ocr.Recognized? && !Text.IsBlank(ocr.text) ==> m == OrElse(text, "") + Message.OcrSeparator + ocr.text
  {
    Message.Merge(text, if ocr.Recognized? then Some(ocr.text) else None)
  }

  /** The refusal branch: the refusal is logged as the output and returned,
      unless the append throws; nothing is sent upstream. */
  function Refuse(timestamp: string, ip: string, message: string, appendOk: bool): (x: Exchange)
    ensures x.forwarded.None?
    ensures x.logged == Some(Logger.LogRecord(timestamp, Site, ip, message, Denylist.Refusal))
    ensures x.reply.Answer? <==> appendOk
    ensures x.reply.Answer? ==> x.reply.text == Denylist.Refusal
    ensures x.reply.Failure? ==> x.reply.error == ProxyError
  {
    var entry := Logger.LogRecord(timestamp, Site, ip, message, Denylist.Refusal);
    Exchange(if appendOk then Answer(Denylist.Refusal) else Failure(ProxyError), Some(entry), None)
  }

  /** The relay branch: `message` was sent upstream and `response` came
      back. A failed call or a body that throws while being normalised
      ends in the uniform error before anything is logged; otherwise the
      normalised answer is logged and returned, unless the append throws. */
  function Relay(timestamp: string, ip: string, message: string, response: Upstream, appendOk: bool): (x: Exchange)
    ensures x.forwarded == Some(message)
    ensures x.reply.Failure? ==> x.reply.error == ProxyError
    ensures x.logged.Some? <==> response.Replied? && Normalizer.Normalize(response.body).Ok?
    ensures x.reply.Answer? <==> x.logged.Some? && appendOk
    ensures x.logged.Some? ==>
              x.logged.value == Logger.LogRecord(timestamp, Site, ip, message, Normalizer.Normalize(response.body).value)
    ensures x.reply.Answer? ==> x.reply.text == Normalizer.Normalize(response.body).value && x.reply.text != ""
  {
    match response
    case Unreachable => Exchange(Failure(ProxyError), None, Some(message))
    case Replied(_, body) =>
      match Normalizer.Normalize(body)
      case Err(_) => Exchange(Failure(ProxyError), None, Some(message))
      case Ok(answer) =>
        var entry := Logger.LogRecord(timestamp, Site, ip, message, answer);
        Exchange(if appendOk then Answer(answer) else Failure(ProxyError), Some(entry), Some(message))
  }

  /** The handler. `timestamp` is the time the log line is written, `ip`
      the caller's address, `text` the request's text field, `ocr` what
      OCR of the upload gave, `upstream` the completion API as a function of
      the prompt, and `appendOk` whether the log append returns normally. */
  function HandleChat(timestamp: string, ip: string, text: Option<string>, ocr: Ocr,
                      upstream: string -> Upstream, appendOk: bool): (x: Exchange)
    // Every failure, whatever its cause, reaches the client as the same error.
    ensures x.reply.Failure? ==> x.reply.error == ProxyError
    // A failed OCR ends the request before anything is logged or sent.
    ensures ocr.OcrFailed? ==> x.reply.Failure? && x.logged.None? && x.forwarded.None?
    // Every answer is non-empty, and was logged with exactly that text.
    ensures x.reply.Answer? ==>
              && x.reply.text != ""
              && appendOk
              && !ocr.OcrFailed?
              && x.logged == Some(Logger.LogRecord(timestamp, Site, ip, UserMessage(text, ocr), x.reply.text))
    // A refused message is never sent upstream; the refusal is logged and
    // returned unless the append fails.
    ensures !ocr.OcrFailed? && Denylist.IsBanned(UserMessage(text, ocr)) ==>
              && x.forwarded.None?
              && x.logged == Some(Logger.LogRecord(timestamp, Site, ip, UserMessage(text, ocr), Denylist.Refusal))
              && (x.reply.Answer? <==> appendOk)
              && (x.reply.Answer? ==> x.reply.text == Denylist.Refusal)
    // An allowed message is sent upstream as it is, and the answer is the
    // normalised upstream body.
    ensures !ocr.OcrFailed? && !Denylist.IsBanned(UserMessage(text, ocr)) ==>
              var m := UserMessage(text, ocr);
              && x.forwarded == Some(m)
              && (x.reply.Answer? <==>
                    appendOk && upstream(m).Replied? && Normalizer.Normalize(upstream(m).body).Ok?)
              && (x.reply.Answer? ==> x.reply.text == Normalizer.Normalize(upstream(m).body).value)
              && (x.logged.Some? <==> upstream(m).Replied? && Normalizer.Normalize(upstream(m).body).Ok?)
  {
    if ocr.OcrFailed? then Exchange(Failure(ProxyError), None, None)
    else
      var message := UserMessage(text, ocr);
      if Denylist.IsBanned(message) then Refuse(timestamp, ip, message, appendOk)
      else Relay(timestamp, ip, message, upstream(message), appendOk)
  }

  /** The short-circuit: when nothing was sent upstream (a refused message
      or a failed OCR), the upstream was never consulted, so any other
      upstream gives the same exchange. */
  lemma RefusalIgnoresUpstream(timestamp: string, ip: string, text: Option<string>, ocr: Ocr,
                               u: string -> Upstream, v: string -> Upstream, appendOk: bool)
    ensures HandleChat(timestamp, ip, text, ocr, u, appendOk).forwarded.None? ==>
              HandleChat(timestamp, ip, text, ocr, u, appendOk) == HandleChat(timestamp, ip, text, ocr, v, appendOk)
  {
  }

  /** A prompt goes upstream exactly when OCR succeeded and the filter let
      the message through. */
  lemma ForwardedIffAllowed(timestamp: string, ip: string, text: Option<string>, ocr: Ocr,
                            upstream: string -> Upstream, appendOk: bool)
    ensures HandleChat(timestamp, ip, text, ocr, upstream, appendOk).forwarded.Some?
            <==> !ocr.OcrFailed? && !Denylist.IsBanned(UserMessage(text, ocr))
  {
  }

  /** With a quote-free timestamp, every line the handler logs reads back as
      its five fields, with the caller's ip, the message and the output
      escaped, and holds exactly ten quotes. */
  lemma LoggedLineIsWellFormed(timestamp: string, ip: string, text: Option<string>, ocr: Ocr,
                               upstream: string -> Upstream, appendOk: bool)
    requires Logger.Quote !in timestamp
    requires HandleChat(timestamp, ip, text, ocr, upstream, appendOk).logged.Some?
    ensures var entry := HandleChat(timestamp, ip, text, ocr, upstream, appendOk).logged.value;
            var line := Logger.LogLine(entry);
            && Text.Count(Logger.Quote, line) == 10
            && Logger.ParseRecord(line)
               == Some([timestamp, Site, Logger.EscapeField(ip), Logger.EscapeField(UserMessage(text, ocr)),
                        Logger.EscapeField(entry.output)])
  {
    var entry := HandleChat(timestamp, ip, text, ocr, upstream, appendOk).logged.value;
    assert Logger.Quote !in Site;
    Logger.LogLineQuoteCount(entry);
    Logger.LogLineRoundTrip(entry);
  }

  /** The first Section Two question, quoted with a trailing " ...", is
      never sent upstream; the client gets the refusal when the log append
      succeeds and the uniform error when it throws. */
  lemma SectionTwoQuestionIsRefused(timestamp: string, ip: string, upstream: string -> Upstream, appendOk: bool)
    ensures var x := HandleChat(timestamp, ip, Some("Multi-Factor Authentication " + "requires users to provide ..."),
                                NoImage, upstream, appendOk);
            && x.forwarded.None?
            && (appendOk ==> x.reply == Answer("Please complete the questions in Section Two independently."))
            && (!appendOk ==> x.reply == Failure("proxy_error"))
  {
    Denylist.QuotedQuestionIsBanned();
  }

  /** "What is 2+2?" answered through `choices[0].message.content = "4"`
      gets "4" back when the log append succeeds, and the uniform error
      when it throws; either way the answer was logged. */
  lemma ChoicesContentIsReturned(timestamp: string, ip: string, appendOk: bool)
    ensures var body := Normalizer.Body(Some([Normalizer.Choice(Some(Normalizer.ChoiceMessage(Some("4"), None)), None)]), None);
            var x := HandleChat(timestamp, ip, Some("What is 2+2?"), NoImage, _ => Replied(200, body), appendOk);
            && (appendOk ==> x.reply == Answer("4"))
            && (!appendOk ==> x.reply == Failure("proxy_error"))
            && x.logged.Some? && x.logged.value.output == "4"
  {
    Denylist.ShortMessageIsAllowed("What is 2+2?");
  }

  /** A network failure upstream becomes a 500 with the uniform error. */
  lemma NetworkFailureIsProxyError(timestamp: string, ip: string, appendOk: bool)
    ensures var x := HandleChat(timestamp, ip, Some("What is 2+2?"), NoImage, _ => Unreachable, appendOk);
            x.reply == Failure("proxy_error") && Status(x.reply) == 500 && x.logged.None?
  {
    Denylist.ShortMessageIsAllowed("What is 2+2?");
  }

  /** The handler never reads `r.ok`: "What is 2+2?" answered with an
      error status and a JSON body holding neither `choices` nor
      `candidates` is logged with the placeholder as its output, and is
      answered as a success with the placeholder when the log append
      succeeds. */
  lemma ErrorStatusIsAnswered(timestamp: string, ip: string, status: int, appendOk: bool)
    requires !IsSuccessStatus(status)
    ensures var x := HandleChat(timestamp, ip, Some("What is 2+2?"), NoImage,
                                _ => Replied(status, Normalizer.Body(None, None)), appendOk);
            && (appendOk ==> x.reply == Answer("[Empty response]") && Status(x.reply) == 200)
            && x.logged.Some? && x.logged.value.output == "[Empty response]"
  {
    var u: string -> Upstream := _ => Replied(status, Normalizer.Body(None, None));
    var message := UserMessage(Some("What is 2+2?"), NoImage);
    assert message == "What is 2+2?";
    Denylist.ShortMessageIsAllowed(message);
    Normalizer.UnrecognizedGivesPlaceholder(None, None);
    assert HandleChat(timestamp, ip, Some("What is 2+2?"), NoImage, u, appendOk)
        == Relay(timestamp, ip, message, u(message), appendOk);
  }

  /** The upstream as seen through a status check before the body is read
      (`if (!r.ok) throw …`): an error status counts as a failed call. */
  function CheckStatus(response: Upstream): (checked: Upstream)
    ensures checked.Replied? ==> IsSuccessStatus(checked.status) && checked == response
    ensures response.Replied? && IsSuccessStatus(response.status) ==> checked == response
    ensures response.Replied? && !IsSuccessStatus(response.status) ==> checked.Unreachable?
    ensures response.Unreachable? ==> checked.Unreachable?
  {
    if response.Replied? && IsSuccessStatus(response.status) then response else Unreachable
  }

  /** The handler with the status check: the same flow, its upstream seen
      through `CheckStatus`. An allowed message whose reply carries an error
      status ends in the uniform error, with nothing logged. */
  function HandleChatChecked(timestamp: string, ip: string, text: Option<string>, ocr: Ocr,
                             upstream: string -> Upstream, appendOk: bool): (x: Exchange)
    ensures x.reply.Failure? ==> x.reply.error == ProxyError
    ensures !ocr.OcrFailed? && !Denylist.IsBanned(UserMessage(text, ocr)) ==>
              var m := UserMessage(text, ocr);
              && x.forwarded == Some(m)
              && (upstream(m).Replied? && !IsSuccessStatus(upstream(m).status) ==>
                    x.reply == Failure(ProxyError) && x.logged.None?)
              && (x.reply.Answer? ==> upstream(m).Replied? && IsSuccessStatus(upstream(m).status))
  {
    HandleChat(timestamp, ip, text, ocr, m => CheckStatus(upstream(m)), appendOk)
  }

  /** The status check changes nothing when every reply is a success. */
  lemma CheckedAgreesOnSuccess(timestamp: string, ip: string, text: Option<string>, ocr: Ocr,
                               upstream: string -> Upstream, appendOk: bool)
    requires forall m :: upstream(m).Replied? ==> IsSuccessStatus(upstream(m).status)
    ensures HandleChatChecked(timestamp, ip, text, ocr, upstream, appendOk)
            == HandleChat(timestamp, ip, text, ocr, upstream, appendOk)
  {
  }

  /** With the status check, the error reply of `ErrorStatusIsAnswered`
      becomes a 500 with the uniform error and nothing is logged, whatever
      the log append would do. */
  lemma CheckedErrorStatusIsProxyError(timestamp: string, ip: string, status: int, appendOk: bool)
    requires !IsSuccessStatus(status)
    ensures var x := HandleChatChecked(timestamp, ip, Some("What is 2+2?"), NoImage,
                                       _ => Replied(status, Normalizer.Body(None, None)), appendOk);
            && x.reply == Failure(ProxyError)
            && Status(x.reply) == 500
            && x.logged.None?
  {
    Denylist.ShortMessageIsAllowed("What is 2+2?");
  }
}
