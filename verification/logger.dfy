/** The logger object: its configuration, its last rendered message, and the
    dispatch of one event through the filter, the formatter and the service. */
module Logger {
  import opened Wrappers
  import opened Levels
  import opened Formatter
  import opened Delivery
  import opened Response
  import opened Decimal

  const DefaultApiUrl: string := "https://api.telegram.org"
  const DefaultTimeout: int := 30

  /** The logger's fields. `msg` holds the message rendered by the last event
      that passed the filter. */
  datatype TgLogger = TgLogger(
    url: string,
    token: string,
    chatId: int,
    prefix: string,
    level: int,
    timeout: int,
    msg: string)

  /** A new logger: default endpoint and timeout, nothing rendered yet, and the
      most permissive threshold, so that every level passes. */
  function New(token: string, chatId: int, prefix: string): (l: TgLogger)
    ensures l.token == token && l.chatId == chatId && l.prefix == prefix
    ensures l.url == DefaultApiUrl && l.timeout == DefaultTimeout && l.msg == ""
    ensures GetLevel(l) == Trace
    ensures forall level :: IsKnown(level) ==> Emits(level, l.level)
  {
    TgLogger(DefaultApiUrl, token, chatId, prefix, Trace, DefaultTimeout, "")
  }

  function SetTimeout(l: TgLogger, timeout: int): (r: TgLogger)
    ensures r.timeout == timeout && r.(timeout := l.timeout) == l
  {
    l.(timeout := timeout)
  }

  function SetPrefix(l: TgLogger, prefix: string): (r: TgLogger)
    ensures GetPrefix(r) == prefix && r.(prefix := l.prefix) == l
  {
    l.(prefix := prefix)
  }

  function GetPrefix(l: TgLogger): string {
    l.prefix
  }

  function SetLevel(l: TgLogger, level: int): (r: TgLogger)
    ensures GetLevel(r) == level && r.(level := l.level) == l
  {
    l.(level := level)
  }

  function GetLevel(l: TgLogger): int {
    l.level
  }

  function GetMessage(l: TgLogger): string {
    l.msg
  }

  /** The endpoint setter as declared: its parameter is an integer, which PHP
      turns into its decimal text when storing it in the string field; the
      `??` default never applies, since an integer is never null. */
  function SetApiUrl(l: TgLogger, url: int): (r: TgLogger)
    ensures ParseInt(r.url) == Some(url)
    ensures r == l.(url := r.url)
  {
    IntRoundTrip(url);
    l.(url := IntToString(url))
  }

  /** No address with a scheme can be set that way: the stored text is digits
      and at most a minus sign, so it never holds the `:` of `https://`. */
  lemma SetApiUrlHasNoScheme(l: TgLogger, url: int)
    ensures ':' !in SetApiUrl(l, url).url
    ensures SetApiUrl(l, url).url != DefaultApiUrl
  {
    var s := IntToString(url);
    if url < 0 {
      var d := NatToString(-url);
      assert s == "-" + d;
      assert forall i :: 1 <= i < |s| ==> s[i] == d[i - 1];
    }
    assert DefaultApiUrl[5] == ':';
  }

  /** The endpoint setter as its `??` shows it was meant: a nullable address,
      null restoring the default endpoint. */
  function SetApiUrlIntended(l: TgLogger, url: Option<string>): (r: TgLogger)
    ensures url.Some? ==> GetApiUrl(r) == url.value
    ensures url.None? ==> GetApiUrl(r) == DefaultApiUrl
    ensures r == l.(url := r.url)
  {
    l.(url := if url.Some? then url.value else DefaultApiUrl)
  }

  /** The stored endpoint. The source has no such getter; this one only serves
      to state what the corrected setter stores. */
  function GetApiUrl(l: TgLogger): string {
    l.url
  }

  /** Each setter is observed by its getter and leaves every other field of the
      logger, the last message included, as it was; setters of different
      fields commute, and setting a field back to what its getter reported
      restores the logger. */
  lemma SettersAndGetters(l: TgLogger, prefix: string, level: int, timeout: int)
    ensures GetPrefix(SetPrefix(l, prefix)) == prefix && GetLevel(SetLevel(l, level)) == level
    ensures SetPrefix(l, prefix).(prefix := l.prefix) == l
    ensures SetLevel(l, level).(level := l.level) == l
    ensures SetTimeout(l, timeout).(timeout := l.timeout) == l
    ensures GetMessage(SetPrefix(l, prefix)) == GetMessage(SetLevel(l, level)) == GetMessage(SetTimeout(l, timeout)) == GetMessage(l)
    ensures SetLevel(SetPrefix(l, prefix), level) == SetPrefix(SetLevel(l, level), prefix)
    ensures SetPrefix(SetPrefix(l, prefix), GetPrefix(l)) == l
    ensures SetLevel(SetLevel(l, level), GetLevel(l)) == l
  {
  }

  // ---------------------------------------------------------------------------
  // The service, seen from the logger.

  /** The HTTP exchange is outside the model: for each request, the reply body,
      or the error that the request raised (network failure, timeout, or a
      status other than 200). */
  type Transport = Call -> Result<string, string>

  /** One request and the reading of its reply. */
  function SendRaw(call: Call, transport: Transport, decode: Decoder): (r: Outcome<string>)
    ensures r.Pass? <==>
      && transport(call).Success?
      && !FalsyString(transport(call).value)
      && Accepted(decode(transport(call).value))
    ensures r.Fail? && transport(call).Failure? ==> r.error == transport(call).error
    ensures r.Fail? && transport(call).Success? ==>
      if FalsyString(transport(call).value) then r.error == NilResponse
      else r.error == ApiError(decode(transport(call).value))
  {
    match transport(call)
    case Failure(e) => Fail(e)
    case Success(body) => Classify(body, decode)
  }

  /** Makes the requests in order and stops at the first one that fails, since
      its error is thrown. Yields the requests made and the overall outcome. */
  function Dispatch(calls: seq<Call>, transport: Transport, decode: Decoder): (r: (seq<Call>, Outcome<string>))
    ensures r.0 <= calls
    ensures |calls| > 0 ==> |r.0| > 0
    ensures r.1.Pass? <==> r.0 == calls && forall i :: 0 <= i < |calls| ==> SendRaw(calls[i], transport, decode).Pass?
    ensures r.1.Fail? ==>
      && |r.0| > 0
      && SendRaw(r.0[|r.0| - 1], transport, decode) == r.1
      && forall i :: 0 <= i < |r.0| - 1 ==> SendRaw(r.0[i], transport, decode).Pass?
    decreases |calls|
  {
    if calls == [] then ([], Pass)
    else
      var first := SendRaw(calls[0], transport, decode);
      if first.Fail? then ([calls[0]], first)
      else
        var (made, outcome) := Dispatch(calls[1..], transport, decode);
        assert calls == [calls[0]] + calls[1..];
        ([calls[0]] + made, outcome)
  }

  /** The effect of one `send`: the logger afterwards, the requests made, and the
      returned text or the error thrown. */
  datatype Sent = Sent(logger: TgLogger, calls: seq<Call>, result: Result<string, string>)

  /** Sends one event. A level above the threshold returns the empty string and
      changes nothing. Otherwise the event is rendered and stored as the last
      message, the size policy's requests are made in order until one fails,
      and the rendered message is returned when all succeed. */
  function Send(l: TgLogger, level: int, text: string, fields: Option<seq<Field>>,
                timestamp: string, transport: Transport, decode: Decoder): (s: Sent)
    ensures !Emits(level, l.level) ==> s == Sent(l, [], Success(""))
    ensures Emits(level, l.level) ==>
      var plan := Plan(l.chatId, Format(level, l.prefix, text, fields), timestamp);
      && s.logger == l.(msg := Format(level, l.prefix, text, fields))
      && 1 <= |s.calls| && s.calls <= plan
      && (s.result.Success? <==>
            s.calls == plan && forall i :: 0 <= i < |plan| ==> SendRaw(plan[i], transport, decode).Pass?)
      && (s.result.Success? ==> s.result.value == GetMessage(s.logger))
      && (s.result.Failure? ==> SendRaw(s.calls[|s.calls| - 1], transport, decode) == Fail(s.result.error))
  {
    if level > l.level then Sent(l, [], Success(""))
    else
      var rendered := Format(level, l.prefix, text, fields);
      var l' := l.(msg := rendered);
      var (made, outcome) := Dispatch(Plan(l.chatId, rendered, timestamp), transport, decode);
      match outcome
      case Pass => Sent(l', made, Success(rendered))
      case Fail(e) => Sent(l', made, Failure(e))
  }

  /** `Log` is the generic entry point; it sends at the `Info` level. */
  function Log(l: TgLogger, text: string, fields: Option<seq<Field>>,
               timestamp: string, transport: Transport, decode: Decoder): (s: Sent)
    ensures GetLevel(l) < Info ==> s.calls == [] && s.result == Success("")
    ensures GetLevel(l) >= Info ==> GetMessage(s.logger) == Format(Info, l.prefix, text, fields)
    ensures GetLevel(l) >= Info ==>
      var plan := Plan(l.chatId, Format(Info, l.prefix, text, fields), timestamp);
      && 1 <= |s.calls| && s.calls <= plan
      && (s.result.Success? <==>
            s.calls == plan && forall i :: 0 <= i < |plan| ==> SendRaw(plan[i], transport, decode).Pass?)
    ensures s == Send(l, Info, text, fields, timestamp, transport, decode)
  {
    Send(l, Info, text, fields, timestamp, transport, decode)
  }

  // ---------------------------------------------------------------------------
  // Properties of sending.

  /** The filter is monotone in the level: if an event reaches the service, an
      event of any more severe level would too. */
  lemma SendFilterMonotone(l: TgLogger, moreSevere: int, level: int, text: string, fields: Option<seq<Field>>,
                           timestamp: string, transport: Transport, decode: Decoder)
    requires moreSevere <= level
    requires |Send(l, level, text, fields, timestamp, transport, decode).calls| > 0
    ensures |Send(l, moreSevere, text, fields, timestamp, transport, decode).calls| > 0
  {
  }

  /** After a successful send the logger reports, as its last message, exactly
      what the send returned; a suppressed send leaves the last message alone. */
  lemma LastMessageIsReturned(l: TgLogger, level: int, text: string, fields: Option<seq<Field>>,
                              timestamp: string, transport: Transport, decode: Decoder)
    ensures var s := Send(l, level, text, fields, timestamp, transport, decode);
      && (s.result.Success? && Emits(level, l.level) ==> GetMessage(s.logger) == s.result.value)
      && (!Emits(level, l.level) ==> GetMessage(s.logger) == GetMessage(l) && s.result == Success(""))
      && GetPrefix(s.logger) == GetPrefix(l) && GetLevel(s.logger) == GetLevel(l)
  {
  }

  /** A message of at most 1100 code points is one text request carrying it whole;
      a longer one is first an excerpt of 1024 code points and an ellipsis, and,
      if that succeeds, a document with the whole text. */
  lemma SendSizePolicy(l: TgLogger, level: int, text: string, fields: Option<seq<Field>>,
                       timestamp: string, transport: Transport, decode: Decoder)
    requires Emits(level, l.level)
    ensures var s := Send(l, level, text, fields, timestamp, transport, decode);
      var m := Format(level, l.prefix, text, fields);
      && (|m| <= MaxInline ==> |s.calls| == 1 && InlineText(s.calls[0]) == Some(m))
      && (|m| > MaxInline ==>
            && InlineText(s.calls[0]) == Some(m[..ExcerptLength] + Ellipsis)
            && (SendRaw(s.calls[0], transport, decode).Pass? ==>
                  |s.calls| == 2 && Attachment(s.calls[1]) == Some(m)))
  {
    var m := Format(level, l.prefix, text, fields);
    var plan := Plan(l.chatId, m, timestamp);
    var s := Send(l, level, text, fields, timestamp, transport, decode);
    assert s.calls[0] == plan[0];
    if |m| > MaxInline {
      PlanLong(l.chatId, m, timestamp);
      if SendRaw(s.calls[0], transport, decode).Pass? {
        assert |s.calls| == 2;
        assert s.calls[1] == plan[1];
      }
    } else {
      PlanShort(l.chatId, m, timestamp);
    }
  }

  /** When the excerpt of an oversized message is refused, its error is thrown
      and the document is not sent. */
  lemma FailedExcerptSkipsDocument(l: TgLogger, level: int, text: string, fields: Option<seq<Field>>,
                                   timestamp: string, transport: Transport, decode: Decoder)
    requires Emits(level, l.level)
    requires |Format(level, l.prefix, text, fields)| > MaxInline
    requires SendRaw(Plan(l.chatId, Format(level, l.prefix, text, fields), timestamp)[0], transport, decode).Fail?
    ensures var s := Send(l, level, text, fields, timestamp, transport, decode);
      && |s.calls| == 1
      && s.result.Failure?
      && Fail(s.result.error) == SendRaw(s.calls[0], transport, decode)
  {
  }

  // ---------------------------------------------------------------------------
  // Worked examples.

  /** A service that accepts every request. */
  function AcceptAll(c: Call): Result<string, string> {
    Success("{\"ok\":true}")
  }

  function DecodeAccept(body: string): Option<Envelope> {
    Some(Envelope(Some(JBool(true)), None, None))
  }

  lemma DiskFullBlock()
    ensures Block([Field("path", "/var")]) == "\n```\npath: /var\n```"
  {
    var fields := [Field("path", "/var")];
    assert RenderFields(fields) == "path: /var\n" by {
      assert fields[1..] == [];
    }
  }

  lemma DiskFullHead()
    ensures Format(Error, "svc", "disk full", None) == "_svc:_ \U{2757} disk full"
  {
    assert Glyph(Error) + " " + "disk full" == "\U{2757} disk full";
  }

  lemma DiskFullText()
    ensures Format(Error, "svc", "disk full", Some([Field("path", "/var")]))
      == "_svc:_ \U{2757} disk full\n```\npath: /var\n```"
  {
    FormatShape(Error, "svc", "disk full", Some([Field("path", "/var")]));
    DiskFullBlock();
    DiskFullHead();
  }

  /** An error event with a prefix and one field, under threshold `Info`: one text
      request with the rendered message, which is also returned and kept. */
  lemma DiskFullIsSent(chatId: int, timestamp: string)
    ensures var l := SetLevel(New("token", chatId, "svc"), Info);
      var s := Send(l, Error, "disk full", Some([Field("path", "/var")]), timestamp, AcceptAll, DecodeAccept);
      var m := "_svc:_ \U{2757} disk full\n```\npath: /var\n```";
      && s.calls == [Call(SendMessage, MessagePayload(chatId, m))]
      && s.result == Success(m)
      && GetMessage(s.logger) == m
  {
    DiskFullText();
    var m := "_svc:_ \U{2757} disk full\n```\npath: /var\n```";
    assert |m| <= MaxInline;
  }

  /** The same event under threshold `Fatal` is suppressed; under `Warn` it is
      not, since `Error` is more severe than `Warn`. */
  lemma DiskFullThresholds(chatId: int, timestamp: string)
    ensures var s := Send(SetLevel(New("token", chatId, "svc"), Fatal), Error, "disk full",
                          Some([Field("path", "/var")]), timestamp, AcceptAll, DecodeAccept);
      s.calls == [] && s.result == Success("")
    ensures |Send(SetLevel(New("token", chatId, "svc"), Warn), Error, "disk full",
                  Some([Field("path", "/var")]), timestamp, AcceptAll, DecodeAccept).calls| == 1
  {
    DiskFullText();
  }
}
