/** Classification of the messaging service's reply: success, or an error text. */
module Response {
  import opened Wrappers
  import opened Decimal
  import opened Seqs

  /** The scalar JSON values a decoded envelope member can hold. */
  datatype Json = JNull | JBool(b: bool) | JInt(i: int) | JString(s: string)

  /** The members of the decoded reply object that the logger reads; a member
      missing from the object is `None`. */
  datatype Envelope = Envelope(ok: Option<Json>, description: Option<Json>, errorCode: Option<Json>)

  /** JSON decoding is outside the model: any function from the body to the decoded
      envelope, `None` when the body is not a JSON object. */
  type Decoder = string -> Option<Envelope>

  const NilResponse: string := "Response is nil."
  const ApiPrefix: string := "telegram: "
  const UnknownDescription: string := "unknown description"
  const UnknownCode: string := "???"

  /** PHP's truth value of a string. */
  predicate FalsyString(s: string) {
    s == "" || s == "0"
  }

  /** PHP's truth value of a decoded JSON scalar. */
  predicate Truthy(v: Json) {
    match v
    case JNull => false
    case JBool(b) => b
    case JInt(i) => i != 0
    case JString(s) => !FalsyString(s)
  }

  /** PHP's string conversion of a decoded JSON scalar. */
  function JsonToString(v: Json): string {
    match v
    case JNull => ""
    case JBool(b) => if b then "1" else ""
    case JInt(i) => IntToString(i)
    case JString(s) => s
  }

  /** `$member ?? default`: a member that is missing or null yields the default. */
  function Member(m: Option<Json>, default: string): string {
    if m.Some? && m.value != JNull then JsonToString(m.value) else default
  }

  /** The reply is an acceptance: its `ok` member is present and truthy in PHP's sense. */
  predicate Accepted(env: Option<Envelope>) {
    env.Some? && env.value.ok.Some? && Truthy(env.value.ok.value)
  }

  function Description(env: Option<Envelope>): string {
    if env.Some? then Member(env.value.description, UnknownDescription) else UnknownDescription
  }

  function Code(env: Option<Envelope>): string {
    if env.Some? then Member(env.value.errorCode, UnknownCode) else UnknownCode
  }

  /** The error text for a reply that is not an acceptance. */
  function ApiError(env: Option<Envelope>): (e: string)
    ensures |e| == |ApiPrefix| + |Description(env)| + 2 + |Code(env)| + 1
    ensures e[..|ApiPrefix|] == ApiPrefix
    ensures e[|ApiPrefix|..|ApiPrefix| + |Description(env)|] == Description(env)
    ensures e[|ApiPrefix| + |Description(env)|..] == " (" + Code(env) + ")"
  {
    var e := ApiPrefix + Description(env) + " (" + Code(env) + ")";
    Assoc(ApiPrefix + Description(env), " (", Code(env));
    Assoc(ApiPrefix + Description(env), " (" + Code(env), ")");
    Middle(ApiPrefix, Description(env), " (" + Code(env) + ")");
    SplitAfter(ApiPrefix, Description(env) + (" (" + Code(env) + ")"));
    Assoc(ApiPrefix, Description(env), " (" + Code(env) + ")");
    e
  }

  /** The logger's reading of a reply body: an empty body (or "0") is an error
      of its own; otherwise success exactly when the decoded `ok` is truthy in PHP's
      sense, and
      the service's description and code otherwise. */
  function Classify(body: string, decode: Decoder): (r: Outcome<string>)
    ensures FalsyString(body) ==> r == Fail(NilResponse)
    ensures !FalsyString(body) ==> (r.Pass? <==> Accepted(decode(body)))
    ensures r.Fail? && !FalsyString(body) ==> r.error == ApiError(decode(body))
  {
    if FalsyString(body) then Fail(NilResponse)
    else
      var env := decode(body);
      if Accepted(env) then Pass else Fail(ApiError(env))
  }

  /** A rejection names the service's description verbatim right after the
      prefix, and its numeric code can be read back from the parentheses. */
  lemma RejectionCarriesDescriptionAndCode(description: string, code: int)
    ensures var e := ApiError(Some(Envelope(Some(JBool(false)), Some(JString(description)), Some(JInt(code)))));
      var digits := IntToString(code);
      && e == ApiPrefix + description + " (" + digits + ")"
      && e[|ApiPrefix|..|ApiPrefix| + |description|] == description
      && ParseInt(e[|e| - 1 - |digits|..|e| - 1]) == Some(code)
  {
    var digits := IntToString(code);
    var e := ApiError(Some(Envelope(Some(JBool(false)), Some(JString(description)), Some(JInt(code)))));
    Middle(ApiPrefix + description + " (", digits, ")");
    IntRoundTrip(code);
  }

  /** A body that is not a JSON object is a failure with both placeholders. */
  lemma UndecodableIsFailure(body: string, decode: Decoder)
    requires !FalsyString(body) && decode(body).None?
    ensures Classify(body, decode) == Fail("telegram: unknown description (???)")
  {
    assert ApiPrefix + UnknownDescription == "telegram: unknown description";
    assert ApiPrefix + UnknownDescription + " (" == "telegram: unknown description (";
    assert ApiPrefix + UnknownDescription + " (" + UnknownCode == "telegram: unknown description (???";
    assert ApiError(None) == "telegram: unknown description (???)";
  }

  /** Failures of the two kinds are told apart by their text. */
  lemma NilIsNotApiError(env: Option<Envelope>)
    ensures ApiError(env) != NilResponse
  {
    var e := ApiError(env);
    assert e[0] == ApiPrefix[0];
  }

  lemma Digits429()
    ensures IntToString(429) == "429"
  {
    assert NatToString(4) == "4";
    assert NatToString(42) == "42";
  }

  lemma TooManyRequestsText()
    ensures ApiPrefix + "Too Many Requests" + " (" + "429" + ")" == "telegram: Too Many Requests (429)"
  {
    assert ApiPrefix + "Too Many Requests" == "telegram: Too Many Requests";
    assert ApiPrefix + "Too Many Requests" + " (" == "telegram: Too Many Requests (";
    assert ApiPrefix + "Too Many Requests" + " (" + "429" == "telegram: Too Many Requests (429";
  }

  /** A rate-limit rejection, as the service sends it. */
  lemma TooManyRequests(body: string, decode: Decoder)
    requires !FalsyString(body)
    requires decode(body) == Some(Envelope(Some(JBool(false)), Some(JString("Too Many Requests")), Some(JInt(429))))
    ensures Classify(body, decode) == Fail("telegram: Too Many Requests (429)")
  {
    Digits429();
    TooManyRequestsText();
  }
}
