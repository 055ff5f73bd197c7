/** `ask_api_backend`: the outcome of one POST of a question to the answering
    service, and the text the chat page shows for it. The HTTP call itself is
    not modelled; what it produces is the `Outcome` below. */
module Backend {
  import opened Wrappers
  import opened PyText

  /** A status code other than 200: the code sends every such reply to the error branch. */
  type ErrorStatus = c: int | c != 200 witness 500

  /** What `requests.post` yields: a 200 reply whose JSON object may or may not
      hold an `answer`, any other status with the reply's text, or a
      `RequestException` whose `str()` is `msg`. */
  datatype Outcome =
    | Ok200(answerField: Option<string>)
    | Status(code: ErrorStatus, body: string)
    | Transport(msg: string)

  const NoResponse: string := "No response from API."
  const StatusPrefix: string := "Error: "
  const StatusSeparator: string := " - "
  const ConnectPrefix: string := "Error connecting to API: "

  /** The string `ask_api_backend` returns for an outcome; it never raises. */
  function NormaliseReply(o: Outcome): (r: string)
    ensures o.Ok200? && o.answerField.Some? ==> r == o.answerField.value
    ensures o.Ok200? && o.answerField.None? ==> r == NoResponse
    ensures o.Status? ==> StatusPrefix <= r && |r| >= |o.body| && r[|r| - |o.body|..] == o.body
    ensures o.Transport? ==> ConnectPrefix <= r && r[|ConnectPrefix|..] == o.msg
  {
    match o
    case Ok200(answer) => answer.GetOr(NoResponse)
    case Status(code, body) => StatusPrefix + IntToDecimal(code) + StatusSeparator + body
    case Transport(msg) => ConnectPrefix + msg
  }

  /** Reads a status-error reply back into its code and body. */
  function ParseStatusReply(s: string): Option<(int, string)>
  {
    if StatusPrefix <= s then ParseCodeAndBody(s[|StatusPrefix|..]) else None
  }

  /** Reads an optionally negative decimal code, the separator and the body. */
  function ParseCodeAndBody(t: string): Option<(int, string)>
  {
    if t != [] && t[0] == '-' then
      match ParseNatAndBody(t[1..])
      case None => None
      case Some((n, body)) => Some((-(n as int), body))
    else
      match ParseNatAndBody(t)
      case None => None
      case Some((n, body)) => Some((n as int, body))
  }

  /** Reads a run of decimal digits, the separator and the body. */
  function ParseNatAndBody(t: string): Option<(nat, string)>
  {
    var k := LeadingDigits(t);
    if k == 0 || !(StatusSeparator <= t[k..]) then None
    else Some((DecimalValue(t[..k]), t[k + |StatusSeparator|..]))
  }

  /** Reads a transport-error reply back into the exception's message. */
  function ParseConnectReply(s: string): Option<string>
  {
    if ConnectPrefix <= s then Some(s[|ConnectPrefix|..])
    else None
  }

  /** A 200 reply carrying an `answer` shows that answer verbatim, even an empty one. */
  lemma AnswerIsVerbatim(answer: string)
    ensures NormaliseReply(Ok200(Some(answer))) == answer
  {
  }

  /** A 200 reply without `answer` shows the fixed fallback text. */
  lemma MissingAnswerFallback()
    ensures NormaliseReply(Ok200(None)) == "No response from API."
  {
  }

  /** Digits, separator and body are read back as written. */
  lemma NatAndBodyRoundTrip(n: nat, body: string)
    ensures ParseNatAndBody(NatToDecimal(n) + StatusSeparator + body) == Some((n, body))
  {
    var digits := NatToDecimal(n);
    var t := digits + StatusSeparator + body;
    assert t == digits + (StatusSeparator + body);
    LeadingDigitsOfDigitRun(digits, StatusSeparator + body);
    assert t[..|digits|] == digits;
    assert t[|digits|..] == StatusSeparator + body;
    assert t[|digits| + |StatusSeparator|..] == body;
    DecimalRoundTrip(n);
  }

  /** A signed code, separator and body are read back as written. */
  lemma CodeAndBodyRoundTrip(code: int, body: string)
    ensures ParseCodeAndBody(IntToDecimal(code) + StatusSeparator + body) == Some((code, body))
  {
    var t := IntToDecimal(code) + StatusSeparator + body;
    if code < 0 {
      NatAndBodyRoundTrip(-code, body);
      assert t[1..] == NatToDecimal(-code) + StatusSeparator + body;
    } else {
      NatAndBodyRoundTrip(code, body);
    }
  }

  /** The status-error text determines the status code and the body: reading
      it back gives both, so no two (code, body) pairs display alike. */
  lemma StatusReplyRoundTrip(code: ErrorStatus, body: string)
    ensures ParseStatusReply(NormaliseReply(Status(code, body))) == Some((code, body))
  {
    var rest := IntToDecimal(code) + StatusSeparator + body;
    assert NormaliseReply(Status(code, body)) == StatusPrefix + rest;
    assert (StatusPrefix + rest)[|StatusPrefix|..] == rest;
    CodeAndBodyRoundTrip(code, body);
  }

  /** The transport-error text determines the exception message. */
  lemma TransportReplyRoundTrip(msg: string)
    ensures ParseConnectReply(NormaliseReply(Transport(msg))) == Some(msg)
  {
  }

  /** A rejected request is reported with its status code and its body in the text. */
  lemma StatusReplyMentions(code: ErrorStatus, body: string)
    ensures Contains(NormaliseReply(Status(code, body)), IntToDecimal(code))
    ensures Contains(NormaliseReply(Status(code, body)), body)
  {
    ContainsInfix(StatusPrefix, IntToDecimal(code), StatusSeparator + body);
    assert StatusPrefix + IntToDecimal(code) + (StatusSeparator + body)
        == NormaliseReply(Status(code, body));
    ContainsInfix(StatusPrefix + IntToDecimal(code) + StatusSeparator, body, []);
    assert StatusPrefix + IntToDecimal(code) + StatusSeparator + body + []
        == NormaliseReply(Status(code, body));
  }

  /** An unreachable service is reported with the exception's message in the text. */
  lemma TransportReplyMentions(msg: string)
    ensures Contains(NormaliseReply(Transport(msg)), msg)
  {
    ContainsInfix(ConnectPrefix, msg, []);
    assert ConnectPrefix + msg + [] == NormaliseReply(Transport(msg));
  }

  /** A rejected request and a failed connection never show the same text:
      the sixth character is ':' in one and ' ' in the other. */
  lemma StatusAndTransportDiffer(code: ErrorStatus, body: string, msg: string)
    ensures NormaliseReply(Status(code, body)) != NormaliseReply(Transport(msg))
  {
    assert NormaliseReply(Status(code, body))[5] == ':';
    assert NormaliseReply(Transport(msg))[5] == ' ';
  }

  /** Errors are shown as if they were answers: a genuine answer can carry any
      displayed text, so the transcript cannot tell an error from an answer. */
  lemma AnswerCanMimicAnyReply(o: Outcome)
    ensures NormaliseReply(Ok200(Some(NormaliseReply(o)))) == NormaliseReply(o)
  {
    AnswerIsVerbatim(NormaliseReply(o));
  }
}
