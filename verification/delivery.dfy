/** The requests that carry a rendered message to the chat: the payloads of the
    two service methods and the size-based choice between them. */
module Delivery {
  import opened Wrappers
  import opened Decimal
  import opened Search
  import opened Multipart

  /** Longest message, in code points, that is sent inline as it is. */
  const MaxInline: nat := 1100
  /** Code points of an oversized message kept in its inline excerpt. */
  const ExcerptLength: nat := 1024
  const Ellipsis: string := "\U{2026}"

  const SendMessage: string := "sendMessage"
  const SendDocument: string := "sendDocument"

  /** One request to the service: the method name and its form fields. */
  datatype Call = Call(apiMethod: string, payload: seq<FormField>)

  /** Fields of a text message; the boolean flag is written as PHP writes `true`. */
  function MessagePayload(chatId: int, text: string): seq<FormField> {
    [ FormField("chat_id", Scalar(IntToString(chatId))),
      FormField("text", Scalar(text)),
      FormField("parse_mode", Scalar("Markdown")),
      FormField("disable_web_page_preview", Scalar("1")) ]
  }

  /** File name of the attachment, from the local time formatted `Y-m-d H:i:s`. */
  function DocumentName(timestamp: string): string {
    timestamp + "_full.log"
  }

  /** Fields of a document: the full text as a file. */
  function DocumentPayload(chatId: int, data: string, timestamp: string): seq<FormField> {
    var name := DocumentName(timestamp);
    [ FormField("chat_id", Scalar(IntToString(chatId))),
      FormField("caption", Scalar("full log")),
      FormField("file_name", Scalar(name)),
      FormField("document", Blob(name, data)) ]
  }

  /** The value the service reads for a field name: that of the first field so named. */
  function Lookup(payload: seq<FormField>, name: string): Option<Part>
    decreases |payload|
  {
    if payload == [] then None
    else if payload[0].name == name then Some(payload[0].part)
    else Lookup(payload[1..], name)
  }

  /** The text shown inline by a text-message request. */
  function InlineText(c: Call): Option<string> {
    if c.apiMethod != SendMessage then None
    else
      match Lookup(c.payload, "text")
      case Some(Scalar(t)) => Some(t)
      case _ => None
  }

  /** The file content carried by a document request. */
  function Attachment(c: Call): Option<string> {
    if c.apiMethod != SendDocument then None
    else
      match Lookup(c.payload, "document")
      case Some(Blob(_, content)) => Some(content)
      case _ => None
  }

  /** The requests for one rendered message, in the order they are made. */
  function Plan(chatId: int, msg: string, timestamp: string): (r: seq<Call>)
    ensures |r| == (if |msg| > MaxInline then 2 else 1)
    ensures r[0].apiMethod == SendMessage && r[|r| - 1].apiMethod == (if |msg| > MaxInline then SendDocument else SendMessage)
  {
    if |msg| > MaxInline then
      [ Call(SendMessage, MessagePayload(chatId, msg[..ExcerptLength] + Ellipsis)),
        Call(SendDocument, DocumentPayload(chatId, msg, timestamp)) ]
    else
      [ Call(SendMessage, MessagePayload(chatId, msg)) ]
  }

  /** What the chat finally holds in full: the attachment when there is one,
      otherwise the inline text. */
  function FullText(calls: seq<Call>): Option<string> {
    if |calls| == 0 then None
    else if Attachment(calls[|calls| - 1]).Some? then Attachment(calls[|calls| - 1])
    else InlineText(calls[|calls| - 1])
  }

  /** Lookup finds the first field of the given name. */
  lemma {:induction false} LookupAt(payload: seq<FormField>, i: int, name: string)
    requires 0 <= i < |payload| && payload[i].name == name
    requires forall j :: 0 <= j < i ==> payload[j].name != name
    ensures Lookup(payload, name) == Some(payload[i].part)
    decreases i
  {
    if i > 0 {
      assert payload[0].name != name;
      LookupAt(payload[1..], i - 1, name);
    }
  }

  /** The service reads back the fields a text message was sent with. */
  lemma MessagePayloadFields(chatId: int, text: string)
    ensures var p := MessagePayload(chatId, text);
      && Lookup(p, "chat_id") == Some(Scalar(IntToString(chatId)))
      && Lookup(p, "text") == Some(Scalar(text))
      && Lookup(p, "parse_mode") == Some(Scalar("Markdown"))
      && Lookup(p, "disable_web_page_preview") == Some(Scalar("1"))
  {
    var p := MessagePayload(chatId, text);
    assert |p[0].name| == 7 && |p[1].name| == 4 && |p[2].name| == 10 && |p[3].name| == 24;
    LookupAt(p, 0, "chat_id");
    LookupAt(p, 1, "text");
    LookupAt(p, 2, "parse_mode");
    LookupAt(p, 3, "disable_web_page_preview");
  }

  /** The service reads back the fields a document was sent with. */
  lemma DocumentPayloadFields(chatId: int, data: string, timestamp: string)
    ensures var p := DocumentPayload(chatId, data, timestamp);
      && Lookup(p, "chat_id") == Some(Scalar(IntToString(chatId)))
      && Lookup(p, "caption") == Some(Scalar("full log"))
      && Lookup(p, "file_name") == Some(Scalar(timestamp + "_full.log"))
      && Lookup(p, "document") == Some(Blob(timestamp + "_full.log", data))
  {
    var p := DocumentPayload(chatId, data, timestamp);
    assert |p[0].name| == 7 && |p[1].name| == 7 && |p[2].name| == 9 && |p[3].name| == 8;
    assert p[0].name[1] != p[1].name[1];
    LookupAt(p, 0, "chat_id");
    LookupAt(p, 1, "caption");
    LookupAt(p, 2, "file_name");
    LookupAt(p, 3, "document");
  }

  /** The chat identifier is sent as text that reads back as the identifier. */
  lemma ChatIdReadsBack(chatId: int, text: string, data: string, timestamp: string)
    ensures Lookup(MessagePayload(chatId, text), "chat_id").Some?
    ensures ParseInt(Lookup(MessagePayload(chatId, text), "chat_id").value.value) == Some(chatId)
    ensures Lookup(DocumentPayload(chatId, data, timestamp), "chat_id") == Lookup(MessagePayload(chatId, text), "chat_id")
  {
    MessagePayloadFields(chatId, text);
    DocumentPayloadFields(chatId, data, timestamp);
    IntRoundTrip(chatId);
  }

  /** Up to 1100 code points: one text message with the whole text. */
  lemma PlanShort(chatId: int, msg: string, timestamp: string)
    requires |msg| <= MaxInline
    ensures var calls := Plan(chatId, msg, timestamp);
      && |calls| == 1
      && InlineText(calls[0]) == Some(msg)
      && FullText(calls) == Some(msg)
  {
    MessagePayloadFields(chatId, msg);
  }

  /** Beyond 1100 code points: first a text message with the first 1024 code
      points and an ellipsis, then a document with the whole, unmodified text. */
  lemma PlanLong(chatId: int, msg: string, timestamp: string)
    requires |msg| > MaxInline
    ensures var calls := Plan(chatId, msg, timestamp);
      && |calls| == 2
      && InlineText(calls[0]) == Some(msg[..ExcerptLength] + Ellipsis)
      && Attachment(calls[1]) == Some(msg)
      && FullText(calls) == Some(msg)
  {
    var calls := Plan(chatId, msg, timestamp);
    MessagePayloadFields(chatId, msg[..ExcerptLength] + Ellipsis);
    DocumentPayloadFields(chatId, msg, timestamp);
    assert Attachment(calls[1]) == Some(msg);
  }

  /** The size policy as a whole: the first request is always a text message,
      no inline text exceeds 1100 code points, an excerpt is a prefix of the
      message, and the full text always reaches the chat. */
  lemma PlanPolicy(chatId: int, msg: string, timestamp: string)
    ensures var calls := Plan(chatId, msg, timestamp);
      && 1 <= |calls| <= 2
      && (|calls| == 2 <==> |msg| > MaxInline)
      && calls[0].apiMethod == SendMessage
      && InlineText(calls[0]).Some?
      && |InlineText(calls[0]).value| <= MaxInline
      && (var v := InlineText(calls[0]).value;
          v == msg || (|v| == ExcerptLength + 1 && v[..ExcerptLength] <= msg))
      && FullText(calls) == Some(msg)
  {
    if |msg| > MaxInline {
      PlanLong(chatId, msg, timestamp);
      var t := msg[..ExcerptLength] + Ellipsis;
      assert t[..ExcerptLength] == msg[..ExcerptLength];
    } else {
      PlanShort(chatId, msg, timestamp);
    }
  }

  /** The edge of the policy: 1100 code points still go inline, 1101 are split. */
  lemma PlanBoundary(chatId: int, msg: string, timestamp: string)
    ensures |msg| == 1100 ==> Plan(chatId, msg, timestamp) == [Call(SendMessage, MessagePayload(chatId, msg))]
    ensures |msg| == 1101 ==> |Plan(chatId, msg, timestamp)| == 2
  {
  }

  // ---------------------------------------------------------------------------
  // Every request of the plan survives multipart encoding with a boundary of
  // the logger's kind.

  lemma NoCarriageReturn(x: string, delimiter: string)
    requires '\r' !in x
    ensures !Occurs(x, ValueEnd(delimiter))
  {
    forall j | 0 <= j <= |x| ensures !MatchAt(x, ValueEnd(delimiter), j) {
      if j + |ValueEnd(delimiter)| <= |x| {
        assert x[j..j + |ValueEnd(delimiter)|][0] == x[j];
      }
    }
  }

  lemma IntTextHasNoCarriageReturn(n: int)
    ensures '\r' !in IntToString(n)
  {
    var s := IntToString(n);
    if n < 0 {
      assert s[1..] == NatToString(-n);
      assert forall i :: 1 <= i < |s| ==> s[i] == NatToString(-n)[i - 1];
    }
  }

  /** The excerpt keeps the message's freedom from the value terminator: the
      ellipsis cannot complete it, since boundaries never contain one. */
  lemma ExcerptTransmittable(msg: string, delimiter: string)
    requires ValidDelimiter(delimiter) && |msg| > MaxInline
    requires !Occurs(msg, ValueEnd(delimiter))
    ensures !Occurs(msg[..ExcerptLength] + Ellipsis, ValueEnd(delimiter))
  {
    var x := msg[..ExcerptLength] + Ellipsis;
    var pat := ValueEnd(delimiter);
    forall j | 0 <= j <= |x| ensures !MatchAt(x, pat, j) {
      if j + |pat| <= |x| {
        if j + |pat| <= ExcerptLength {
          assert x[j..j + |pat|] == msg[j..j + |pat|];
          assert !MatchAt(msg, pat, j);
        } else {
          assert x[j..j + |pat|][|pat| - 1] == x[|x| - 1];
          assert pat[|pat| - 1] != Ellipsis[0] by {
            if |delimiter| > 0 {
              assert pat[|pat| - 1] == delimiter[|delimiter| - 1];
              assert BoundaryChar(delimiter[|delimiter| - 1]);
            }
          }
        }
      }
    }
  }

  /** The fixed names and values of both payloads hold neither a quote nor a
      carriage return. */
  lemma LiteralsArePlain()
    ensures '"' !in "chat_id" && '"' !in "text" && '"' !in "parse_mode"
    ensures '"' !in "disable_web_page_preview"
    ensures '"' !in "caption" && '"' !in "file_name" && '"' !in "document"
    ensures '\r' !in "Markdown" && '\r' !in "1" && '\r' !in "full log"
  {
  }

  /** A text field whose name has no quote and whose value has no carriage
      return survives the trip. */
  lemma PlainScalar(delimiter: string, name: string, v: string)
    requires '"' !in name && '\r' !in v
    ensures Transmittable(delimiter, FormField(name, Scalar(v)))
  {
    NoCarriageReturn(v, delimiter);
  }

  lemma MessagePayloadTransmittable(chatId: int, text: string, delimiter: string)
    requires !Occurs(text, ValueEnd(delimiter))
    ensures forall i :: 0 <= i < |MessagePayload(chatId, text)| ==> Transmittable(delimiter, MessagePayload(chatId, text)[i])
  {
    var p := MessagePayload(chatId, text);
    LiteralsArePlain();
    IntTextHasNoCarriageReturn(chatId);
    PlainScalar(delimiter, "chat_id", IntToString(chatId));
    PlainScalar(delimiter, "parse_mode", "Markdown");
    PlainScalar(delimiter, "disable_web_page_preview", "1");
    assert Transmittable(delimiter, p[1]);
  }

  lemma DocumentPayloadTransmittable(chatId: int, data: string, timestamp: string, delimiter: string)
    requires '"' !in timestamp && '\r' !in timestamp
    requires !Occurs(data, ValueEnd(delimiter))
    ensures forall i :: 0 <= i < |DocumentPayload(chatId, data, timestamp)| ==>
      Transmittable(delimiter, DocumentPayload(chatId, data, timestamp)[i])
  {
    var p := DocumentPayload(chatId, data, timestamp);
    var name := DocumentName(timestamp);
    LiteralsArePlain();
    IntTextHasNoCarriageReturn(chatId);
    DocumentNameIsPlain(timestamp);
    PlainScalar(delimiter, "chat_id", IntToString(chatId));
    PlainScalar(delimiter, "caption", "full log");
    PlainScalar(delimiter, "file_name", name);
    assert Transmittable(delimiter, p[3]);
  }

  /** The file name adds only `_full.log` to the timestamp. */
  lemma DocumentNameIsPlain(timestamp: string)
    requires '"' !in timestamp && '\r' !in timestamp
    ensures '"' !in DocumentName(timestamp) && '\r' !in DocumentName(timestamp)
  {
    var suffix := "_full.log";
    assert '"' !in suffix && '\r' !in suffix;
    assert forall c :: c in DocumentName(timestamp) ==> c in timestamp || c in suffix;
  }

  /** Each request of the plan reads back, field for field, from the multipart
      body built with any boundary of the logger's kind, as long as the message
      itself does not contain a line break followed by that boundary. */
  lemma PlanRoundTrip(chatId: int, msg: string, timestamp: string, delimiter: string)
    requires ValidDelimiter(delimiter)
    requires '"' !in timestamp && '\r' !in timestamp
    requires !Occurs(msg, ValueEnd(delimiter))
    ensures forall c :: c in Plan(chatId, msg, timestamp) ==>
      Decode(delimiter, Encode(delimiter, c.payload)) == Some(c.payload)
  {
    if |msg| > MaxInline {
      ExcerptTransmittable(msg, delimiter);
      MessagePayloadTransmittable(chatId, msg[..ExcerptLength] + Ellipsis, delimiter);
      RoundTrip(delimiter, MessagePayload(chatId, msg[..ExcerptLength] + Ellipsis));
      DocumentPayloadTransmittable(chatId, msg, timestamp, delimiter);
      RoundTrip(delimiter, DocumentPayload(chatId, msg, timestamp));
    } else {
      MessagePayloadTransmittable(chatId, msg, delimiter);
      RoundTrip(delimiter, MessagePayload(chatId, msg));
    }
  }
}
