/** Numbers in decimal: how they are printed, and how strictly they are read back. */
module StrictNumbers {
  import opened Basics
  import opened JsonParsing

  predicate IsDigit(c: char) { '0' <= c <= '9' }

  predicate AllDigits(text: string) {
    forall i :: 0 <= i < |text| ==> IsDigit(text[i])
  }

  function Digits(n: nat): (digits: string)
    ensures digits != "" && AllDigits(digits)
  {
    if n < 10 then [('0' as int + n) as char] else Digits(n / 10) + Digits(n % 10)
  }

  function Decimal(n: int): string {
    if n < 0 then "-" + Digits(-n) else Digits(n)
  }

  function ValueOf(digits: string): nat
    requires AllDigits(digits)
  {
    if digits == "" then 0
    else ValueOf(digits[..|digits| - 1]) * 10 + (digits[|digits| - 1] as int - '0' as int)
  }

  datatype Numeral = Numeral(negative: bool, magnitude: nat)

  /** White space, a sign or none, and digits up to the end of the text. */
  function ReadNumeral(text: string): Option<Numeral> {
    var signed := AfterSpace(text);
    var negative := StartsWith(signed, '-');
    var digits := if negative || StartsWith(signed, '+') then signed[1..] else signed;
    if digits == "" || !AllDigits(digits) then None else Some(Numeral(negative, ValueOf(digits)))
  }

  function ParseI64Strict(text: string): Option<int64> {
    match ReadNumeral(text)
    case None => None
    case Some(Numeral(negative, magnitude)) =>
      var value := if negative then -(magnitude as int) else magnitude as int;
      if -0x8000_0000_0000_0000 <= value < 0x8000_0000_0000_0000 then Some(value) else None
  }

  /** The number is read in 64 bits without a sign: a minus negates it there, and it has to fit into 32. */
  function ParseU32Strict(text: string): Option<uint32> {
    match ReadNumeral(text)
    case None => None
    case Some(Numeral(negative, magnitude)) =>
      if magnitude >= TWO_TO_64 then None
      else
        var value := if negative then (TWO_TO_64 - magnitude) % TWO_TO_64 else magnitude;
        if value < TWO_TO_32 then Some(value) else None
  }

  lemma {:induction false} DigitsAreRead(n: nat)
    ensures ValueOf(Digits(n)) == n
  {
    var digits := Digits(n);
    var last := |digits| - 1;
    if n >= 10 {
      DigitsAreRead(n / 10);
      assert digits[..last] == Digits(n / 10);
    } else {
      assert digits[..last] == "";
    }
  }

  /** Digits come in the usual order and without leading zeros. */
  lemma DigitsAreUsual(n: nat, digit: nat)
    requires digit < 10
    ensures Digits(10 * n + digit) == (if n == 0 then "" else Digits(n)) + [digit as char + '0']
  {
  }

  lemma DecimalIsRead(n: int)
    ensures ReadNumeral(Decimal(n)) == Some(Numeral(n < 0, if n < 0 then -n else n))
  {
    var digits := Digits(if n < 0 then -n else n);
    DigitsAreRead(if n < 0 then -n else n);
    assert IsDigit(digits[0]);
    assert n < 0 ==> Decimal(n)[1..] == digits;
  }

  /** A printed number is read back exactly when it fits into 64 bits with a sign. */
  lemma PrintedI64IsRead(n: int)
    ensures
      ParseI64Strict(Decimal(n)) ==
      if -0x8000_0000_0000_0000 <= n < 0x8000_0000_0000_0000 then Some(n) else None
  {
    DecimalIsRead(n);
  }

  /** Every number of 32 bits is read back. So are some negative numbers, as others: those that are less
      than 2^32 above -2^64. */
  lemma PrintedU32IsRead(n: int)
    ensures
      ParseU32Strict(Decimal(n)) ==
      if 0 <= n < TWO_TO_32 then Some(n)
      else if 0 < n + TWO_TO_64 < TWO_TO_32 then Some(n + TWO_TO_64)
      else None
  {
    DecimalIsRead(n);
  }
}

/** The JSON envelope of the gateway. */
module JsonCodec {
  import opened Basics
  import opened JsonParsing
  import opened JsonGrammar
  import opened StrictNumbers

  datatype GatewayEnvelope = GatewayEnvelope(
    msgId: uint32, seqId: uint32, playerId: int64, body: string, trace: Trace)

  datatype Trace = Trace(h5RequestId: string, gatewayTraceId: string, serverTraceId: string)

  const MSG_ID := "msg_id"
  const SEQ_ID := "seq_id"
  const PLAYER_ID := "player_id"
  const BODY := "body"
  const H5_REQUEST_ID := "h5_request_id"
  const GATEWAY_TRACE_ID := "gateway_trace_id"
  const SERVER_TRACE_ID := "server_trace_id"

  // ----- escaping

  function EscapePiece(c: char): Piece {
    if c == QUOTE then Escaped('\"')
    else if c == BACKSLASH then Escaped('\\')
    else if c == BACKSPACE then Escaped('b')
    else if c == FORM_FEED then Escaped('f')
    else if c == '\n' then Escaped('n')
    else if c == '\r' then Escaped('r')
    else if c == '\t' then Escaped('t')
    else Plain(c)
  }

  function PiecesOf(text: string): Pieces {
    if text == "" then [] else [EscapePiece(text[0])] + PiecesOf(text[1..])
  }

  function Escape(text: string): string {
    if text == "" then "" else EscapePiece(text[0]).Written() + Escape(text[1..])
  }

  method EscapeJson(text: string) returns (out: string)
    ensures out == Escape(text)
  {
    out := "";
    for i := 0 to |text|
      invariant out + Escape(text[i..]) == Escape(text)
    {
      var written := EscapePiece(text[i]).Written();
      assert text[i..][1..] == text[i + 1..];
      Rejoined(out, written, Escape(text[i + 1..]));
      out := out + written;
    }
  }

  lemma {:induction false} PiecesStandForTheText(text: string)
    ensures AllProper(PiecesOf(text)) && Meant(PiecesOf(text)) == text
  {
    if text != "" {
      PiecesStandForTheText(text[1..]);
      assert PiecesOf(text)[1..] == PiecesOf(text[1..]);
      assert [text[0]] + text[1..] == text;
    }
  }

  lemma {:induction false} PiecesAreWritten(text: string, tail: string)
    ensures Body(PiecesOf(text), tail) == Escape(text) + ([QUOTE] + tail)
  {
    if text == "" {
      assert "" + ([QUOTE] + tail) == [QUOTE] + tail;
    } else {
      PiecesAreWritten(text[1..], tail);
      assert PiecesOf(text)[1..] == PiecesOf(text[1..]);
      Rejoined(EscapePiece(text[0]).Written(), Escape(text[1..]), [QUOTE] + tail);
    }
  }

  /** Escaping is undone by reading: an escaped text in quotes is read as the text itself. */
  lemma EscapeIsUndone(text: string, tail: string)
    ensures StringBody(Escape(text) + ([QUOTE] + tail)) == Read(text, tail)
  {
    PiecesStandForTheText(text);
    PiecesAreWritten(text, tail);
    BodyIsRead(PiecesOf(text), tail);
  }

  // ----- printing

  datatype Scalar = Number(n: int) | Words(text: string) {
    function Text(): string {
      match this
      case Number(n) => Decimal(n)
      case Words(text) => [QUOTE] + (Escape(text) + [QUOTE])
    }

    function Read(): JsonValue {
      match this
      case Number(n) => JsonValue(false, Decimal(n))
      case Words(text) => JsonValue(true, text)
    }
  }

  datatype Entry = Entry(key: string, value: Scalar) {
    function Text(): string {
      [QUOTE] + (Escape(key) + ([QUOTE] + ([':'] + value.Text())))
    }

    /** The entry in the grammar of the parser, without white space. */
    function Field(): Field {
      var writing := if value.Number? then Token(Decimal(value.n)) else Writing.Text(PiecesOf(value.text));
      JsonGrammar.Field(PiecesOf(key), "", "", writing, "", "")
    }
  }

  function FieldsOf(entries: seq<Entry>): (fields: seq<Field>)
    ensures |fields| == |entries|
  {
    if entries == [] then [] else [entries[0].Field()] + FieldsOf(entries[1..])
  }

  function Joined(entries: seq<Entry>): string {
    if entries == [] then ""
    else if |entries| == 1 then entries[0].Text()
    else entries[0].Text() + ([','] + Joined(entries[1..]))
  }

  function Known(entries: seq<Entry>, before: Fields): Fields {
    if entries == [] then before else Known(entries[1..], before[entries[0].key := entries[0].value.Read()])
  }

  lemma TokenIsProper(n: int)
    ensures Token(Decimal(n)).Proper()
  {
    var digits := Digits(if n < 0 then -n else n);
    assert forall i :: 0 <= i < |digits| ==> IsDigit(digits[i]) && !EndsToken(digits[i]);
    assert n < 0 ==> forall i :: 0 < i < |Decimal(n)| ==> Decimal(n)[i] == digits[i - 1];
  }

  lemma ScalarIsWritten(value: Scalar, writing: Writing, tail: string)
    requires writing == if value.Number? then Token(Decimal(value.n)) else Writing.Text(PiecesOf(value.text))
    ensures writing.Proper() && writing.Value() == value.Read() && writing.Then(tail) == value.Text() + tail
  {
    match value
    case Number(n) => TokenIsProper(n);
    case Words(text) =>
      PiecesStandForTheText(text);
      PiecesAreWritten(text, tail);
      Rejoined([QUOTE], Escape(text) + [QUOTE], tail);
      Rejoined(Escape(text), [QUOTE], tail);
  }

  lemma EntryIsWritten(entry: Entry, tail: string)
    ensures entry.Field().Proper() && entry.Field().Then(tail) == entry.Text() + tail
    ensures Meant(entry.Field().key) == entry.key && entry.Field().value.Value() == entry.value.Read()
  {
    var field, value := entry.Field(), entry.value.Text();
    ScalarIsWritten(entry.value, field.value, field.after + tail);
    assert field.after + tail == tail;
    assert field.afterColon + (value + tail) == value + tail;
    var colon := [':'] + (value + tail);
    assert field.beforeColon + colon == colon;
    PiecesStandForTheText(entry.key);
    PiecesAreWritten(entry.key, colon);
    KeyIsWritten(Escape(entry.key), value, tail);
  }

  lemma KeyIsWritten(key: string, value: string, tail: string)
    ensures
      [QUOTE] + (key + ([QUOTE] + ([':'] + (value + tail)))) == ([QUOTE] + (key + ([QUOTE] + ([':'] + value)))) + tail
  {
    var colon := [':'] + value;
    Rejoined([':'], value, tail);
    Rejoined([QUOTE], colon, tail);
    Rejoined(key, [QUOTE] + colon, tail);
    Rejoined([QUOTE], key + ([QUOTE] + colon), tail);
  }

  lemma {:induction false} EntriesAreWritten(entries: seq<Entry>, before: Fields)
    requires entries != []
    ensures forall i :: 0 <= i < |entries| ==> FieldsOf(entries)[i].Proper()
    ensures Listed(FieldsOf(entries)) == Joined(entries) + "}"
    ensures Entered(FieldsOf(entries), before) == Known(entries, before)
    decreases |entries|
  {
    var first, fields := entries[0], FieldsOf(entries);
    var here := before[first.key := first.value.Read()];
    assert fields[1..] == FieldsOf(entries[1..]);
    if |entries| == 1 {
      EntryIsWritten(first, "}");
      assert ['}'] + fields[0].next == "}";
      assert Known(entries[1..], here) == here == Entered(fields[1..], here);
    } else {
      EntriesAreWritten(entries[1..], here);
      var rest := Listed(fields[1..]);
      EntryIsWritten(first, [','] + rest);
      assert fields[0].next + rest == rest;
      Regrouped(first.Text(), Joined(entries[1..]), "}");
    }
  }

  lemma {:induction false} LastEntry(entries: seq<Entry>, entry: Entry, before: Fields)
    ensures Known(entries + [entry], before) == Known(entries, before)[entry.key := entry.value.Read()]
    ensures entries != [] ==> Joined(entries + [entry]) == Joined(entries) + ([','] + entry.Text())
    decreases |entries|
  {
    if entries == [] {
      assert Known([entry][1..], before[entry.key := entry.value.Read()]) == before[entry.key := entry.value.Read()];
    } else {
      assert (entries + [entry])[1..] == entries[1..] + [entry];
      LastEntry(entries[1..], entry, before[entries[0].key := entries[0].value.Read()]);
      if |entries| > 1 {
        Regrouped(entries[0].Text(), Joined(entries[1..]), [','] + entry.Text());
      }
    }
  }

  lemma Regrouped(first: string, middle: string, last: string)
    ensures first + ([','] + (middle + last)) == (first + ([','] + middle)) + last
  {
  }

  // ----- the envelope

  function OptionalEntry(key: string, text: string): seq<Entry> {
    if text == "" then [] else [Entry(key, Words(text))]
  }

  function RequiredEntries(e: GatewayEnvelope): (entries: seq<Entry>)
    ensures entries != []
  {
    [Entry(MSG_ID, Number(e.msgId)), Entry(SEQ_ID, Number(e.seqId)), Entry(PLAYER_ID, Number(e.playerId))] +
    [Entry(BODY, Words(e.body))]
  }

  function TraceEntries(trace: Trace): seq<Entry> {
    (OptionalEntry(H5_REQUEST_ID, trace.h5RequestId) + OptionalEntry(GATEWAY_TRACE_ID, trace.gatewayTraceId)) +
    OptionalEntry(SERVER_TRACE_ID, trace.serverTraceId)
  }

  /** What an envelope is printed as: trace fields that are empty are left out. */
  function EntriesOf(e: GatewayEnvelope): seq<Entry> {
    RequiredEntries(e) + TraceEntries(e.trace)
  }

  function EnvelopeText(e: GatewayEnvelope): string {
    "{" + (Joined(EntriesOf(e)) + "}")
  }

  function TextOrEmpty(fields: Fields, key: string): string {
    if key in fields && fields[key].isString then fields[key].value else ""
  }

  function EnvelopeOf(fields: Fields): Option<GatewayEnvelope> {
    if MSG_ID !in fields || SEQ_ID !in fields || PLAYER_ID !in fields || BODY !in fields then None
    else
      var msgId, seqId := ParseU32Strict(fields[MSG_ID].value), ParseU32Strict(fields[SEQ_ID].value);
      var playerId := ParseI64Strict(fields[PLAYER_ID].value);
      if msgId.None? || seqId.None? || playerId.None? || !fields[BODY].isString then None
      else
        var trace := Trace(TextOrEmpty(fields, H5_REQUEST_ID), TextOrEmpty(fields, GATEWAY_TRACE_ID),
                           TextOrEmpty(fields, SERVER_TRACE_ID));
        Some(GatewayEnvelope(msgId.value, seqId.value, playerId.value, fields[BODY].value, trace))
  }

  function ReadEnvelope(text: string): Option<GatewayEnvelope> {
    match ReadObject(text)
    case None => None
    case Some(fields) => EnvelopeOf(fields)
  }

  lemma OptionalIsKnown(entries: seq<Entry>, key: string, text: string, before: Fields)
    requires key !in Known(entries, before)
    ensures
      var fields, more := Known(entries, before), Known(entries + OptionalEntry(key, text), before);
      && TextOrEmpty(more, key) == text
      && (forall k :: k in more ==> k in fields || k == key)
      && forall k :: k in fields ==> k in more && more[k] == fields[k]
  {
    if text == "" {
      assert entries + [] == entries;
    } else {
      LastEntry(entries, Entry(key, Words(text)), before);
    }
  }

  lemma KeysDiffer()
    ensures MSG_ID != SEQ_ID && PLAYER_ID !in {MSG_ID, SEQ_ID} && BODY !in {MSG_ID, SEQ_ID, PLAYER_ID}
    ensures H5_REQUEST_ID !in {MSG_ID, SEQ_ID, PLAYER_ID, BODY}
    ensures GATEWAY_TRACE_ID !in {MSG_ID, SEQ_ID, PLAYER_ID, BODY, H5_REQUEST_ID}
    ensures SERVER_TRACE_ID !in {MSG_ID, SEQ_ID, PLAYER_ID, BODY, H5_REQUEST_ID, GATEWAY_TRACE_ID}
  {
    assert MSG_ID[0] != SEQ_ID[0];
  }

  lemma RequiredAreKnown(e: GatewayEnvelope)
    ensures
      var fields := Known(RequiredEntries(e), map[]);
      && fields.Keys == {MSG_ID, SEQ_ID, PLAYER_ID, BODY}
      && fields[MSG_ID].value == Decimal(e.msgId) && fields[SEQ_ID].value == Decimal(e.seqId)
      && fields[PLAYER_ID].value == Decimal(e.playerId) && fields[BODY] == JsonValue(true, e.body)
  {
    KeysDiffer();
    FourAreKnown(Entry(MSG_ID, Number(e.msgId)), Entry(SEQ_ID, Number(e.seqId)), Entry(PLAYER_ID, Number(e.playerId)),
                 Entry(BODY, Words(e.body)));
  }

  lemma FourAreKnown(a: Entry, b: Entry, c: Entry, d: Entry)
    ensures
      Known([a, b, c] + [d], map[]) ==
      map[][a.key := a.value.Read()][b.key := b.value.Read()][c.key := c.value.Read()][d.key := d.value.Read()]
  {
    LastEntry([], a, map[]);
    LastEntry([a], b, map[]);
    LastEntry([a, b], c, map[]);
    LastEntry([a, b, c], d, map[]);
    assert [] + [a] == [a] && [a] + [b] == [a, b] && [a, b] + [c] == [a, b, c];
  }

  lemma TraceIsKnown(entries: seq<Entry>, trace: Trace, before: Fields)
    requires Known(entries, before).Keys !! {H5_REQUEST_ID, GATEWAY_TRACE_ID, SERVER_TRACE_ID}
    ensures
      var fields, more := Known(entries, before), Known(entries + TraceEntries(trace), before);
      && Trace(TextOrEmpty(more, H5_REQUEST_ID), TextOrEmpty(more, GATEWAY_TRACE_ID),
               TextOrEmpty(more, SERVER_TRACE_ID)) == trace
      && forall k :: k in fields ==> k in more && more[k] == fields[k]
  {
    KeysDiffer();
    var h5 := OptionalEntry(H5_REQUEST_ID, trace.h5RequestId);
    var gateway := OptionalEntry(GATEWAY_TRACE_ID, trace.gatewayTraceId);
    OptionalIsKnown(entries, H5_REQUEST_ID, trace.h5RequestId, before);
    OptionalIsKnown(entries + h5, GATEWAY_TRACE_ID, trace.gatewayTraceId, before);
    OptionalIsKnown((entries + h5) + gateway, SERVER_TRACE_ID, trace.serverTraceId, before);
    Rejoined(entries, h5, gateway);
    Rejoined(entries, h5 + gateway, OptionalEntry(SERVER_TRACE_ID, trace.serverTraceId));
  }

  lemma EntriesMeanTheEnvelope(e: GatewayEnvelope)
    ensures EnvelopeOf(Known(EntriesOf(e), map[])) == Some(e)
  {
    KeysDiffer();
    RequiredAreKnown(e);
    TraceIsKnown(RequiredEntries(e), e.trace, map[]);
    PrintedU32IsRead(e.msgId);
    PrintedU32IsRead(e.seqId);
    PrintedI64IsRead(e.playerId);
  }

  /** Every envelope is read back from the text it is printed as. */
  lemma EnvelopeIsReadBack(e: GatewayEnvelope)
    ensures ReadEnvelope(EnvelopeText(e)) == Some(e)
  {
    var document := Object("", "", FieldsOf(EntriesOf(e)));
    EntriesAreWritten(EntriesOf(e), map[]);
    assert document.Text() == EnvelopeText(e);
    DocumentIsRead(document);
    EntriesMeanTheEnvelope(e);
  }

  /** A text is read as an envelope exactly when it is a text of the grammar with an envelope's fields. */
  lemma EnvelopeReadingIsExact(text: string, e: GatewayEnvelope)
    ensures
      ReadEnvelope(text) == Some(e) <==>
      exists document: Document ::
        Writes(document, text, document.Meaning()) && EnvelopeOf(document.Meaning()) == Some(e)
  {
    if ReadEnvelope(text) == Some(e) {
      ParserIsExact(text, ReadObject(text).value);
    }
    forall document: Document | Writes(document, text, document.Meaning())
      ensures ReadObject(text) == Some(document.Meaning())
    {
      ParserIsExact(text, document.Meaning());
    }
  }

  // ----- the codec

  /** A key that is printed as it stands. */
  ghost predicate NeedsNoEscape(key: string) {
    forall i :: 0 <= i < |key| ==> EscapePiece(key[i]) == Plain(key[i])
  }

  lemma {:induction false} PrintedAsItStands(key: string)
    requires NeedsNoEscape(key)
    ensures Escape(key) == key
  {
    if key != "" {
      PrintedAsItStands(key[1..]);
      assert [key[0]] + key[1..] == key;
    }
  }

  /** A key in quotes and a colon. */
  function Label(key: string): string {
    [QUOTE] + key + [QUOTE, ':']
  }

  function OptionalText(key: string, text: string): string {
    if text == "" then "" else [','] + (Label(key) + ([QUOTE] + (Escape(text) + [QUOTE])))
  }

  lemma EntryIsPrintedAs(key: string, value: Scalar)
    requires NeedsNoEscape(key)
    ensures Entry(key, value).Text() == Label(key) + value.Text()
  {
    PrintedAsItStands(key);
  }

  lemma OptionalIsPrintedAs(entries: seq<Entry>, key: string, text: string)
    requires NeedsNoEscape(key) && entries != []
    ensures Joined(entries + OptionalEntry(key, text)) == Joined(entries) + OptionalText(key, text)
  {
    if text == "" {
      assert entries + [] == entries;
    } else {
      EntryIsPrintedAs(key, Words(text));
      LastEntry(entries, Entry(key, Words(text)), map[]);
    }
  }

  lemma FourArePrinted(a: Entry, b: Entry, c: Entry, d: Entry)
    ensures
      Joined([a, b, c] + [d]) ==
      ((a.Text() + ([','] + b.Text())) + ([','] + c.Text())) + ([','] + d.Text())
  {
    LastEntry([a], b, map[]);
    LastEntry([a, b], c, map[]);
    LastEntry([a, b, c], d, map[]);
    assert [a] + [b] == [a, b] && [a, b] + [c] == [a, b, c];
  }

  /** The text of an envelope, written out with its keys: trace fields that are empty are left out. */
  lemma EnvelopeIsPrintedAs(e: GatewayEnvelope)
    ensures
      var required :=
        ((Label("msg_id") + Decimal(e.msgId) + ([','] + (Label("seq_id") + Decimal(e.seqId))))
         + ([','] + (Label("player_id") + Decimal(e.playerId))))
        + ([','] + (Label("body") + ([QUOTE] + (Escape(e.body) + [QUOTE]))));
      EnvelopeText(e) ==
      "{" + (((required + OptionalText("h5_request_id", e.trace.h5RequestId))
              + OptionalText("gateway_trace_id", e.trace.gatewayTraceId))
             + OptionalText("server_trace_id", e.trace.serverTraceId) + "}")
  {
    KeysNeedNoEscape();
    EntryIsPrintedAs(MSG_ID, Number(e.msgId));
    EntryIsPrintedAs(SEQ_ID, Number(e.seqId));
    EntryIsPrintedAs(PLAYER_ID, Number(e.playerId));
    EntryIsPrintedAs(BODY, Words(e.body));
    FourArePrinted(Entry(MSG_ID, Number(e.msgId)), Entry(SEQ_ID, Number(e.seqId)),
                   Entry(PLAYER_ID, Number(e.playerId)), Entry(BODY, Words(e.body)));
    TraceIsPrintedAs(RequiredEntries(e), e.trace);
  }

  lemma TraceIsPrintedAs(entries: seq<Entry>, trace: Trace)
    requires entries != []
    ensures
      Joined(entries + TraceEntries(trace)) ==
      ((Joined(entries) + OptionalText(H5_REQUEST_ID, trace.h5RequestId))
       + OptionalText(GATEWAY_TRACE_ID, trace.gatewayTraceId))
      + OptionalText(SERVER_TRACE_ID, trace.serverTraceId)
  {
    KeysNeedNoEscape();
    var h5 := OptionalEntry(H5_REQUEST_ID, trace.h5RequestId);
    var gateway := OptionalEntry(GATEWAY_TRACE_ID, trace.gatewayTraceId);
    OptionalIsPrintedAs(entries, H5_REQUEST_ID, trace.h5RequestId);
    OptionalIsPrintedAs(entries + h5, GATEWAY_TRACE_ID, trace.gatewayTraceId);
    OptionalIsPrintedAs((entries + h5) + gateway, SERVER_TRACE_ID, trace.serverTraceId);
    Rejoined(entries, h5, gateway);
    Rejoined(entries, h5 + gateway, OptionalEntry(SERVER_TRACE_ID, trace.serverTraceId));
  }

  /** Which fields an envelope is read from, by their keys. */
  lemma EnvelopeIsReadFrom(fields: Fields, e: GatewayEnvelope)
    ensures
      EnvelopeOf(fields) == Some(e) <==>
      && "msg_id" in fields && ParseU32Strict(fields["msg_id"].value) == Some(e.msgId)
      && "seq_id" in fields && ParseU32Strict(fields["seq_id"].value) == Some(e.seqId)
      && "player_id" in fields && ParseI64Strict(fields["player_id"].value) == Some(e.playerId)
      && "body" in fields && fields["body"] == JsonValue(true, e.body)
      && e.trace.h5RequestId == TextOrEmpty(fields, "h5_request_id")
      && e.trace.gatewayTraceId == TextOrEmpty(fields, "gateway_trace_id")
      && e.trace.serverTraceId == TextOrEmpty(fields, "server_trace_id")
  {
  }

  lemma EntryIsAppended(out: string, entries: seq<Entry>, entry: Entry)
    requires entries != [] && out == "{" + Joined(entries)
    ensures out + ([','] + entry.Text()) == "{" + Joined(entries + [entry])
  {
    LastEntry(entries, entry, map[]);
    Rejoined("{", Joined(entries), [','] + entry.Text());
  }

  /** Prints a key, a colon and the value. */
  function Pair(key: string, value: string): string {
    [QUOTE] + (key + ([QUOTE] + ([':'] + value)))
  }

  method AddNumber(out: string, key: string, n: int, ghost entries: seq<Entry>) returns (more: string)
    requires NeedsNoEscape(key) && entries != [] && out == "{" + Joined(entries)
    ensures more == "{" + Joined(entries + [Entry(key, Number(n))])
  {
    PrintedAsItStands(key);
    EntryIsAppended(out, entries, Entry(key, Number(n)));
    more := out + ([','] + Pair(key, Decimal(n)));
  }

  method AddText(out: string, key: string, text: string, ghost entries: seq<Entry>) returns (more: string)
    requires NeedsNoEscape(key) && entries != [] && out == "{" + Joined(entries)
    ensures more == "{" + Joined(entries + [Entry(key, Words(text))])
  {
    PrintedAsItStands(key);
    EntryIsAppended(out, entries, Entry(key, Words(text)));
    var escaped := EscapeJson(text);
    more := out + ([','] + Pair(key, [QUOTE] + (escaped + [QUOTE])));
  }

  method AddOptional(out: string, key: string, text: string, ghost entries: seq<Entry>) returns (more: string)
    requires NeedsNoEscape(key) && entries != [] && out == "{" + Joined(entries)
    ensures more == "{" + Joined(entries + OptionalEntry(key, text))
  {
    more := out;
    assert entries + [] == entries;
    if text != "" {
      more := AddText(out, key, text, entries);
    }
  }

  lemma KeysNeedNoEscape()
    ensures NeedsNoEscape(MSG_ID) && NeedsNoEscape(SEQ_ID) && NeedsNoEscape(PLAYER_ID) && NeedsNoEscape(BODY)
    ensures NeedsNoEscape(H5_REQUEST_ID) && NeedsNoEscape(GATEWAY_TRACE_ID) && NeedsNoEscape(SERVER_TRACE_ID)
  {
  }

  method PrintRequired(e: GatewayEnvelope) returns (out: string)
    ensures out == "{" + Joined(RequiredEntries(e))
  {
    KeysNeedNoEscape();
    PrintedAsItStands(MSG_ID);
    ghost var msgId, seqId := Entry(MSG_ID, Number(e.msgId)), Entry(SEQ_ID, Number(e.seqId));
    ghost var playerId, body := Entry(PLAYER_ID, Number(e.playerId)), Entry(BODY, Words(e.body));
    out := "{" + Pair(MSG_ID, Decimal(e.msgId));
    out := AddNumber(out, SEQ_ID, e.seqId, [msgId]);
    assert [msgId] + [seqId] == [msgId, seqId];
    out := AddNumber(out, PLAYER_ID, e.playerId, [msgId, seqId]);
    assert [msgId, seqId] + [playerId] == [msgId, seqId, playerId];
    out := AddText(out, BODY, e.body, [msgId, seqId, playerId]);
  }

  method PrintTrace(out: string, trace: Trace, ghost entries: seq<Entry>) returns (more: string)
    requires entries != [] && out == "{" + Joined(entries)
    ensures more == "{" + Joined(entries + TraceEntries(trace))
  {
    KeysNeedNoEscape();
    ghost var h5 := OptionalEntry(H5_REQUEST_ID, trace.h5RequestId);
    ghost var gateway := OptionalEntry(GATEWAY_TRACE_ID, trace.gatewayTraceId);
    more := AddOptional(out, H5_REQUEST_ID, trace.h5RequestId, entries);
    more := AddOptional(more, GATEWAY_TRACE_ID, trace.gatewayTraceId, entries + h5);
    more := AddOptional(more, SERVER_TRACE_ID, trace.serverTraceId, (entries + h5) + gateway);
    Rejoined(entries, h5, gateway);
    Rejoined(entries, h5 + gateway, OptionalEntry(SERVER_TRACE_ID, trace.serverTraceId));
  }

  method BuildEnvelopeJson(e: GatewayEnvelope) returns (out: string)
    ensures out == EnvelopeText(e)
  {
    out := PrintRequired(e);
    out := PrintTrace(out, e.trace, RequiredEntries(e));
    Rejoined("{", Joined(EntriesOf(e)), "}");
    out := out + "}";
  }

  method ParseEnvelopeJson(text: string) returns (ok: bool, e: GatewayEnvelope)
    ensures ok == ReadEnvelope(text).Some?
    ensures ok ==> ReadEnvelope(text) == Some(e)
  {
    e := GatewayEnvelope(0, 0, 0, "", Trace("", "", ""));
    var parser := new JsonObjectParser(text);
    var fields;
    ok, fields := parser.Parse();
    if ok {
      var envelope := EnvelopeOf(fields);
      ok := envelope.Some?;
      if ok {
        e := envelope.value;
      }
    }
  }
}
