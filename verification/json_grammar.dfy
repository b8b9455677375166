/** Which texts the JSON parser reads, and as what: a grammar of them, and the proof that the parser reads
    exactly the texts of the grammar, each as what it means. */
module JsonGrammar {
  import opened Basics
  import opened JsonParsing

  /** How one character of a string is written: as itself, or as a backslash and a letter. */
  datatype Piece = Plain(c: char) | Escaped(letter: char) {
    ghost predicate Proper() {
      match this
      case Plain(c) => c != QUOTE && c != BACKSLASH
      case Escaped(letter) => Unescape(letter).Some?
    }

    function Written(): string {
      match this
      case Plain(c) => [c]
      case Escaped(letter) => [BACKSLASH, letter]
    }

    function Meant(): char {
      match this
      case Plain(c) => c
      case Escaped(letter) => if Unescape(letter).Some? then Unescape(letter).value else letter
    }
  }

  type Pieces = seq<Piece>

  ghost predicate AllProper(pieces: Pieces) {
    forall i :: 0 <= i < |pieces| ==> pieces[i].Proper()
  }

  /** The text of a string, the closing quote and the text that follows. */
  function Body(pieces: Pieces, tail: string): string {
    if pieces == [] then [QUOTE] + tail else pieces[0].Written() + Body(pieces[1..], tail)
  }

  function Meant(pieces: Pieces): string {
    if pieces == [] then "" else [pieces[0].Meant()] + Meant(pieces[1..])
  }

  function Quoted(pieces: Pieces, tail: string): string {
    [QUOTE] + Body(pieces, tail)
  }

  datatype Writing = Text(pieces: Pieces) | Token(token: string) {
    ghost predicate Proper() {
      match this
      case Text(pieces) => AllProper(pieces)
      case Token(token) => token != "" && token[0] != QUOTE && forall i :: 0 <= i < |token| ==> !EndsToken(token[i])
    }

    function Then(tail: string): string {
      match this
      case Text(pieces) => Quoted(pieces, tail)
      case Token(token) => token + tail
    }

    function Value(): JsonValue {
      match this
      case Text(pieces) => JsonValue(true, Meant(pieces))
      case Token(token) => JsonValue(false, token)
    }
  }

  /** A field with the white space in it: before and after the colon, behind the value, and behind the
      comma or brace that follows. */
  datatype Field = Field(
    key: Pieces, beforeColon: string, afterColon: string, value: Writing, after: string, next: string)
  {
    ghost predicate Proper() {
      AllProper(key) && value.Proper() &&
      Blank(beforeColon) && Blank(afterColon) && Blank(after) && Blank(next)
    }

    function Then(tail: string): string {
      Quoted(key, beforeColon + ([':'] + (afterColon + value.Then(after + tail))))
    }
  }

  ghost predicate Blank(gap: string) {
    forall i :: 0 <= i < |gap| ==> IsSpace(gap[i])
  }

  /** The text of the fields, with the commas between them and the closing brace. */
  function Listed(fields: seq<Field>): string
    requires fields != []
  {
    if |fields| == 1 then fields[0].Then(['}'] + fields[0].next)
    else fields[0].Then([','] + (fields[0].next + Listed(fields[1..])))
  }

  /** What the fields mean on top of others: of fields with the same key, the last one stands. */
  function Entered(fields: seq<Field>, before: Fields): Fields {
    if fields == [] then before
    else Entered(fields[1..], before[Meant(fields[0].key) := fields[0].value.Value()])
  }

  /** An object; behind an empty one, anything may follow. */
  datatype Document =
    | Object(lead: string, inner: string, fields: seq<Field>)
    | Empty(lead: string, inner: string, junk: string)
  {
    ghost predicate Proper() {
      && Blank(lead) && Blank(inner)
      && (Object? ==> fields != [] && forall i :: 0 <= i < |fields| ==> fields[i].Proper())
    }

    function Text(): string
      requires Object? ==> fields != []
    {
      lead + (['{'] + (inner + if Object? then Listed(fields) else ['}'] + junk))
    }

    function Meaning(): Fields {
      if Object? then Entered(fields, map[]) else map[]
    }
  }

  // ----- every text of the grammar is read, as what it means

  lemma {:induction false} BodyIsRead(pieces: Pieces, tail: string)
    requires AllProper(pieces)
    ensures StringBody(Body(pieces, tail)) == Read(Meant(pieces), tail)
  {
    if pieces != [] {
      BodyIsRead(pieces[1..], tail);
      var text, rest := Body(pieces, tail), Body(pieces[1..], tail);
      assert pieces[0].Proper();
      assert pieces[0].Plain? ==> text[1..] == rest;
      assert pieces[0].Escaped? ==> text[2..] == rest;
    }
  }

  lemma QuotedIsRead(pieces: Pieces, tail: string)
    requires AllProper(pieces)
    ensures ReadString(Quoted(pieces, tail)) == Read(Meant(pieces), tail)
  {
    BodyIsRead(pieces, tail);
    assert Quoted(pieces, tail)[1..] == Body(pieces, tail);
  }

  lemma {:induction false} GapIsSkipped(gap: string, rest: string)
    requires Blank(gap) && (rest == "" || !IsSpace(rest[0]))
    ensures AfterSpace(gap + rest) == rest
  {
    if gap == "" {
      assert gap + rest == rest;
    } else {
      assert (gap + rest)[1..] == gap[1..] + rest;
      GapIsSkipped(gap[1..], rest);
    }
  }

  lemma {:induction false} TokenIsRead(token: string, rest: string)
    requires (forall i :: 0 <= i < |token| ==> !EndsToken(token[i])) && rest != "" && EndsToken(rest[0])
    ensures TokenLength(token + rest) == |token|
  {
    if token == "" {
      assert token + rest == rest;
    } else {
      assert (token + rest)[1..] == token[1..] + rest;
      TokenIsRead(token[1..], rest);
    }
  }

  lemma ValueIsRead(value: Writing, tail: string)
    requires value.Proper() && tail != "" && EndsToken(tail[0])
    ensures ReadValue(value.Then(tail)) == Read(value.Value(), tail)
    ensures value.Then(tail) != "" && !IsSpace(value.Then(tail)[0])
  {
    match value
    case Text(pieces) => QuotedIsRead(pieces, tail);
    case Token(token) =>
      TokenIsRead(token, tail);
      assert (token + tail)[..|token|] == token && (token + tail)[|token|..] == tail;
      assert !EndsToken(token[0]);
  }

  lemma FieldIsRead(field: Field, tail: string)
    requires field.Proper() && tail != "" && (tail[0] == ',' || tail[0] == '}')
    ensures ReadField(field.Then(tail)) == Read((Meant(field.key), field.value.Value()), tail)
  {
    var behind := field.after + tail;
    assert EndsToken(behind[0]);
    ValueIsRead(field.value, behind);
    GapIsSkipped(field.after, tail);
    var value := field.value.Then(behind);
    GapIsSkipped(field.afterColon, value);
    var colon := [':'] + (field.afterColon + value);
    assert colon[1..] == field.afterColon + value;
    GapIsSkipped(field.beforeColon, colon);
    QuotedIsRead(field.key, field.beforeColon + colon);
  }

  lemma {:induction false} FieldsAreRead(fields: seq<Field>, before: Fields)
    requires fields != [] && forall i :: 0 <= i < |fields| ==> fields[i].Proper()
    ensures ReadFields(Listed(fields), before) == Some(Entered(fields, before))
    ensures StartsWith(Listed(fields), QUOTE)
    decreases |fields|
  {
    var first := fields[0];
    var here := before[Meant(first.key) := first.value.Value()];
    if |fields| == 1 {
      var tail := ['}'] + first.next;
      FieldIsRead(first, tail);
      assert tail[1..] == first.next == first.next + "";
      GapIsSkipped(first.next, "");
    } else {
      var rest := Listed(fields[1..]);
      FieldsAreRead(fields[1..], here);
      var tail := [','] + (first.next + rest);
      FieldIsRead(first, tail);
      assert tail[1..] == first.next + rest;
      GapIsSkipped(first.next, rest);
    }
  }

  lemma DocumentIsRead(document: Document)
    requires document.Proper()
    ensures ReadObject(document.Text()) == Some(document.Meaning())
  {
    var content := if document.Object? then Listed(document.fields) else ['}'] + document.junk;
    if document.Object? {
      FieldsAreRead(document.fields, map[]);
    }
    GapIsSkipped(document.inner, content);
    var brace := ['{'] + (document.inner + content);
    assert brace[1..] == document.inner + content;
    GapIsSkipped(document.lead, brace);
  }

  // ----- every text that is read is a text of the grammar

  lemma {:induction false} BodyWasWritten(text: string) returns (pieces: Pieces)
    requires StringBody(text).Read?
    ensures AllProper(pieces) && Body(pieces, StringBody(text).rest) == text && Meant(pieces) == StringBody(text).value
    decreases |text|
  {
    if text[0] == QUOTE {
      pieces := [];
    } else {
      var first := if text[0] == BACKSLASH then Escaped(text[1]) else Plain(text[0]);
      var n := |first.Written()|;
      assert text == first.Written() + text[n..];
      var more := BodyWasWritten(text[n..]);
      pieces := [first] + more;
      assert pieces[1..] == more;
    }
  }

  lemma StringWasQuoted(text: string) returns (pieces: Pieces)
    requires ReadString(text).Read?
    ensures AllProper(pieces) && Quoted(pieces, ReadString(text).rest) == text
    ensures Meant(pieces) == ReadString(text).value
  {
    pieces := BodyWasWritten(text[1..]);
  }

  lemma {:induction false} GapWasThere(text: string) returns (gap: string)
    ensures Blank(gap) && gap + AfterSpace(text) == text
    decreases |text|
  {
    if text != "" && IsSpace(text[0]) {
      var more := GapWasThere(text[1..]);
      gap := [text[0]] + more;
    } else {
      gap := "";
    }
  }

  lemma {:induction false} TokenHasNoEnd(text: string)
    ensures forall i :: 0 <= i < TokenLength(text) ==> !EndsToken(text[i])
    decreases |text|
  {
    if text != "" && !EndsToken(text[0]) {
      TokenHasNoEnd(text[1..]);
      assert forall i :: 0 < i < TokenLength(text) ==> text[i] == text[1..][i - 1];
    }
  }

  lemma ValueWasWritten(text: string) returns (value: Writing)
    requires ReadValue(text).Read?
    ensures value.Proper() && value.Then(ReadValue(text).rest) == text && value.Value() == ReadValue(text).value
  {
    if StartsWith(text, QUOTE) {
      var pieces := StringWasQuoted(text);
      value := Text(pieces);
    } else {
      TokenHasNoEnd(text);
      value := Token(text[..TokenLength(text)]);
    }
  }

  lemma FieldWasWritten(text: string) returns (field: Field)
    requires ReadField(text).Read?
    ensures field.Proper() && field.next == "" && field.Then(ReadField(text).rest) == text
    ensures (Meant(field.key), field.value.Value()) == ReadField(text).value
  {
    var key := StringWasQuoted(text);
    var rest := ReadString(text).rest;
    var beforeColon := GapWasThere(rest);
    var colon := AfterSpace(rest);
    assert colon == [':'] + colon[1..];
    var afterColon := GapWasThere(colon[1..]);
    var value := ValueWasWritten(AfterSpace(colon[1..]));
    var after := GapWasThere(ReadValue(AfterSpace(colon[1..])).rest);
    field := Field(key, beforeColon, afterColon, value, after, "");
  }

  lemma {:induction false} FieldsWereWritten(text: string, before: Fields) returns (fields: seq<Field>)
    requires ReadFields(text, before).Some?
    ensures fields != [] && forall i :: 0 <= i < |fields| ==> fields[i].Proper()
    ensures Listed(fields) == text && Entered(fields, before) == ReadFields(text, before).value
    decreases |text|
  {
    var first := FieldWasWritten(text);
    var rest := ReadField(text).rest;
    assert rest == [rest[0]] + rest[1..];
    var next := GapWasThere(rest[1..]);
    first := first.(next := next);
    if StartsWith(rest, ',') {
      var more := FieldsWereWritten(AfterSpace(rest[1..]), before[Meant(first.key) := first.value.Value()]);
      fields := [first] + more;
      assert fields[1..] == more;
    } else {
      fields := [first];
      assert rest[1..] == next;
      assert Entered(fields[1..], before[Meant(first.key) := first.value.Value()]) ==
             before[Meant(first.key) := first.value.Value()];
    }
  }

  lemma DocumentWasWritten(text: string) returns (document: Document)
    requires ReadObject(text).Some?
    ensures document.Proper() && document.Text() == text && document.Meaning() == ReadObject(text).value
  {
    var lead := GapWasThere(text);
    var brace := AfterSpace(text);
    assert brace == ['{'] + brace[1..];
    var inner := GapWasThere(brace[1..]);
    var content := AfterSpace(brace[1..]);
    if StartsWith(content, '}') {
      assert content == ['}'] + content[1..];
      document := Empty(lead, inner, content[1..]);
    } else {
      var fields := FieldsWereWritten(content, map[]);
      document := Object(lead, inner, fields);
    }
  }

  ghost predicate Writes(document: Document, text: string, fields: Fields) {
    document.Proper() && document.Text() == text && document.Meaning() == fields
  }

  /** The parser accepts exactly the texts of the grammar, and reads each as what it means. */
  lemma ParserIsExact(text: string, fields: Fields)
    ensures ReadObject(text) == Some(fields) <==> exists document :: Writes(document, text, fields)
  {
    if ReadObject(text) == Some(fields) {
      var document := DocumentWasWritten(text);
      assert Writes(document, text, fields);
    }
    forall document | Writes(document, text, fields) ensures ReadObject(text) == Some(fields) {
      DocumentIsRead(document);
    }
  }
}
