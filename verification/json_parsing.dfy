/** The parser of flat JSON objects, and the grammar of the texts that it accepts. */
module JsonParsing {
  import opened Basics

  const QUOTE := '\"'
  const BACKSLASH := '\\'
  const BACKSPACE := '\U{8}'
  const VERTICAL_TAB := '\U{b}'
  const FORM_FEED := '\U{c}'

  /** A field's value: a string, or the characters of any other token. */
  datatype JsonValue = JsonValue(isString: bool, value: string)

  type Fields = map<string, JsonValue>

  datatype Parsed<T> = Read(value: T, rest: string) | Bad

  predicate IsSpace(c: char) {
    c == ' ' || c == '\t' || c == '\n' || c == VERTICAL_TAB || c == FORM_FEED || c == '\r'
  }

  predicate EndsToken(c: char) {
    c == ',' || c == '}' || IsSpace(c)
  }

  /** The character that a letter stands for after a backslash. */
  function Unescape(letter: char): Option<char> {
    match letter
    case '\"' => Some(QUOTE)
    case '\\' => Some(BACKSLASH)
    case '/' => Some('/')
    case 'b' => Some(BACKSPACE)
    case 'f' => Some(FORM_FEED)
    case 'n' => Some('\n')
    case 'r' => Some('\r')
    case 't' => Some('\t')
    case _ => None
  }

  /** The letters behind a backslash stand for the quotation mark, the backslash, the slash, and the characters U+0008,
      U+000C, U+000A, U+000D and U+0009, as in section 7 of RFC 8259; no other letter does. */
  lemma LettersStandFor(letter: char)
    ensures Unescape(letter).Some? <==> letter in "\"\\/bfnrt"
    ensures letter in "\"\\/" ==> Unescape(letter) == Some(letter)
    ensures letter == 'b' ==> Unescape(letter).value as int == 0x08
    ensures letter == 'f' ==> Unescape(letter).value as int == 0x0c
    ensures letter == 'n' ==> Unescape(letter).value as int == 0x0a
    ensures letter == 'r' ==> Unescape(letter).value as int == 0x0d
    ensures letter == 't' ==> Unescape(letter).value as int == 0x09
  {
    var letters := "\"\\/bfnrt";
    assert letters[0] == QUOTE && letters[1] == BACKSLASH && letters[2] == '/';
    assert letters[3] == 'b' && letters[4] == 'f' && letters[5] == 'n' && letters[6] == 'r' && letters[7] == 't';
  }

  /** White space is the space and the characters U+0009 to U+000D, and it ends a token, as a comma or a closing brace
      does. */
  lemma WhiteSpaceIs(c: char)
    ensures IsSpace(c) <==> c == ' ' || 0x09 <= c as int <= 0x0d
    ensures EndsToken(c) <==> c in ",} " || 0x09 <= c as int <= 0x0d
  {
    assert '\t' as int == 0x09 && '\n' as int == 0x0a && '\r' as int == 0x0d;
    assert ",} "[0] == ',' && ",} "[1] == '}' && ",} "[2] == ' ';
  }

  // ----- parsing: what is read from the front of a text, and what is left of it

  predicate StartsWith(text: string, c: char) {
    text != "" && text[0] == c
  }

  function AfterSpace(text: string): (rest: string)
    ensures |rest| <= |text|
    ensures rest == "" || !IsSpace(rest[0])
  {
    if text != "" && IsSpace(text[0]) then AfterSpace(text[1..]) else text
  }

  function Ahead(value: string, parsed: Parsed<string>): Parsed<string> {
    match parsed
    case Read(more, rest) => Read(value + more, rest)
    case Bad => Bad
  }

  /** Reads a string whose opening quote has been read. */
  function StringBody(text: string): (parsed: Parsed<string>)
    ensures parsed.Read? ==> |parsed.rest| < |text|
  {
    if text == "" then Bad
    else if text[0] == QUOTE then Read("", text[1..])
    else if text[0] != BACKSLASH then Ahead([text[0]], StringBody(text[1..]))
    else if |text| == 1 || Unescape(text[1]).None? then Bad
    else Ahead([Unescape(text[1]).value], StringBody(text[2..]))
  }

  function ReadString(text: string): (parsed: Parsed<string>)
    ensures parsed.Read? ==> |parsed.rest| < |text|
  {
    if StartsWith(text, QUOTE) then StringBody(text[1..]) else Bad
  }

  function TokenLength(text: string): (length: nat)
    ensures length <= |text|
  {
    if text == "" || EndsToken(text[0]) then 0 else 1 + TokenLength(text[1..])
  }

  function ReadToken(text: string): (parsed: Parsed<string>)
    ensures parsed.Read? ==> |parsed.rest| < |text|
  {
    var length := TokenLength(text);
    if length == 0 then Bad else Read(text[..length], text[length..])
  }

  function ReadValue(text: string): (parsed: Parsed<JsonValue>)
    ensures parsed.Read? ==> |parsed.rest| < |text|
  {
    var isString := StartsWith(text, QUOTE);
    match if isString then ReadString(text) else ReadToken(text)
    case Read(value, rest) => Read(JsonValue(isString, value), rest)
    case Bad => Bad
  }

  /** Reads a key, its value and the white space behind them. */
  function ReadField(text: string): (parsed: Parsed<(string, JsonValue)>)
    ensures parsed.Read? ==> |parsed.rest| < |text|
  {
    match ReadString(text)
    case Bad => Bad
    case Read(key, rest) =>
      var colon := AfterSpace(rest);
      if !StartsWith(colon, ':') then Bad
      else
        match ReadValue(AfterSpace(colon[1..]))
        case Bad => Bad
        case Read(value, behind) => Read((key, value), AfterSpace(behind))
  }

  /** Reads the fields up to the closing brace, with which the text has to end, on top of those read before. */
  function ReadFields(text: string, before: Fields): Option<Fields>
    decreases |text|
  {
    match ReadField(text)
    case Bad => None
    case Read((key, value), rest) =>
      if StartsWith(rest, ',') then ReadFields(AfterSpace(rest[1..]), before[key := value])
      else if StartsWith(rest, '}') && AfterSpace(rest[1..]) == "" then Some(before[key := value])
      else None
  }

  function ReadObject(text: string): Option<Fields> {
    var brace := AfterSpace(text);
    if !StartsWith(brace, '{') then None
    else
      var inner := AfterSpace(brace[1..]);
      if StartsWith(inner, '}') then Some(map[]) else ReadFields(inner, map[])
  }

  // ----- the parser

  class JsonObjectParser {
    const text: string
    var pos: nat

    constructor (text: string)
      ensures Valid() && Rest() == text
    {
      this.text, pos := text, 0;
    }

    ghost predicate Valid()
      reads this
    {
      pos <= |text|
    }

    ghost function Rest(): string
      requires Valid()
      reads this
    {
      text[pos..]
    }

    method SkipWs()
      requires Valid()
      modifies this
      ensures Valid() && Rest() == AfterSpace(old(Rest()))
    {
      while pos < |text| && IsSpace(text[pos])
        invariant Valid() && AfterSpace(Rest()) == AfterSpace(old(Rest()))
      {
        assert Rest()[1..] == text[pos + 1..];
        pos := pos + 1;
      }
    }

    /** The next character, or a NUL at the end of the text. */
    function PeekChar(): (c: char)
      requires Valid()
      reads this
      ensures StartsWith(text[pos..], c) || (pos == |text| && c == '\0')
    {
      if pos >= |text| then '\0' else text[pos]
    }

    method ConsumeChar(c: char) returns (ok: bool)
      requires Valid() && c != '\0'
      modifies this
      ensures Valid() && ok == StartsWith(old(Rest()), c)
      ensures Rest() == if ok then old(Rest())[1..] else old(Rest())
    {
      ok := PeekChar() == c;
      if ok {
        assert Rest()[1..] == text[pos + 1..];
        pos := pos + 1;
      }
    }

    method ParseString() returns (ok: bool, value: string)
      requires Valid()
      modifies this
      ensures Valid() && ok == ReadString(old(Rest())).Read?
      ensures ok ==> ReadString(old(Rest())) == Read(value, Rest())
    {
      value := "";
      ok := ConsumeChar(QUOTE);
      if !ok {
        return;
      }
      ghost var rest := text[pos..];
      ghost var whole := StringBody(rest);
      AheadOfAll("", "", whole);
      while pos < |text|
        invariant Valid() && rest == text[pos..] && Ahead(value, StringBody(rest)) == whole
      {
        BodyGoesOn(value, rest);
        var c := text[pos];
        pos, rest := pos + 1, rest[1..];
        if c == QUOTE {
          return true, value;
        }
        if c == BACKSLASH {
          if pos >= |text| {
            return false, value;
          }
          var letter := text[pos];
          pos, rest := pos + 1, rest[1..];
          if Unescape(letter).None? {
            return false, value;
          }
          value := value + [Unescape(letter).value];
          continue;
        }
        value := value + [c];
      }
      ok := false;
    }

    method ParseRawToken() returns (ok: bool, token: string)
      requires Valid()
      modifies this
      ensures Valid() && ok == ReadToken(old(Rest())).Read?
      ensures ok ==> ReadToken(old(Rest())) == Read(token, Rest())
    {
      var begin := pos;
      while pos < |text| && !EndsToken(text[pos])
        invariant begin <= pos <= |text|
        invariant TokenLength(text[begin..]) == pos - begin + TokenLength(text[pos..])
      {
        assert text[pos..][1..] == text[pos + 1..];
        pos := pos + 1;
      }
      ok, token := pos != begin, text[begin..pos];
      assert text[begin..][..pos - begin] == token && text[begin..][pos - begin..] == text[pos..];
    }

    method ParseValue() returns (ok: bool, value: JsonValue)
      requires Valid()
      modifies this
      ensures Valid() && ok == ReadValue(old(Rest())).Read?
      ensures ok ==> ReadValue(old(Rest())) == Read(value, Rest())
    {
      var isString, read := PeekChar() == QUOTE, "";
      if isString {
        ok, read := ParseString();
      } else {
        ok, read := ParseRawToken();
      }
      value := JsonValue(isString, read);
    }

    method ParseField() returns (ok: bool, key: string, value: JsonValue)
      requires Valid()
      modifies this
      ensures Valid() && ok == ReadField(old(Rest())).Read?
      ensures ok ==> ReadField(old(Rest())) == Read((key, value), Rest())
    {
      value := JsonValue(false, "");
      ok, key := ParseString();
      if !ok {
        return;
      }
      SkipWs();
      ok := ConsumeChar(':');
      if !ok {
        return;
      }
      SkipWs();
      ok, value := ParseValue();
      if ok {
        SkipWs();
      }
    }

    method Parse() returns (ok: bool, fields: Fields)
      requires Valid()
      modifies this
      ensures ok == ReadObject(old(Rest())).Some?
      ensures ok ==> ReadObject(old(Rest())) == Some(fields)
    {
      fields := map[];
      SkipWs();
      ok := ConsumeChar('{');
      if !ok {
        return;
      }
      SkipWs();
      if PeekChar() == '}' {
        ok := ConsumeChar('}');
        return;
      }
      while pos < |text|
        invariant Valid() && ReadFields(Rest(), fields) == ReadObject(old(Rest()))
        decreases |text| - pos
      {
        ghost var rest := Rest();
        var key, value;
        ok, key, value := ParseField();
        if !ok {
          return;
        }
        assert |Rest()| < |rest|;
        fields := fields[key := value];
        var more := ConsumeChar(',');
        if more {
          SkipWs();
          continue;
        }
        ok := ConsumeChar('}');
        if ok {
          SkipWs();
          ok := pos == |text|;
        }
        return;
      }
      ok := false;
    }
  }

  /** How reading the body of a string goes on behind the characters already read. */
  lemma BodyGoesOn(value: string, text: string)
    requires text != ""
    ensures text[0] == QUOTE ==> Ahead(value, StringBody(text)) == Read(value, text[1..])
    ensures
      text[0] != QUOTE && text[0] != BACKSLASH ==>
        Ahead(value, StringBody(text)) == Ahead(value + [text[0]], StringBody(text[1..]))
    ensures
      text[0] == BACKSLASH && |text| > 1 && Unescape(text[1]).Some? ==>
        Ahead(value, StringBody(text)) == Ahead(value + [Unescape(text[1]).value], StringBody(text[1..][1..]))
    ensures text[0] == BACKSLASH && (|text| == 1 || Unescape(text[1]).None?) ==> StringBody(text) == Bad
  {
    assert value + "" == value;
    assert |text| > 1 ==> text[1..][1..] == text[2..];
    if text[0] != QUOTE && text[0] != BACKSLASH {
      AheadOfAll(value, [text[0]], StringBody(text[1..]));
    } else if text[0] == BACKSLASH && |text| > 1 && Unescape(text[1]).Some? {
      AheadOfAll(value, [Unescape(text[1]).value], StringBody(text[2..]));
    }
  }

  lemma AheadOfAll(a: string, b: string, parsed: Parsed<string>)
    ensures Ahead(a, Ahead(b, parsed)) == Ahead(a + b, parsed)
    ensures Ahead("", parsed) == parsed
  {
    if parsed.Read? {
      assert a + (b + parsed.value) == (a + b) + parsed.value;
      assert "" + parsed.value == parsed.value;
    }
  }
}
