/** The record an expired output reads as: a reader of JSON gets the reference and the cause back. */
module ExpiryRecords {
  import opened Bytes
  import Utf8
  import opened AgentFs

  /** The character a two-character escape stands for (RFC 8259, section 7). */
  function Unescape(c: char): Option<char>
  {
    match c
    case '\"' => Some('\"') case '\\' => Some('\\') case '/' => Some('/')
    case 'n' => Some('\n') case 'r' => Some('\r') case 't' => Some('\t')
    case 'b' => Some('\U{8}') case 'f' => Some('\U{C}')
    case _ => None
  }

  /** The rest of a JSON string after its opening quote: the text up to the closing one, and what follows. */
  function ReadRest(text: string): Option<(string, string)>
  {
    if text == [] || text[0] < ' ' then None
    else if text[0] == '\"' then Some(([], text[1..]))
    else if text[0] == '\\' then
      if |text| < 2 || Unescape(text[1]).None? then None
      else match ReadRest(text[2..])
        case None => None
        case Some((value, rest)) => Some(([Unescape(text[1]).value] + value, rest))
    else match ReadRest(text[1..])
      case None => None
      case Some((value, rest)) => Some(([text[0]] + value, rest))
  }

  function ReadString(text: string): Option<(string, string)>
  {
    if text == [] || text[0] != '\"' then None else ReadRest(text[1..])
  }

  /** Holds no control character that the server leaves unescaped. */
  predicate Printable(text: string)
  {
    forall i :: 0 <= i < |text| ==> text[i] >= ' ' || text[i] == '\n' || text[i] == '\r' || text[i] == '\t'
  }

  /** One escaped character in front of a string that goes on as `more`. */
  lemma CharReads(c: char, more: string)
    ensures ReadRest(EscapeChar(c) + more) ==
            if !Printable([c]) then None
            else match ReadRest(more)
              case None => None
              case Some((value, rest)) => Some(([c] + value, rest))
  {
    var e := EscapeChar(c);
    assert (e + more)[|e|..] == more;
    assert Printable([c]) <==> [c][0] >= ' ' || [c][0] == '\n' || [c][0] == '\r' || [c][0] == '\t';
  }

  lemma {:induction false} EscapedReads(value: string, rest: string)
    ensures ReadRest(Escaped(value) + "\"" + rest) == if Printable(value) then Some((value, rest)) else None
  {
    hide EscapeChar, Printable;
    var tail := "\"" + rest;
    if value == [] {
      assert Escaped(value) + "\"" + rest == tail && tail[1..] == rest;
      assert Printable(value) by { NothingPrintable(); }
    } else {
      hide ReadRest;
      var more := Escaped(value[1..]) + "\"" + rest;
      EscapedReads(value[1..], rest);
      CharReads(value[0], more);
      assert Escaped(value) + "\"" + rest == EscapeChar(value[0]) + more;
      PrintableSplits(value);
      assert value == [value[0]] + value[1..];
    }
  }

  lemma NothingPrintable()
    ensures Printable([])
  {
  }

  lemma PrintableSplits(value: string)
    requires value != []
    ensures Printable(value) <==> Printable([value[0]]) && Printable(value[1..])
  {
    assert value == [value[0]] + value[1..];
  }

  /** A string is read back iff it holds no such control character; otherwise it is not JSON. */
  lemma StringReads(value: string, rest: string)
    ensures ReadString(JsonString(value) + rest) == if Printable(value) then Some((value, rest)) else None
  {
    hide ReadRest;
    EscapedReads(value, rest);
    assert (JsonString(value) + rest)[1..] == Escaped(value) + "\"" + rest;
  }

  const HEAD := "{\"type\":\"evidence_retention_expired\",\"reference\":"
  const MIDDLE := ",\"cause\":"

  /** The reference and the cause of an expiry record. */
  function ReadExpiry(b: bytes): Option<(string, string)>
  {
    if !Utf8.IsText(b) || !(HEAD <= Utf8.Decode(b)) then None
    else match ReadString(Utf8.Decode(b)[|HEAD|..])
      case None => None
      case Some((reference, text)) =>
        if !(MIDDLE <= text) then None
        else match ReadString(text[|MIDDLE|..])
          case Some((cause, end)) => if end == "}" then Some((reference, cause)) else None
          case None => None
  }

  /** An expired output names its own path and the cause, iff neither holds a control character left unescaped. */
  lemma ExpiryReads(id: string, cause: string)
    ensures ReadExpiry(ExpiryRecord(id, cause)) ==
            if Printable(id) && Printable(cause) then Some(("/actions/" + id + "/output", cause)) else None
  {
    hide Utf8.Encode, Utf8.Decode, Utf8.IsText, ReadString, JsonString, Printable;
    var reference := "/actions/" + id + "/output";
    var last := JsonString(cause) + "}";
    var text := HEAD + (JsonString(reference) + (MIDDLE + last));
    assert ExpiryRecord(id, cause) == Utf8.Encode(text) by { RecordText(id, cause); }
    Utf8.DecodeEncode(text);
    assert text[|HEAD|..] == JsonString(reference) + (MIDDLE + last);
    StringReads(reference, MIDDLE + last);
    assert (MIDDLE + last)[|MIDDLE|..] == last;
    StringReads(cause, "}");
    ReferencePrintable(id);
  }

  lemma RecordText(id: string, cause: string)
    ensures ExpiryRecord(id, cause) ==
            Utf8.Encode(HEAD + (JsonString("/actions/" + id + "/output") + (MIDDLE + (JsonString(cause) + "}"))))
  {
    hide Utf8.Encode, JsonString;
    var r, c := JsonString("/actions/" + id + "/output"), JsonString(cause);
    assert HEAD + r + MIDDLE + c + "}" == HEAD + (r + (MIDDLE + (c + "}")));
  }

  lemma ReferencePrintable(id: string)
    ensures Printable("/actions/" + id + "/output") <==> Printable(id)
  {
    var a, b := "/actions/", "/output";
    assert Printable(a) && Printable(b);
    var text := a + id + b;
    assert forall i :: 0 <= i < |id| ==> text[|a| + i] == id[i];
  }
}
