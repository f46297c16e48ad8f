/**
 One CSV record as the toleration flag writes and reads it (section 2 of RFC 4180): fields are quoted
 when needed, and the reader turns CRLF into LF everywhere, also inside quotes.
 */
module Csv {
  import opened Options

  // ---------------------------------------------------------------- writing

  predicate IsSpace(c: char) {
    || '\t' <= c <= '\r' || c == ' ' || c as int in {0x85, 0xA0, 0x1680, 0x2028, 0x2029, 0x202F, 0x205F, 0x3000}
    || 0x2000 <= c as int <= 0x200A
  }

  predicate Special(c: char) {
    c == '\n' || c == '\r' || c == '\"' || c == ','
  }

  predicate NeedsQuotes(field: string) {
    field != "" && (field == "\\." || (exists i :: 0 <= i < |field| && Special(field[i])) || IsSpace(field[0]))
  }

  /** Quotes are doubled inside a quoted field. */
  function Doubled(field: string): string {
    if field == "" then ""
    else (if field[0] == '\"' then "\"\"" else [field[0]]) + Doubled(field[1..])
  }

  function Quote(field: string): string {
    "\"" + Doubled(field) + "\""
  }

  function Encode(field: string): string {
    if NeedsQuotes(field) then Quote(field) else field
  }

  /** The record without its final newline. */
  function WriteRecord(fields: seq<string>): string {
    if fields == [] then ""
    else if |fields| == 1 then Encode(fields[0])
    else Encode(fields[0]) + "," + WriteRecord(fields[1..])
  }

  // ---------------------------------------------------------------- reading

  predicate AtCrLf(s: string) {
    |s| > 1 && s[0] == '\r' && s[1] == '\n'
  }

  /** CRLF becomes LF. */
  function Collapse(s: string): string {
    if s == "" then "" else if AtCrLf(s) then Collapse(s[1..]) else [s[0]] + Collapse(s[1..])
  }

  /** What the reader sees: CRLF as LF, and no carriage return at the very end. */
  function Lines(s: string): string {
    Collapse(if s != "" && s[|s| - 1] == '\r' then s[..|s| - 1] else s)
  }

  /** The length of an unquoted field at the front of the text. */
  function PlainEnd(text: string): (n: nat)
    ensures n <= |text|
    ensures n < |text| ==> text[n] in ",\n"
    ensures forall i :: 0 <= i < n ==> text[i] !in ",\n"
  {
    if text == "" || text[0] in ",\n" then 0 else 1 + PlainEnd(text[1..])
  }

  datatype Field = Field(value: string, rest: string)

  /** A quoted field after its opening quote, and what follows its closing quote. */
  function QuotedField(text: string): (r: Option<Field>)
    ensures r.Some? ==> |r.value.rest| < |text|
    ensures r.Some? ==> r.value.rest == "" || r.value.rest[0] in ",\n"
    decreases |text|
  {
    if text == "" then None
    else if text[0] != '\"' then
      match QuotedField(text[1..])
      case None => None
      case Some(f) => Some(Field([text[0]] + f.value, f.rest))
    else if |text| > 1 && text[1] == '\"' then
      match QuotedField(text[2..])
      case None => None
      case Some(f) => Some(Field("\"" + f.value, f.rest))
    else if |text| == 1 || text[1] in ",\n" then Some(Field("", text[1..]))
    else None
  }

  function NextField(text: string): (r: Option<Field>)
    ensures r.Some? ==> r.value.rest == "" || r.value.rest[0] in ",\n"
    ensures r.Some? ==> |r.value.rest| <= |text|
  {
    if text != "" && text[0] == '\"' then QuotedField(text[1..])
    else
      var n := PlainEnd(text);
      if '\"' in text[..n] then None else Some(Field(text[..n], text[n..]))
  }

  function Fields(text: string): Option<seq<string>>
    decreases |text|
  {
    match NextField(text)
    case None => None
    case Some(f) =>
      if f.rest == "" || f.rest[0] != ',' then Some([f.value])
      else
        match Fields(f.rest[1..])
        case None => None
        case Some(more) => Some([f.value] + more)
  }

  function SkipBlank(text: string): string {
    if text != "" && text[0] == '\n' then SkipBlank(text[1..]) else text
  }

  /** The first record, nothing when there is none or it is malformed. */
  function ReadRecord(s: string): Option<seq<string>> {
    var text := SkipBlank(Lines(s));
    if text == "" then None else Fields(text)
  }

  // ---------------------------------------------------------------- the round trip

  lemma {:induction false} CollapseConcat(a: string, b: string)
    requires a == "" || a[|a| - 1] != '\r' || b == "" || b[0] != '\n'
    ensures Collapse(a + b) == Collapse(a) + Collapse(b)
  {
    if a == "" {
      assert a + b == b;
    } else {
      assert (a + b)[1..] == a[1..] + b;
      CollapseConcat(a[1..], b);
      assert AtCrLf(a + b) <==> AtCrLf(a);
    }
  }

  lemma {:induction false} CollapseId(s: string)
    requires forall i :: 0 <= i < |s| ==> s[i] != '\r'
    ensures Collapse(s) == s
  {
    if s != "" {
      CollapseId(s[1..]);
    }
  }

  lemma {:induction false} CollapseDoubled(s: string)
    ensures Collapse(Doubled(s)) == Doubled(Collapse(s))
    ensures s != "" ==> Doubled(s)[0] == s[0]
  {
    if s != "" {
      CollapseDoubled(s[1..]);
      var head := if s[0] == '\"' then "\"\"" else [s[0]];
      if s[0] == '\"' {
        CollapseId(head);
        CollapseConcat(head, Doubled(s[1..]));
      } else {
        assert Doubled(s)[1..] == Doubled(s[1..]);
      }
    }
  }

  /** What the reader sees of an encoded field. */
  function Seen(field: string): string {
    if NeedsQuotes(field) then Quote(Collapse(field)) else field
  }

  function SeenRecord(fields: seq<string>): string {
    if fields == [] then ""
    else if |fields| == 1 then Seen(fields[0])
    else Seen(fields[0]) + "," + SeenRecord(fields[1..])
  }

  lemma CollapseEncoded(field: string)
    ensures Collapse(Encode(field)) == Seen(field)
    ensures Encode(field) == "" || Encode(field)[|Encode(field)| - 1] != '\r'
  {
    if NeedsQuotes(field) {
      CollapseDoubled(field);
      CollapseConcat("\"" + Doubled(field), "\"");
      CollapseConcat("\"", Doubled(field));
      CollapseId("\"");
    } else {
      forall i | 0 <= i < |field|
        ensures field[i] != '\r'
      {
        assert !Special(field[i]);
      }
      CollapseId(field);
    }
  }

  lemma {:induction false} CollapseRecord(fields: seq<string>)
    ensures Collapse(WriteRecord(fields)) == SeenRecord(fields)
    ensures var text := WriteRecord(fields); text == "" || text[|text| - 1] != '\r'
  {
    if fields != [] {
      var first := Encode(fields[0]);
      CollapseEncoded(fields[0]);
      if |fields| > 1 {
        var rest := WriteRecord(fields[1..]);
        CollapseRecord(fields[1..]);
        CollapseConcat(first + ",", rest);
        CollapseConcat(first, ",");
        CollapseId(",");
      }
    }
  }

  lemma {:induction false} QuotedRoundTrip(s: string, rest: string)
    requires rest == "" || rest[0] in ",\n"
    ensures QuotedField(Doubled(s) + "\"" + rest) == Some(Field(s, rest))
  {
    var text := Doubled(s) + "\"" + rest;
    if s == "" {
      assert text == "\"" + rest;
      assert text[1..] == rest;
    } else {
      QuotedRoundTrip(s[1..], rest);
      var tail := Doubled(s[1..]) + "\"" + rest;
      if s[0] == '\"' {
        assert text == "\"\"" + tail;
        assert text[2..] == tail;
      } else {
        assert text == [s[0]] + tail;
        assert text[1..] == tail;
      }
      assert s == [s[0]] + s[1..];
    }
  }

  lemma {:induction false} PlainEndAt(s: string, rest: string)
    requires rest == "" || rest[0] in ",\n"
    requires forall i :: 0 <= i < |s| ==> s[i] !in ",\n"
    ensures PlainEnd(s + rest) == |s|
  {
    if s == "" {
      assert s + rest == rest;
    } else {
      assert (s + rest)[1..] == s[1..] + rest;
      PlainEndAt(s[1..], rest);
    }
  }

  lemma PlainField(field: string, rest: string)
    requires rest == "" || rest[0] in ",\n"
    requires !NeedsQuotes(field)
    ensures NextField(field + rest) == Some(Field(field, rest)) && Collapse(field) == field
  {
    forall i | 0 <= i < |field|
      ensures field[i] !in ",\n" && field[i] != '\"' && field[i] != '\r'
    {
      assert !Special(field[i]);
    }
    CollapseId(field);
    PlainEndAt(field, rest);
    var text := field + rest;
    assert text[..|field|] == field && text[|field|..] == rest;
    assert text != "" ==> text[0] == if field == "" then rest[0] else field[0];
  }

  lemma QuotedFieldRead(value: string, rest: string)
    requires rest == "" || rest[0] in ",\n"
    ensures NextField(Quote(value) + rest) == Some(Field(value, rest))
  {
    var text := Quote(value) + rest;
    QuotedRoundTrip(value, rest);
    assert text[0] == '\"' && text[1..] == Doubled(value) + "\"" + rest;
  }

  lemma FieldRoundTrip(field: string, rest: string)
    requires rest == "" || rest[0] in ",\n"
    ensures NextField(Seen(field) + rest) == Some(Field(Collapse(field), rest))
  {
    if NeedsQuotes(field) {
      QuotedFieldRead(Collapse(field), rest);
    } else {
      PlainField(field, rest);
    }
  }

  function Collapsed(fields: seq<string>): (r: seq<string>)
    ensures |r| == |fields|
    ensures forall i :: 0 <= i < |r| ==> r[i] == Collapse(fields[i])
  {
    if fields == [] then [] else [Collapse(fields[0])] + Collapsed(fields[1..])
  }

  /** The end of the record: the end of the text, or the end of the line. */
  predicate EndsLine(tail: string) {
    tail == "" || tail[0] == '\n'
  }

  /** Reading goes on behind the comma after a field. */
  lemma FieldThenComma(text: string, value: string, more: string, values: seq<string>)
    requires NextField(text) == Some(Field(value, "," + more)) && Fields(more) == Some(values)
    ensures |more| < |text| && Fields(text) == Some([value] + values)
  {
    assert ("," + more)[1..] == more;
  }

  lemma LastField(text: string, value: string, rest: string)
    requires NextField(text) == Some(Field(value, rest)) && EndsLine(rest)
    ensures Fields(text) == Some([value])
  {
  }

  lemma OneFieldBefore(field: string, record: string, tail: string, values: seq<string>)
    requires Fields(record + tail) == Some(values)
    ensures Fields((Seen(field) + "," + record) + tail) == Some([Collapse(field)] + values)
  {
    var text := (Seen(field) + "," + record) + tail;
    FieldRoundTrip(field, "," + (record + tail));
    assert text == Seen(field) + ("," + (record + tail));
    FieldThenComma(text, Collapse(field), record + tail, values);
  }

  lemma {:induction false} FieldsRoundTrip(fields: seq<string>, tail: string)
    requires fields != [] && EndsLine(tail)
    ensures Fields(SeenRecord(fields) + tail) == Some(Collapsed(fields))
  {
    if |fields| == 1 {
      FieldRoundTrip(fields[0], tail);
      LastField(Seen(fields[0]) + tail, Collapse(fields[0]), tail);
      assert Collapsed(fields) == [Collapse(fields[0])];
    } else {
      FieldsRoundTrip(fields[1..], tail);
      OneFieldBefore(fields[0], SeenRecord(fields[1..]), tail, Collapsed(fields[1..]));
    }
  }

  /** Reading a written record gives the fields back, with LF for every CRLF in them. */
  lemma RecordRoundTrip(fields: seq<string>)
    requires fields != [] && fields[0] != ""
    ensures ReadRecord(WriteRecord(fields)) == Some(Collapsed(fields))
  {
    CollapseRecord(fields);
    FieldsRoundTrip(fields, "");
    assert SeenRecord(fields) + "" == SeenRecord(fields);
    RecordStarts(fields);
  }

  lemma RecordStarts(fields: seq<string>)
    requires fields != [] && fields[0] != ""
    ensures SeenRecord(fields) != "" && SeenRecord(fields)[0] != '\n'
    ensures WriteRecord(fields) != ""
  {
    assert !NeedsQuotes(fields[0]) ==> !Special(fields[0][0]);
    assert SeenRecord(fields)[0] == Seen(fields[0])[0];
  }

  // ---------------------------------------------------------------- what the reader does with other texts

  /** A carriage return at the very end is dropped. */
  lemma FinalReturnIsDropped(s: string)
    requires s == "" || s[|s| - 1] != '\r'
    ensures ReadRecord(s + "\r") == ReadRecord(s)
  {
    assert (s + "\r")[..|s|] == s;
  }

  /** Empty lines before the record are skipped. */
  lemma EmptyLineIsSkipped(s: string)
    requires s != ""
    ensures ReadRecord("\n" + s) == ReadRecord(s)
  {
    var whole := "\n" + s;
    var cut := if s[|s| - 1] == '\r' then s[..|s| - 1] else s;
    assert (if whole[|whole| - 1] == '\r' then whole[..|whole| - 1] else whole) == "\n" + cut;
    CollapseConcat("\n", cut);
    CollapseId("\n");
    assert Lines(whole) == "\n" + Lines(s);
    assert Lines(whole)[1..] == Lines(s);
  }

  /** There is no record in nothing. */
  lemma NoRecord()
    ensures ReadRecord("").None? && ReadRecord("\n").None?
  {
    assert Lines("\n") == "\n";
  }

  lemma LinesWithMore(fields: seq<string>, more: string)
    requires more == "" || more[|more| - 1] != '\r'
    ensures Lines(WriteRecord(fields) + ("\n" + more)) == SeenRecord(fields) + ("\n" + Collapse(more))
  {
    CollapseRecord(fields);
    CollapseConcat(WriteRecord(fields), "\n" + more);
    CollapseConcat("\n", more);
    CollapseId("\n");
  }

  /** What follows the line of a record is not read. */
  lemma OnlyOneRecord(fields: seq<string>, more: string)
    requires fields != [] && fields[0] != "" && (more == "" || more[|more| - 1] != '\r')
    ensures ReadRecord(WriteRecord(fields) + ("\n" + more)) == Some(Collapsed(fields))
  {
    var tail := "\n" + Collapse(more);
    LinesWithMore(fields, more);
    FieldsRoundTrip(fields, tail);
    RecordStarts(fields);
    assert (SeenRecord(fields) + tail)[0] == SeenRecord(fields)[0];
  }

  /** A quote in an unquoted field, or a quoted field without an end, makes the record malformed. */
  lemma StrayQuoteIsMalformed(text: string)
    requires text != "" && text[0] != '\"' && '\"' in text[..PlainEnd(text)]
    ensures Fields(text).None?
  {
  }

  lemma {:induction false} UnendedQuoteIsMalformed(text: string)
    requires '\"' !in text
    ensures QuotedField(text).None?
  {
    if text != "" {
      UnendedQuoteIsMalformed(text[1..]);
    }
  }

  /** A field is written as it is exactly when nothing in it could be misread. */
  lemma WrittenPlainlyIff(field: string)
    ensures Encode(field) == field <==>
              field == "" || (field != "\\." && !IsSpace(field[0]) && forall c :: c in field ==> c != '\n' && c != '\r' && c != '\"' && c != ',')
  {
    if NeedsQuotes(field) {
      DoubledLength(field);
    }
    if i :| 0 <= i < |field| && Special(field[i]) {
      assert field[i] in field;
    }
  }

  lemma {:induction false} DoubledLength(field: string)
    ensures |Doubled(field)| >= |field|
  {
    if field != "" {
      DoubledLength(field[1..]);
    }
  }
}
