/** The dashboard's CSV export of notification search results, and a reader of the
    format of RFC 4180, section 2, with the LF line ends the export writes. */
module CsvExport {
  import opened Sequences

  datatype Notification = Notification(
    id: int, source: string, eventId: Option<string>, txHash: Option<string>, contractAddress: Option<string>,
    notificationType: Option<string>, targetRecipient: Option<string>, status: string, createdAt: string,
    payload: Option<string>, failureReason: Option<string>)

  // ----- the printer

  function DigitChar(d: nat): char
    requires d < 10
  {
    "0123456789"[d]
  }

  function Digits(n: nat): string {
    if n < 10 then [DigitChar(n)] else Digits(n / 10) + [DigitChar(n % 10)]
  }

  /** The text of a whole number. */
  function NumberText(n: int): string {
    if n < 0 then "-" + Digits(-n) else Digits(n)
  }

  predicate IsSpecial(c: char) {
    c == '"' || c == ',' || c == '\n' || c == '\r'
  }

  predicate NeedsQuotes(field: string) {
    field != "" && (IsSpecial(field[0]) || NeedsQuotes(field[1..]))
  }

  function Doubled(field: string): string {
    if field == "" then "" else (if field[0] == '"' then "\"\"" else [field[0]]) + Doubled(field[1..])
  }

  function EscapeCsvField(field: string): string {
    if NeedsQuotes(field) then "\"" + Doubled(field) + "\"" else field
  }

  function OrEmpty(value: Option<string>): string {
    if value.Some? then value.value else ""
  }

  function Fields(n: Notification): seq<string> {
    [NumberText(n.id), n.source, OrEmpty(n.eventId), OrEmpty(n.txHash), OrEmpty(n.contractAddress),
     OrEmpty(n.notificationType), OrEmpty(n.targetRecipient), n.status, n.createdAt, OrEmpty(n.payload)]
  }

  const HEADER: seq<string> :=
    ["id", "source", "eventId", "txHash", "contractAddress", "notificationType", "targetRecipient", "status",
     "createdAt", "payload"]

  function Row(fields: seq<string>): string {
    Join(Map(EscapeCsvField, fields), ",")
  }

  function BuildCsv(notifications: seq<Notification>): string {
    Join([Join(HEADER, ",")] + Map(n => Row(Fields(n)), notifications), "\n")
  }

  // ----- the reader

  datatype Mode = AtStart | Plain | Quoted | QuoteInQuoted

  /** Reads records of comma-separated fields; None where the text breaks the grammar. */
  function Read(text: string, mode: Mode, field: string, record: seq<string>,
        records: seq<seq<string>>): Option<seq<seq<string>>> {
    if text == "" then
      if mode == Quoted then None
      else if mode == AtStart && record == [] && records != [] then Some(records)
      else Some(records + [record + [field]])
    else if mode == Quoted then
      if text[0] == '"' then Read(text[1..], QuoteInQuoted, field, record, records)
      else Read(text[1..], Quoted, field + [text[0]], record, records)
    else if text[0] == ',' then Read(text[1..], AtStart, "", record + [field], records)
    else if text[0] == '\n' then Read(text[1..], AtStart, "", [], records + [record + [field]])
    else if text[0] == '"' && mode == AtStart then Read(text[1..], Quoted, "", record, records)
    else if text[0] == '"' && mode == QuoteInQuoted then Read(text[1..], Quoted, field + "\"", record, records)
    else if mode == QuoteInQuoted || text[0] == '"' || text[0] == '\r' then None
    else Read(text[1..], Plain, field + [text[0]], record, records)
  }

  function ReadCsv(text: string): Option<seq<seq<string>>> {
    Read(text, AtStart, "", [], [])
  }

  // ----- reading back what was printed

  predicate EndsField(rest: string) {
    rest == "" || rest[0] == ',' || rest[0] == '\n'
  }

  /** What the reader does once a field is complete. */
  function AfterField(rest: string, field: string, record: seq<string>,
        records: seq<seq<string>>): Option<seq<seq<string>>>
    requires EndsField(rest)
  {
    if rest == "" then Some(records + [record + [field]])
    else if rest[0] == ',' then Read(rest[1..], AtStart, "", record + [field], records)
    else Read(rest[1..], AtStart, "", [], records + [record + [field]])
  }

  lemma {:induction false} ReadPlain(tail: string, rest: string, mode: Mode, field: string, record: seq<string>,
        records: seq<seq<string>>)
    requires !NeedsQuotes(tail) && EndsField(rest)
    requires mode == Plain || (mode == AtStart && field == "" && (tail != "" || rest != "" || record != []))
    ensures Read(tail + rest, mode, field, record, records) == AfterField(rest, field + tail, record, records)
    decreases |tail|
  {
    if tail == "" {
      assert tail + rest == rest && field + tail == field;
    } else {
      assert (tail + rest)[1..] == tail[1..] + rest;
      ReadPlain(tail[1..], rest, Plain, field + [tail[0]], record, records);
      assert field + [tail[0]] + tail[1..] == field + tail;
    }
  }

  lemma {:induction false} ReadQuoted(tail: string, rest: string, field: string, record: seq<string>,
        records: seq<seq<string>>)
    requires EndsField(rest)
    ensures Read(Doubled(tail) + ("\"" + rest), Quoted, field, record, records)
            == AfterField(rest, field + tail, record, records)
    decreases |tail|
  {
    var text := Doubled(tail) + ("\"" + rest);
    if tail == "" {
      assert text == "\"" + rest && text[1..] == rest && field + tail == field;
    } else {
      var head := if tail[0] == '"' then "\"\"" else [tail[0]];
      assert text == head + (Doubled(tail[1..]) + ("\"" + rest));
      assert text[|head|..] == Doubled(tail[1..]) + ("\"" + rest);
      assert tail[0] == '"' ==> text[1..][1..] == text[|head|..];
      ReadQuoted(tail[1..], rest, field + [tail[0]], record, records);
      assert field + [tail[0]] + tail[1..] == field + tail;
    }
  }

  lemma {:induction false} ReadOpensQuote(text: string, record: seq<string>, records: seq<seq<string>>)
    requires text != "" && text[0] == '"'
    ensures Read(text, AtStart, "", record, records) == Read(text[1..], Quoted, "", record, records)
  {
  }

  /** Whatever a field holds, the reader takes its escaped form back to it. */
  lemma {:induction false} ReadEscaped(field: string, rest: string, record: seq<string>, records: seq<seq<string>>)
    requires EndsField(rest) && (record != [] || rest != "" || field != "")
    ensures Read(EscapeCsvField(field) + rest, AtStart, "", record, records) == AfterField(rest, field, record, records)
  {
    hide Read, Doubled, NeedsQuotes;
    assert "" + field == field;
    if NeedsQuotes(field) {
      var text := EscapeCsvField(field) + rest;
      ReadOpensQuote(text, record, records);
      assert text[1..] == Doubled(field) + ("\"" + rest);
      ReadQuoted(field, rest, "", record, records);
    } else {
      ReadPlain(field, rest, AtStart, "", record, records);
    }
  }

  predicate EndsRecord(rest: string) {
    rest == "" || rest[0] == '\n'
  }

  lemma {:induction false} RowText(fields: seq<string>)
    requires fields != []
    ensures Row(fields) == EscapeCsvField(fields[0]) + if |fields| == 1 then "" else "," + Row(fields[1..])
  {
    hide EscapeCsvField;
    assert Map(EscapeCsvField, fields)[1..] == Map(EscapeCsvField, fields[1..]);
    assert |fields| == 1 ==> Row(fields) == EscapeCsvField(fields[0]) + "";
  }

  lemma {:induction false} ReadRow(fields: seq<string>, rest: string, record: seq<string>, records: seq<seq<string>>)
    requires fields != [] && |record| + |fields| >= 2 && EndsRecord(rest)
    ensures Read(Row(fields) + rest, AtStart, "", record, records)
            == if rest == "" then Some(records + [record + fields])
               else Read(rest[1..], AtStart, "", [], records + [record + fields])
    decreases |fields|
  {
    hide Read, EscapeCsvField, NeedsQuotes, Row;
    RowText(fields);
    if |fields| == 1 {
      assert fields == [fields[0]] && Row(fields) + rest == EscapeCsvField(fields[0]) + rest;
      ReadEscaped(fields[0], rest, record, records);
    } else {
      var first, others := fields[0], fields[1..];
      var tail := "," + (Row(others) + rest);
      assert Row(fields) + rest == EscapeCsvField(first) + tail;
      ReadEscaped(first, tail, record, records);
      assert tail[1..] == Row(others) + rest;
      ReadRow(others, rest, record + [first], records);
      assert record + [first] + others == record + fields;
    }
  }

  lemma {:induction false} ReadRows(rows: seq<seq<string>>, records: seq<seq<string>>)
    requires rows != [] && forall i :: 0 <= i < |rows| ==> |rows[i]| >= 2
    ensures Read(Join(Map(Row, rows), "\n"), AtStart, "", [], records) == Some(records + rows)
    decreases |rows|
  {
    var text := Join(Map(Row, rows), "\n");
    if |rows| == 1 {
      assert rows == [rows[0]] && text == Row(rows[0]) + "";
      ReadRow(rows[0], "", [], records);
      assert [] + rows[0] == rows[0];
    } else {
      assert Map(Row, rows)[1..] == Map(Row, rows[1..]);
      var tail := "\n" + Join(Map(Row, rows[1..]), "\n");
      assert text == Row(rows[0]) + tail;
      ReadRow(rows[0], tail, [], records);
      assert [] + rows[0] == rows[0];
      ReadRows(rows[1..], records + [rows[0]]);
      assert records + [rows[0]] + rows[1..] == records + rows;
    }
  }

  lemma {:induction false} NoSpecialNoQuotes(field: string)
    ensures (forall c :: c in field ==> !IsSpecial(c)) ==> !NeedsQuotes(field)
  {
    if field != "" { NoSpecialNoQuotes(field[1..]); }
  }

  lemma {:induction false} HeaderIsPlain()
    ensures forall i :: 0 <= i < 10 ==> !NeedsQuotes(HEADER[i])
  {
    hide NeedsQuotes;
    forall i | 0 <= i < 10
      ensures !NeedsQuotes(HEADER[i])
    {
      NoSpecialNoQuotes(HEADER[i]);
    }
  }

  lemma {:induction false} PlainRow(fields: seq<string>)
    requires forall i :: 0 <= i < |fields| ==> !NeedsQuotes(fields[i])
    ensures Row(fields) == Join(fields, ",")
  {
    hide NeedsQuotes, Join;
    assert Map(EscapeCsvField, fields) == fields;
  }

  /** For any notifications and any field contents, the reader recovers from the exported text
      exactly the header and each notification's ten fields. */
  lemma {:induction false} CsvRoundTrip(notifications: seq<Notification>)
    ensures ReadCsv(BuildCsv(notifications)) == Some([HEADER] + Map(Fields, notifications))
  {
    hide NeedsQuotes, Join, Read, EscapeCsvField, Row, Map;
    HeaderIsPlain();
    PlainRow(HEADER);
    var rows := [HEADER] + Map(Fields, notifications);
    assert Map(Row, rows) == [Join(HEADER, ",")] + Map(n => Row(Fields(n)), notifications);
    ReadRows(rows, []);
    assert [] + rows == rows;
  }

  /** Read back, the export is a header of ten names and, for each notification in order, the ten
      properties they name, with nothing for a missing one. */
  lemma {:induction false} ColumnsUnderHeader(notifications: seq<Notification>)
    ensures var read := ReadCsv(BuildCsv(notifications));
      && read.Some? && |read.value| == |notifications| + 1
      && read.value[0] == ["id", "source", "eventId", "txHash", "contractAddress", "notificationType",
                           "targetRecipient", "status", "createdAt", "payload"]
      && forall i :: 0 <= i < |notifications| ==>
           var n := notifications[i];
           read.value[i + 1]
           == [NumberText(n.id), n.source, n.eventId.UnwrapOr(""), n.txHash.UnwrapOr(""),
               n.contractAddress.UnwrapOr(""), n.notificationType.UnwrapOr(""), n.targetRecipient.UnwrapOr(""),
               n.status, n.createdAt, n.payload.UnwrapOr("")]
  {
    hide ReadCsv, BuildCsv, Fields;
    CsvRoundTrip(notifications);
    forall i | 0 <= i < |notifications| { FieldsAre(notifications[i]); }
  }

  lemma {:induction false} FieldsAre(n: Notification)
    ensures Fields(n)
            == [NumberText(n.id), n.source, n.eventId.UnwrapOr(""), n.txHash.UnwrapOr(""),
                n.contractAddress.UnwrapOr(""), n.notificationType.UnwrapOr(""), n.targetRecipient.UnwrapOr(""),
                n.status, n.createdAt, n.payload.UnwrapOr("")]
  {
  }

  /** A field is written as it is exactly when it has no quote, comma or line break. */
  lemma {:induction false} QuotedExactlyWhenNeeded(field: string)
    ensures EscapeCsvField(field) == field
            <==> '"' !in field && ',' !in field && '\n' !in field && '\r' !in field
  {
    NeedsQuotesExactly(field);
    DoubledLength(field);
  }

  lemma {:induction false} DoubledLength(field: string)
    ensures |Doubled(field)| >= |field|
  {
    if field != "" { DoubledLength(field[1..]); }
  }

  lemma {:induction false} NeedsQuotesExactly(field: string)
    ensures NeedsQuotes(field) <==> '"' in field || ',' in field || '\n' in field || '\r' in field
  {
    if field != "" {
      NeedsQuotesExactly(field[1..]);
      assert field == [field[0]] + field[1..];
    }
  }

  // ----- what two exports that look alike have in common

  function CharDigit(c: char): int {
    c as int - '0' as int
  }

  function NumberOf(digits: string): int {
    if digits == "" then 0 else 10 * NumberOf(digits[..|digits| - 1]) + CharDigit(digits[|digits| - 1])
  }

  lemma {:induction false} DigitsReadBack(n: nat)
    ensures NumberOf(Digits(n)) == n && Digits(n) != "" && Digits(n)[0] != '-'
  {
    if n < 10 {
      assert NumberOf("") == 0 && [DigitChar(n)][..0] == "";
    } else {
      DigitsReadBack(n / 10);
      assert Digits(n)[..|Digits(n)| - 1] == Digits(n / 10);
    }
  }

  /** A number is written in decimal digits without leading zeros, behind a minus sign if negative. */
  lemma {:induction false} NumberTextReads(n: int)
    ensures if n < 0 then NumberText(n) == "-" + NumberText(-n)
            else
              && NumberOf(NumberText(n)) == n && NumberText(n) != ""
              && (forall c :: c in NumberText(n) ==> '0' <= c <= '9')
              && (NumberText(n)[0] == '0' ==> n == 0)
  {
    if n >= 0 {
      DigitsReadBack(n);
      DigitsAreDigits(n);
    }
  }

  lemma {:induction false} DigitsAreDigits(n: nat)
    ensures Digits(n) != "" && (forall c :: c in Digits(n) ==> '0' <= c <= '9')
    ensures Digits(n)[0] == '0' ==> n == 0
  {
    if n >= 10 { DigitsAreDigits(n / 10); }
  }

  lemma {:induction false} NumberTextInjective(a: int, b: int)
    requires NumberText(a) == NumberText(b)
    ensures a == b
  {
    DigitsReadBack(if a < 0 then -a else a);
    DigitsReadBack(if b < 0 then -b else b);
    assert a < 0 ==> NumberText(a)[1..] == Digits(-a);
    assert b < 0 ==> NumberText(b)[1..] == Digits(-b);
  }

  /** What the export keeps of a notification: null and empty look alike, the failure reason is dropped. */
  function Exported(n: Notification): Notification {
    n.(eventId := Some(OrEmpty(n.eventId)), txHash := Some(OrEmpty(n.txHash)),
      contractAddress := Some(OrEmpty(n.contractAddress)),
       notificationType := Some(OrEmpty(n.notificationType)), targetRecipient := Some(OrEmpty(n.targetRecipient)),
       payload := Some(OrEmpty(n.payload)), failureReason := None)
  }

  lemma {:induction false} FieldsAgreeExactly(m: Notification, n: Notification)
    ensures Fields(m) == Fields(n) <==> Exported(m) == Exported(n)
  {
    if Fields(m) == Fields(n) {
      var f, g := Fields(m), Fields(n);
      assert forall i :: 0 <= i < 10 ==> f[i] == g[i];
      assert f[0] == g[0] && f[1] == g[1] && f[2] == g[2] && f[3] == g[3] && f[4] == g[4];
      assert f[5] == g[5] && f[6] == g[6] && f[7] == g[7] && f[8] == g[8] && f[9] == g[9];
      NumberTextInjective(m.id, n.id);
    }
  }

  /** Two exports are the same text exactly when the notifications agree up to null versus
      empty and the failure reason. */
  lemma {:induction false} CsvInjectiveUpToNull(a: seq<Notification>, b: seq<Notification>)
    ensures BuildCsv(a) == BuildCsv(b) <==> Map(Exported, a) == Map(Exported, b)
  {
    CsvRoundTrip(a);
    CsvRoundTrip(b);
    if BuildCsv(a) == BuildCsv(b) {
      assert Map(Fields, a) == ([HEADER] + Map(Fields, a))[1..];
      assert Map(Fields, b) == ([HEADER] + Map(Fields, b))[1..];
      forall i | 0 <= i < |a|
        ensures Exported(a[i]) == Exported(b[i])
      {
        assert Map(Fields, a)[i] == Map(Fields, b)[i];
        FieldsAgreeExactly(a[i], b[i]);
      }
    }
    if Map(Exported, a) == Map(Exported, b) {
      forall i | 0 <= i < |a|
        ensures Fields(a[i]) == Fields(b[i])
      {
        assert Map(Exported, a)[i] == Map(Exported, b)[i];
        FieldsAgreeExactly(a[i], b[i]);
      }
      assert Map(n => Row(Fields(n)), a) == Map(n => Row(Fields(n)), b);
    }
  }
}
