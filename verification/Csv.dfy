/**
 * The matrix reader of capability_matrix.rs and the writer the merge script prints with, as
 * inverses of each other: RFC 4180, section 2.
 */
module Csv {
  import opened Prelude

  type Record = seq<string>

  const COMMA := ','
  const QUOTE := '"'
  const CR := '\r'
  const LF := '\n'

  datatype CsvError = EndsInsideQuotes

  // ------------------------------------------------------------------ the reader

  datatype State = State(
    records: seq<Record>, record: Record, field: string, inQuotes: bool, started: bool)

  const FRESH := State([], [], "", false, false)

  /** One character read outside quotes. */
  function Plain(st: State, c: char): State {
    if c == QUOTE && st.field == "" && !st.started then st.(inQuotes := true, started := true)
    else if c == COMMA then st.(record := st.record + [st.field], field := "", started := false)
    else if c == CR then st
    else if c == LF then
      State(st.records + [st.record + [st.field]], [], "", st.inQuotes, false)
    else st.(field := st.field + [c], started := true)
  }

  function Scan(st: State, text: string): State
    decreases |text|
  {
    if text == "" then st
    else if !st.inQuotes then Scan(Plain(st, text[0]), text[1..])
    else if text[0] != QUOTE then Scan(st.(field := st.field + [text[0]]), text[1..])
    else if 1 < |text| && text[1] == QUOTE then Scan(st.(field := st.field + [QUOTE]), text[2..])
    else Scan(st.(inQuotes := false), text[1..])
  }

  function Finish(st: State): Result<seq<Record>, CsvError> {
    if st.inQuotes then Err(EndsInsideQuotes)
    else if st.field != "" || st.record != [] then Ok(st.records + [st.record + [st.field]])
    else Ok(st.records)
  }

  function Parsed(text: string): Result<seq<Record>, CsvError> {
    Finish(Scan(FRESH, text))
  }

  method ParseCsv(text: string) returns (r: Result<seq<Record>, CsvError>)
    ensures r == Parsed(text)
  {
    var records: seq<Record> := [];
    var record: Record := [];
    var field := "";
    var inQuotes, started := false, false;
    var i := 0;
    while i < |text|
      invariant 0 <= i <= |text|
      invariant Scan(FRESH, text) == Scan(State(records, record, field, inQuotes, started), text[i..])
    {
      var current := text[i];
      i := i + 1;
      if inQuotes {
        if current == QUOTE {
          if i < |text| && text[i] == QUOTE {
            i := i + 1;
            field := field + [QUOTE];
          } else {
            inQuotes := false;
          }
        } else {
          field := field + [current];
        }
        continue;
      }
      if current == QUOTE && field == "" && !started {
        inQuotes := true;
        started := true;
      } else if current == COMMA {
        record := record + [field];
        field := "";
        started := false;
      } else if current == CR {
      } else if current == LF {
        record := record + [field];
        records := records + [record];
        record := [];
        field := "";
        started := false;
      } else {
        field := field + [current];
        started := true;
      }
    }
    if inQuotes {
      return Err(EndsInsideQuotes);
    }
    if field != "" || record != [] {
      record := record + [field];
      records := records + [record];
    }
    r := Ok(records);
  }

  // ------------------------------------------------------------------ the writer

  predicate Special(c: char) {
    c == COMMA || c == QUOTE || c == CR || c == LF
  }

  predicate NeedsQuotes(field: string) {
    exists i :: 0 <= i < |field| && Special(field[i])
  }

  function Doubled(field: string): string {
    if field == "" then ""
    else (if field[0] == QUOTE then [QUOTE, QUOTE] else [field[0]]) + Doubled(field[1..])
  }

  function Quoted(field: string): string {
    [QUOTE] + Doubled(field) + [QUOTE]
  }

  function PrintField(field: string): string {
    if NeedsQuotes(field) then Quoted(field) else field
  }

  lemma {:induction false} DoubledIsNoShorter(field: string)
    ensures |field| <= |Doubled(field)|
  {
    if field != "" { DoubledIsNoShorter(field[1..]); }
  }

  /** A field is written as it is exactly when it holds no comma, quote or line break. */
  lemma WrittenBareIffPlain(field: string)
    ensures PrintField(field) == field
            <==> forall c :: c in field ==> c != ',' && c != '"' && c != '\n' && c != '\r'
  {
    DoubledIsNoShorter(field);
    if c :| c in field && (c == ',' || c == '"' || c == '\n' || c == '\r') {
      var i :| 0 <= i < |field| && field[i] == c;
      assert Special(field[i]);
    }
    if i :| 0 <= i < |field| && Special(field[i]) {
      assert field[i] in field;
      assert |Quoted(field)| == |Doubled(field)| + 2;
    }
  }

  function PrintFields(record: Record): string
    requires record != []
  {
    if |record| == 1 then PrintField(record[0])
    else PrintField(record[0]) + [COMMA] + PrintFields(record[1..])
  }

  /** A record that is one empty field is written as a pair of quotes, not as a blank line. */
  function PrintRecord(record: Record): string {
    if record == [] then "" else if record == [""] then Quoted("") else PrintFields(record)
  }

  datatype LineEnd = Lf | CrLf

  function EndText(end: LineEnd): string {
    match end
    case Lf => [LF]
    case CrLf => [CR, LF]
  }

  function Print(records: seq<Record>, end: LineEnd): string {
    if records == [] then "" else PrintRecord(records[0]) + EndText(end) + Print(records[1..], end)
  }

  predicate Printable(records: seq<Record>) {
    forall i :: 0 <= i < |records| ==> records[i] != []
  }

  // ------------------------------------------------------------------ reading what was written

  predicate AtFieldStart(st: State) {
    !st.inQuotes && st.field == "" && !st.started
  }

  lemma {:induction false} ScanUnquoted(st: State, field: string, rest: string)
    requires !st.inQuotes && (field != "" && field[0] == QUOTE ==> st.started)
    requires !NeedsQuotes(field)
    ensures Scan(st, field + rest)
            == Scan(st.(field := st.field + field, started := st.started || field != ""), rest)
    decreases |field|
  {
    if field == "" {
      assert field + rest == rest && st.field + field == st.field;
    } else {
      var text := field + rest;
      assert text[0] == field[0] && text[1..] == field[1..] + rest;
      assert !Special(field[0]);
      forall i | 0 <= i < |field[1..]| ensures !Special(field[1..][i]) {
        assert field[1..][i] == field[i + 1];
      }
      var next := Plain(st, field[0]);
      assert next.field + field[1..] == st.field + field;
      ScanUnquoted(next, field[1..], rest);
    }
  }

  predicate NoQuoteAhead(rest: string) {
    rest == "" || rest[0] != QUOTE
  }

  lemma {:induction false} ScanPair(st: State, tail: string)
    requires st.inQuotes
    ensures Scan(st, [QUOTE, QUOTE] + tail) == Scan(st.(field := st.field + [QUOTE]), tail)
  {
    var text := [QUOTE, QUOTE] + tail;
    assert text[2..] == tail;
  }

  lemma {:induction false} ScanInside(st: State, c: char, tail: string)
    requires st.inQuotes && c != QUOTE
    ensures Scan(st, [c] + tail) == Scan(st.(field := st.field + [c]), tail)
  {
    var text := [c] + tail;
    assert text[1..] == tail;
  }

  lemma {:induction false} ScanClosing(st: State, rest: string)
    requires st.inQuotes && NoQuoteAhead(rest)
    ensures Scan(st, [QUOTE] + rest) == Scan(st.(inQuotes := false), rest)
  {
    var text := [QUOTE] + rest;
    assert text[1..] == rest;
  }

  /** The first character of a quoted field's text, and what follows it. */
  lemma DoubledApart(field: string, rest: string)
    requires field != ""
    ensures Doubled(field) + [QUOTE] + rest
            == (if field[0] == QUOTE then [QUOTE, QUOTE] else [field[0]]) + (Doubled(field[1..]) + [QUOTE] + rest)
  {
  }

  lemma FieldApart(before: string, field: string)
    requires field != ""
    ensures before + [field[0]] + field[1..] == before + field
  {
  }

  lemma {:induction false} ScanDoubled(st: State, field: string, rest: string)
    requires st.inQuotes && NoQuoteAhead(rest)
    ensures Scan(st, Doubled(field) + [QUOTE] + rest)
            == Scan(st.(field := st.field + field, inQuotes := false), rest)
    decreases |field|
  {
    if field == "" {
      assert Doubled(field) + [QUOTE] + rest == [QUOTE] + rest;
      assert st.field + field == st.field;
      ScanClosing(st, rest);
    } else {
      var tail := Doubled(field[1..]) + [QUOTE] + rest;
      ScanDoubled(st.(field := st.field + [field[0]]), field[1..], rest);
      FieldApart(st.field, field);
      DoubledApart(field, rest);
      if field[0] == QUOTE {
        ScanPair(st, tail);
      } else {
        ScanInside(st, field[0], tail);
      }
    }
  }

  lemma ScanQuoted(st: State, field: string, rest: string)
    requires AtFieldStart(st) && NoQuoteAhead(rest)
    ensures Scan(st, Quoted(field) + rest) == Scan(st.(field := field, started := true), rest)
  {
    var text := Quoted(field) + rest;
    assert text[0] == QUOTE && text[1..] == Doubled(field) + [QUOTE] + rest;
    var opening := Plain(st, QUOTE);
    ScanDoubled(opening, field, rest);
    assert opening.field + field == field;
  }

  lemma {:induction false} ScanField(st: State, field: string, rest: string) returns (started: bool)
    requires AtFieldStart(st) && NoQuoteAhead(rest)
    ensures Scan(st, PrintField(field) + rest) == Scan(st.(field := field, started := started), rest)
  {
    if NeedsQuotes(field) {
      ScanQuoted(st, field, rest);
      started := true;
    } else {
      if field != "" { assert !Special(field[0]); }
      ScanUnquoted(st, field, rest);
      started := field != "";
      assert st.field + field == field;
    }
  }

  /** After the fields of a record, the last one is still the current field and the others are kept. */
  lemma {:induction false} ScanFields(st: State, record: Record, rest: string) returns (started: bool)
    requires AtFieldStart(st) && record != [] && NoQuoteAhead(rest)
    ensures Scan(st, PrintFields(record) + rest)
              == Scan(st.(record := st.record + record[..|record| - 1], field := record[|record| - 1],
                          started := started), rest)
    decreases |record|
  {
    if |record| == 1 {
      started := ScanField(st, record[0], rest);
      assert st.record + record[..0] == st.record;
    } else {
      var tail := PrintFields(record[1..]) + rest;
      SplitFields(record, rest);
      var began := ScanField(st, record[0], [COMMA] + tail);
      ScanComma(st.(field := record[0], started := began), tail);
      started := ScanFields(st.(record := st.record + [record[0]]), record[1..], rest);
      AllButLast(st.record, record);
    }
  }

  lemma AllButLast(before: Record, record: Record)
    requires 1 < |record|
    ensures before + [record[0]] + record[1..][..|record| - 2] == before + record[..|record| - 1]
  {
  }

  lemma SplitFields(record: Record, rest: string)
    requires 1 < |record|
    ensures PrintFields(record) + rest == PrintField(record[0]) + ([COMMA] + (PrintFields(record[1..]) + rest))
  {
    Join3(PrintField(record[0]), [COMMA], PrintFields(record[1..]), rest);
  }

  lemma ScanComma(st: State, rest: string)
    requires !st.inQuotes
    ensures Scan(st, [COMMA] + rest) == Scan(st.(record := st.record + [st.field], field := "", started := false), rest)
  {
    assert ([COMMA] + rest)[1..] == rest;
  }

  lemma ScanRecord(st: State, record: Record, rest: string) returns (started: bool)
    requires AtFieldStart(st) && st.record == [] && record != [] && NoQuoteAhead(rest)
    ensures Scan(st, PrintRecord(record) + rest)
              == Scan(State(st.records, record[..|record| - 1], record[|record| - 1], false, started), rest)
  {
    if record == [""] {
      ScanQuoted(st, "", rest);
      assert record[..0] == [];
      started := true;
    } else {
      started := ScanFields(st, record, rest);
      assert st.record + record[..|record| - 1] == record[..|record| - 1];
    }
  }

  lemma ScanLineEnd(st: State, end: LineEnd, rest: string)
    requires !st.inQuotes
    ensures Scan(st, EndText(end) + rest)
            == Scan(State(st.records + [st.record + [st.field]], [], "", false, false), rest)
  {
    var text := EndText(end) + rest;
    if end.Lf? {
      assert text[1..] == rest;
    } else {
      assert text[1..] == [LF] + rest && ([LF] + rest)[1..] == rest;
    }
  }

  lemma {:induction false} ScanLine(st: State, record: Record, end: LineEnd, rest: string)
    requires AtFieldStart(st) && st.record == [] && record != []
    ensures Scan(st, PrintRecord(record) + (EndText(end) + rest)) == Scan(st.(records := st.records + [record]), rest)
  {
    var started := ScanRecord(st, record, EndText(end) + rest);
    ScanLineEnd(State(st.records, record[..|record| - 1], record[|record| - 1], false, started), end, rest);
    assert record[..|record| - 1] + [record[|record| - 1]] == record;
  }

  lemma Join3(a: string, b: string, c: string, d: string)
    ensures (a + b + c) + d == a + (b + (c + d))
  {
  }

  lemma PrintApart(records: seq<Record>, end: LineEnd, rest: string)
    requires records != [] && Printable(records)
    ensures Print(records, end) + rest
            == PrintRecord(records[0]) + (EndText(end) + (Print(records[1..], end) + rest))
  {
    Join3(PrintRecord(records[0]), EndText(end), Print(records[1..], end), rest);
  }

  lemma RecordsApart(before: seq<Record>, records: seq<Record>)
    requires records != []
    ensures before + [records[0]] + records[1..] == before + records
  {
  }

  lemma {:induction false} ScanPrinted(st: State, records: seq<Record>, end: LineEnd, rest: string)
    requires AtFieldStart(st) && st.record == [] && Printable(records)
    ensures Scan(st, Print(records, end) + rest) == Scan(st.(records := st.records + records), rest)
    decreases |records|
  {
    if records == [] {
      assert Print(records, end) + rest == rest && st.records + records == st.records;
    } else {
      PrintApart(records, end, rest);
      ScanLine(st, records[0], end, Print(records[1..], end) + rest);
      ScanPrinted(st.(records := st.records + [records[0]]), records[1..], end, rest);
      RecordsApart(st.records, records);
    }
  }

  /** Reading back what was written returns it exactly, whatever the fields hold. */
  lemma RoundTrip(records: seq<Record>, end: LineEnd)
    requires Printable(records)
    ensures Parsed(Print(records, end)) == Ok(records)
  {
    ScanPrinted(FRESH, records, end, "");
    assert Print(records, end) + "" == Print(records, end);
    assert [] + records == records;
  }

  /**
   * A last record with no line end is read back exactly unless it is a single empty field: the
   * reader pushes an unfinished record only when a field or an earlier field is there to show it.
   */
  lemma UnfinishedLastRecord(records: seq<Record>, last: Record, end: LineEnd)
    requires Printable(records) && last != []
    ensures Parsed(Print(records, end) + PrintRecord(last)) == Ok(if last == [""] then records else records + [last])
    ensures Parsed(Print(records, end) + PrintRecord(last)) == Ok(records + [last]) <==> last != [""]
  {
    ScanPrinted(FRESH, records, end, PrintRecord(last));
    assert FRESH.records + records == records;
    FinishLast(FRESH.(records := records), last);
    assert |records + [last]| != |records|;
  }

  lemma FinishLast(st: State, last: Record)
    requires AtFieldStart(st) && st.record == [] && last != []
    ensures Finish(Scan(st, PrintRecord(last))) == Ok(if last == [""] then st.records else st.records + [last])
  {
    var started := ScanRecord(st, last, "");
    assert PrintRecord(last) + "" == PrintRecord(last);
    FinishState(st.records, last, started);
  }

  lemma FinishState(records: seq<Record>, last: Record, started: bool)
    requires last != []
    ensures var st := State(records, last[..|last| - 1], last[|last| - 1], false, started);
            Finish(Scan(st, "")) == Ok(if last == [""] then records else records + [last])
  {
    assert last[..|last| - 1] + [last[|last| - 1]] == last;
  }

  lemma {:induction false} ScanKeepsPrintable(st: State, text: string)
    requires Printable(st.records)
    ensures Printable(Scan(st, text).records)
    decreases |text|
  {
    if text == "" {
    } else if !st.inQuotes {
      ScanKeepsPrintable(Plain(st, text[0]), text[1..]);
    } else if text[0] != QUOTE {
      ScanKeepsPrintable(st.(field := st.field + [text[0]]), text[1..]);
    } else if 1 < |text| && text[1] == QUOTE {
      ScanKeepsPrintable(st.(field := st.field + [QUOTE]), text[2..]);
    } else {
      ScanKeepsPrintable(st.(inQuotes := false), text[1..]);
    }
  }

  /** Printing what was read, from any text at all, loses nothing the reader saw. */
  lemma ParsePrintParse(text: string, end: LineEnd)
    requires Parsed(text).Ok?
    ensures Parsed(Print(Parsed(text).value, end)) == Parsed(text)
  {
    ScanKeepsPrintable(FRESH, text);
    RoundTrip(Parsed(text).value, end);
  }

  // ------------------------------------------------------------------ when reading fails

  /** Text in which every quote stands next to its double. */
  predicate QuotesPaired(text: string)
    decreases |text|
  {
    if text == "" then true
    else if text[0] != QUOTE then QuotesPaired(text[1..])
    else 1 < |text| && text[1] == QUOTE && QuotesPaired(text[2..])
  }

  /** A quote that opens a quoted field: what precedes it ends at the start of a field. */
  predicate OpensAt(text: string, i: nat) {
    i < |text| && text[i] == QUOTE && AtFieldStart(Scan(FRESH, text[..i]))
  }

  lemma {:induction false} ScanSplit(st: State, p: string, q: string)
    requires st.inQuotes ==> st.started
    requires Scan(st, p).inQuotes || !Scan(st, p).started || NoQuoteAhead(q)
    ensures Scan(st, p + q) == Scan(Scan(st, p), q)
    decreases |p|
  {
    var text := p + q;
    if p == "" {
      assert text == q;
    } else {
      assert text[0] == p[0] && text[1..] == p[1..] + q;
      if !st.inQuotes {
        ScanSplit(Plain(st, p[0]), p[1..], q);
      } else if p[0] != QUOTE {
        ScanSplit(st.(field := st.field + [p[0]]), p[1..], q);
      } else if 1 < |p| && p[1] == QUOTE {
        assert text[1] == QUOTE && text[2..] == p[2..] + q;
        ScanSplit(st.(field := st.field + [QUOTE]), p[2..], q);
      } else {
        if |p| == 1 { assert p[1..] == ""; }
        ScanSplit(st.(inQuotes := false), p[1..], q);
      }
    }
  }

  lemma {:induction false} PairedStaysInside(st: State, text: string)
    requires st.inQuotes && QuotesPaired(text)
    ensures Scan(st, text).inQuotes
    decreases |text|
  {
    if text == "" {
    } else if text[0] != QUOTE {
      PairedStaysInside(st.(field := st.field + [text[0]]), text[1..]);
    } else {
      PairedStaysInside(st.(field := st.field + [QUOTE]), text[2..]);
    }
  }

  /** A scan that ends inside quotes either never left them or opened them at some field start. */
  lemma {:induction false} OpeningOf(st: State, text: string) returns (i: nat)
    requires st.inQuotes ==> st.started
    requires Scan(st, text).inQuotes
    requires !(st.inQuotes && QuotesPaired(text))
    ensures i < |text| && text[i] == QUOTE
    ensures AtFieldStart(Scan(st, text[..i])) && QuotesPaired(text[i + 1..])
    decreases |text|
  {
    if !st.inQuotes {
      var next := Plain(st, text[0]);
      if next.inQuotes && QuotesPaired(text[1..]) {
        i := 0;
        assert text[..0] == "";
      } else {
        var k := OpeningOf(next, text[1..]);
        i := k + 1;
        Shifted(text, k, 1);
      }
    } else if text[0] != QUOTE {
      var k := OpeningOf(st.(field := st.field + [text[0]]), text[1..]);
      i := k + 1;
      Shifted(text, k, 1);
    } else if 1 < |text| && text[1] == QUOTE {
      var k := OpeningOf(st.(field := st.field + [QUOTE]), text[2..]);
      i := k + 2;
      Shifted(text, k, 2);
    } else {
      var k := OpeningOf(st.(inQuotes := false), text[1..]);
      i := k + 1;
      Shifted(text, k, 1);
    }
  }

  lemma Shifted(text: string, k: nat, step: nat)
    requires 0 < step && step + k < |text|
    ensures text[..k + step][step..] == text[step..][..k] && text[..k + step][0] == text[0]
    ensures text[k + step + 1..] == text[step..][k + 1..] && text[step..][k] == text[k + step]
    ensures forall j :: 0 <= j < k + step ==> text[..k + step][j] == text[j]
  {
  }

  /** Reading fails exactly when some field opens with a quote that no lone quote after it closes. */
  lemma FailsIffLeftOpen(text: string)
    ensures Parsed(text).Err? <==> exists i :: OpensAt(text, i) && QuotesPaired(text[i + 1..])
  {
    if Parsed(text).Err? {
      var i := OpeningOf(FRESH, text);
      assert OpensAt(text, i);
    }
    if i: nat :| OpensAt(text, i) && QuotesPaired(text[i + 1..]) {
      var p, q := text[..i], text[i..];
      assert text == p + q && q[1..] == text[i + 1..];
      ScanSplit(FRESH, p, q);
      PairedStaysInside(Plain(Scan(FRESH, p), QUOTE), q[1..]);
    }
  }
}
