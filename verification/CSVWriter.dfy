/** Comma-separated values as RFC 4180, section 2 defines them, with LF line ends. */
module Csv {
  import opened Wrappers

  predicate Special(c: char) { c == ',' || c == '"' || c == '\n' || c == '\r' }

  predicate Plain(field: string) {
    forall i :: 0 <= i < |field| ==> !Special(field[i])
  }

  /** Text that needs no quoting. */
  type PlainText = s: string | Plain(s)

  /** Every double quote written twice (rule 7). */
  function Doubled(field: string): string {
    if field == "" then ""
    else Doubled(field[..|field| - 1]) + (if field[|field| - 1] == '"' then "\"\"" else [field[|field| - 1]])
  }

  /** A field as it stands in a line (rules 5 and 6). */
  function Escaped(field: string): string {
    if Plain(field) then field else "\"" + Doubled(field) + "\""
  }

  function EscapedAll(fields: seq<string>): (r: seq<string>)
    ensures |r| == |fields| && forall i :: 0 <= i < |fields| ==> r[i] == Escaped(fields[i])
  {
    seq(|fields|, i requires 0 <= i < |fields| => Escaped(fields[i]))
  }

  function Joined(texts: seq<string>): string
    requires texts != []
  {
    if |texts| == 1 then texts[0] else Joined(texts[..|texts| - 1]) + "," + texts[|texts| - 1]
  }

  function Line(fields: seq<string>): string
    requires fields != []
  {
    Joined(EscapedAll(fields)) + "\n"
  }

  /** Only commas, double quotes, line feeds and carriage returns need quoting; quoting puts a double
      quote at both ends and doubles those inside. */
  lemma EscapeRules(field: string)
    ensures (forall i :: 0 <= i < |field| ==>
               field[i] != ',' && field[i] != '"' && field[i] != '\n' && field[i] != '\r') <==> Escaped(field) == field
    ensures Escaped(field) != field ==>
              var e := Escaped(field);
              |e| == |field| + Quotes(field) + 2 && e[0] == '"' && e[|e| - 1] == '"' && e[1..|e| - 1] == Doubled(field)
  {
    DoubledSize(field);
  }

  function Quotes(field: string): nat {
    if field == "" then 0 else Quotes(field[..|field| - 1]) + (if field[|field| - 1] == '"' then 1 else 0)
  }

  lemma {:induction false} DoubledSize(field: string)
    ensures |Doubled(field)| == |field| + Quotes(field)
    ensures Quotes(field) == 0 ==> Doubled(field) == field
  {
    if field != "" {
      DoubledSize(field[..|field| - 1]);
      assert field == field[..|field| - 1] + [field[|field| - 1]];
    }
  }

  /** Commas between the fields and a line feed at the end. */
  lemma LineOfTwo(a: string, b: string)
    ensures Line([a]) == Escaped(a) + "\n" && Line([a, b]) == Escaped(a) + "," + Escaped(b) + "\n"
  {
    assert EscapedAll([a]) == [Escaped(a)];
    var texts := EscapedAll([a, b]);
    assert texts[..1] == [Escaped(a)] && texts[1] == Escaped(b);
  }

  lemma QuotedExample()
    ensures Escaped("a\"b,") == "\"a\"\"b,\""
  {
    var s: string := "a\"b,";
    assert s[3] == ',' && !Plain(s);
    assert s[..3][..2][..1] == "a" && s[..3][..2] == "a\"" && s[..3] == "a\"b" && s[..1][..0] == "";
    assert Doubled("a") == "" + "a";
    assert Doubled("a\"") == "a" + "\"\"";
    assert Doubled("a\"b") == "a\"\"" + "b";
  }

  // ----- a reference reader -----

  datatype Mode = FieldStart | InPlain | InQuotes | AfterQuote | Failed

  /** Completed records, completed fields of the current one, and the text of the current field. */
  datatype Reader = Reader(records: seq<seq<string>>, fields: seq<string>, field: string, mode: Mode) {
    function EndField(): Reader { Reader(records, fields + [field], "", FieldStart) }

    function EndRecord(): Reader { Reader(records + [fields + [field]], [], "", FieldStart) }
  }

  function Feed(r: Reader, c: char): Reader {
    match r.mode
    case FieldStart =>
      if c == '"' then r.(mode := InQuotes)
      else if c == ',' then r.EndField()
      else if c == '\n' then r.EndRecord()
      else if c == '\r' then r.(mode := Failed)
      else r.(field := [c], mode := InPlain)
    case InPlain =>
      if c == ',' then r.EndField()
      else if c == '\n' then r.EndRecord()
      else if Special(c) then r.(mode := Failed)
      else r.(field := r.field + [c])
    case InQuotes =>
      if c == '"' then r.(mode := AfterQuote) else r.(field := r.field + [c])
    case AfterQuote =>
      if c == '"' then r.(field := r.field + [c], mode := InQuotes)
      else if c == ',' then r.EndField()
      else if c == '\n' then r.EndRecord()
      else r.(mode := Failed)
    case Failed => r
  }

  function FeedAll(r: Reader, text: string): Reader {
    if text == "" then r else Feed(FeedAll(r, text[..|text| - 1]), text[|text| - 1])
  }

  /** Between two records. */
  function AtRecord(records: seq<seq<string>>): Reader { Reader(records, [], "", FieldStart) }

  /** The records of a file. The last one may lack its line end (rule 2). */
  function Parse(text: string): Option<seq<seq<string>>> {
    var r := FeedAll(AtRecord([]), text);
    if r.mode.Failed? || r.mode.InQuotes? then None
    else if r.mode.FieldStart? && r.fields == [] then Some(r.records)
    else Some(r.records + [r.fields + [r.field]])
  }

  lemma {:induction false} FeedConcat(r: Reader, a: string, b: string)
    ensures FeedAll(r, a + b) == FeedAll(FeedAll(r, a), b)
  {
    if b == "" {
      assert a + b == a;
    } else {
      FeedConcat(r, a, b[..|b| - 1]);
      assert (a + b)[..|a + b| - 1] == a + b[..|b| - 1];
    }
  }

  lemma FeedOne(r: Reader, c: char)
    ensures FeedAll(r, [c]) == Feed(r, c)
  {
    assert [c][..0] == "";
  }

  lemma {:induction false} FeedPlain(r: Reader, field: string)
    requires r.mode.FieldStart? && r.field == "" && Plain(field)
    ensures FeedAll(r, field) == if field == "" then r else r.(field := field, mode := InPlain)
  {
    if field != "" {
      var n := |field| - 1;
      FeedPlain(r, field[..n]);
      assert field == field[..n] + [field[n]];
      assert !Special(field[n]);
    }
  }

  lemma {:induction false} FeedDoubled(r: Reader, field: string)
    requires r.mode.InQuotes?
    ensures FeedAll(r, Doubled(field)) == r.(field := r.field + field)
  {
    if field == "" {
      assert r.field + "" == r.field;
    } else {
      var n := |field| - 1;
      var tail := if field[n] == '"' then "\"\"" else [field[n]];
      FeedDoubled(r, field[..n]);
      FeedConcat(r, Doubled(field[..n]), tail);
      assert r.field + field == r.field + field[..n] + [field[n]];
      FeedInQuotes(r.(field := r.field + field[..n]), field[n]);
    }
  }

  /** One character of a quoted field. */
  lemma FeedInQuotes(r: Reader, c: char)
    requires r.mode.InQuotes?
    ensures FeedAll(r, if c == '"' then "\"\"" else [c]) == r.(field := r.field + [c])
  {
    if c == '"' {
      FeedConcat(r, "\"", "\"");
      assert "\"" + "\"" == "\"\"";
      FeedOne(r, '"');
      FeedOne(r.(mode := AfterQuote), '"');
    } else {
      FeedOne(r, c);
    }
  }

  /** Any field, however it is written, is read back and ended by the separator after it. */
  lemma FeedField(r: Reader, field: string, sep: char)
    requires r.mode.FieldStart? && r.field == "" && (sep == ',' || sep == '\n')
    ensures FeedAll(r, Escaped(field) + [sep])
            == if sep == ',' then r.(field := field).EndField() else r.(field := field).EndRecord()
  {
    FeedConcat(r, Escaped(field), [sep]);
    FeedOne(FeedAll(r, Escaped(field)), sep);
    if Plain(field) {
      FeedPlain(r, field);
    } else {
      var quoted := r.(mode := InQuotes);
      FeedConcat(r, "\"" + Doubled(field), "\"");
      FeedConcat(r, "\"", Doubled(field));
      FeedOne(r, '"');
      FeedDoubled(quoted, field);
      assert "" + field == field;
      FeedOne(quoted.(field := field), '"');
    }
  }

  lemma JoinedGrows(texts: seq<string>, sep: string)
    requires |texts| > 1
    ensures Joined(texts) + sep == (Joined(texts[..|texts| - 1]) + ",") + (texts[|texts| - 1] + sep)
  {}

  lemma FeedGrows(r: Reader, texts: seq<string>, sep: string)
    requires |texts| > 1
    ensures FeedAll(r, Joined(texts) + sep)
            == FeedAll(FeedAll(r, Joined(texts[..|texts| - 1]) + [',']), texts[|texts| - 1] + sep)
  {
    JoinedGrows(texts, sep);
    FeedConcat(r, Joined(texts[..|texts| - 1]) + [','], texts[|texts| - 1] + sep);
  }

  /** The last field of a line, after the others have been read. */
  lemma FeedLast(records: seq<seq<string>>, before: seq<string>, field: string, sep: char)
    requires sep == ',' || sep == '\n'
    ensures FeedAll(Reader(records, before, "", FieldStart), Escaped(field) + [sep])
            == if sep == ',' then Reader(records, before + [field], "", FieldStart)
               else AtRecord(records + [before + [field]])
  {
    FeedField(Reader(records, before, "", FieldStart), field, sep);
  }

  /** Where the reader is after some fields of a record and a separator. */
  function AfterFields(records: seq<seq<string>>, fields: seq<string>, sep: char): Reader {
    if sep == ',' then Reader(records, fields, "", FieldStart) else AtRecord(records + [fields])
  }

  lemma {:induction false} FeedFields(r: Reader, records: seq<seq<string>>, before: seq<string>,
                                      fields: seq<string>, texts: seq<string>, sep: char)
    requires fields != [] && (sep == ',' || sep == '\n') && r == Reader(records, before, "", FieldStart)
    requires |texts| == |fields| && forall i :: 0 <= i < |fields| ==> texts[i] == Escaped(fields[i])
    ensures FeedAll(r, Joined(texts) + [sep]) == AfterFields(records, before + fields, sep)
  {
    var n := |fields| - 1;
    assert before + fields[..n] + [fields[n]] == before + fields;
    if n == 0 {
      FeedLast(records, before, fields[0], sep);
      assert before + fields[..0] == before;
    } else {
      FeedFields(r, records, before, fields[..n], texts[..n], ',');
      FeedMore(r, records, before + fields[..n], texts, fields[n], sep);
    }
  }

  lemma FeedMore(r: Reader, records: seq<seq<string>>, firsts: seq<string>, texts: seq<string>, field: string,
                 sep: char)
    requires |texts| > 1 && texts[|texts| - 1] == Escaped(field) && (sep == ',' || sep == '\n')
    requires FeedAll(r, Joined(texts[..|texts| - 1]) + [',']) == AfterFields(records, firsts, ',')
    ensures FeedAll(r, Joined(texts) + [sep]) == AfterFields(records, firsts + [field], sep)
  {
    FeedGrows(r, texts, [sep]);
    FeedLast(records, firsts, field, sep);
  }

  /** A line completes the record that some fields have begun. */
  lemma FeedRest(records: seq<seq<string>>, before: seq<string>, fields: seq<string>)
    requires fields != []
    ensures FeedAll(Reader(records, before, "", FieldStart), Line(fields)) == AtRecord(records + [before + fields])
  {
    FeedFields(Reader(records, before, "", FieldStart), records, before, fields, EscapedAll(fields), '\n');
  }

  lemma FeedLine(records: seq<seq<string>>, fields: seq<string>)
    requires fields != []
    ensures FeedAll(AtRecord(records), Line(fields)) == AtRecord(records + [fields])
  {
    FeedRest(records, [], fields);
    assert [] + fields == fields;
  }

  /** The text is a sequence of complete records. */
  ghost predicate Holds(text: string, records: seq<seq<string>>) {
    FeedAll(AtRecord([]), text) == AtRecord(records)
  }

  /** Appending a line to complete records appends the record, and the reader sees just that. */
  lemma AppendLine(text: string, records: seq<seq<string>>, fields: seq<string>)
    requires Holds(text, records) && fields != []
    ensures Holds(text + Line(fields), records + [fields])
    ensures Parse(text + Line(fields)) == Some(records + [fields])
  {
    FeedConcat(AtRecord([]), text, Line(fields));
    FeedLine(records, fields);
  }

  // ----- which texts can be appended to -----

  /** Every appended line of n fields is read as one more record. */
  ghost predicate TakesLines(text: string, records: seq<seq<string>>, n: nat)
    requires n > 0
  {
    forall fields: seq<string> :: |fields| == n ==> Parse(text + Line(fields)) == Some(records + [fields])
  }

  /** Lines can be appended to a text exactly when it is a sequence of complete records. */
  lemma {:induction false} TakesLinesIff(text: string, records: seq<seq<string>>, n: nat)
    requires n > 0
    ensures TakesLines(text, records, n) <==> Holds(text, records)
  {
    if Holds(text, records) {
      forall fields: seq<string> | |fields| == n ensures Parse(text + Line(fields)) == Some(records + [fields]) {
        AppendLine(text, records, fields);
      }
    }
    if TakesLines(text, records, n) {
      assert Parse(text + Line(As(n))) == Some(records + [As(n)]);
      OneLineTells(text, records, n);
    }
  }

  /** A text without its last line end runs into the next row. */
  lemma UnfinishedLineMerges()
    ensures Parse("a" + Line(["b"])) == Some([["ab"]]) && !TakesLines("a", [["a"]], 1)
  {
    LineOfB();
    FeedAB();
    var fields: seq<string> := ["b"];
    assert Parse("a" + Line(fields)) == Some([["ab"]]);
    assert |fields| == 1 && |[["a"]] + [fields]| == 2;
  }

  lemma FeedAB()
    ensures FeedAll(AtRecord([]), "a" + "b\n") == AtRecord([["ab"]])
  {
    var start: Reader := AtRecord([]);
    var r := Reader([], [], "a", InPlain);
    FeedOne(start, 'a');
    assert FeedAll(start, "a") == r;
    FeedConcat(start, "a", "b\n");
    FeedConcat(r, "b", "\n");
    FeedOne(r, 'b');
    assert FeedAll(r, "b") == r.(field := "ab");
    FeedOne(r.(field := "ab"), '\n');
    assert "b" + "\n" == "b\n" && [] + ["ab"] == ["ab"];
    assert [] + [["ab"]] == [["ab"]];
  }

  lemma LineOfB()
    ensures Line(["b"]) == "b\n" && "b" + "\n" == "b\n"
  {
    assert Plain("b") && EscapedAll(["b"]) == ["b"];
  }

  /** A line of n fields without anything to quote. */
  function As(n: nat): (fields: seq<string>)
    ensures |fields| == n && forall i :: 0 <= i < n ==> fields[i] == "a"
  {
    seq(n, _ => "a")
  }

  /** The line after its first letter. */
  function Tail(n: nat): string
    requires n > 0
  {
    if n == 1 then "\n" else "," + Line(As(n - 1))
  }

  lemma {:induction false} AsEscaped(n: nat)
    ensures EscapedAll(As(n)) == As(n)
  {
    assert Plain("a");
  }

  lemma {:induction false} JoinedAs(n: nat)
    requires n > 1
    ensures Joined(As(n)) == "a," + Joined(As(n - 1))
  {
    assert As(n)[..n - 1] == As(n - 1);
    if n > 2 {
      JoinedAs(n - 1);
      assert As(n - 1)[..n - 2] == As(n - 2);
    }
  }

  lemma {:induction false} LineOfAs(n: nat)
    requires n > 0
    ensures Line(As(n)) == "a" + Tail(n)
  {
    AsEscaped(n);
    if n > 1 {
      AsEscaped(n - 1);
      JoinedAs(n);
    }
  }

  lemma {:induction false} OneLineTells(text: string, records: seq<seq<string>>, n: nat)
    requires n > 0 && Parse(text + Line(As(n))) == Some(records + [As(n)])
    ensures Holds(text, records)
  {
    var r := FeedAll(AtRecord([]), text);
    FeedConcat(AtRecord([]), text, Line(As(n)));
    FieldFits(AtRecord([]), text);
    match r.mode
    case FieldStart =>
      FeedRest(r.records, r.fields, As(n));
      SameLast(records, As(n), r.records, r.fields + As(n));
    case InPlain =>
      FeedPlainRest(r, n);
      SameLast(records, As(n), r.records, r.fields + ([r.field + "a"] + As(n - 1)));
      NotAs(r.fields, r.field, n);
    case InQuotes =>
      NoQuotes(n);
      StaysInQuotes(r, Line(As(n)));
    case AfterQuote =>
      FeedAfterLetter(r, n);
      StaysFailed(Feed(r, 'a'), Tail(n));
    case Failed =>
      StaysFailed(r, Line(As(n)));
  }

  lemma {:induction false} NotAs(fields: seq<string>, field: string, n: nat)
    requires n > 0 && field != ""
    ensures fields + ([field + "a"] + As(n - 1)) != As(n)
  {
    var more := fields + ([field + "a"] + As(n - 1));
    assert |more| == n ==> more[0] == field + "a";
  }

  lemma SameLast(a: seq<seq<string>>, x: seq<string>, b: seq<seq<string>>, y: seq<string>)
    requires a + [x] == b + [y]
    ensures a == b && x == y
  {
    assert |a| == |b|;
    assert (a + [x])[..|a|] == a && (b + [y])[..|b|] == b;
    assert (a + [x])[|a|] == x && (b + [y])[|b|] == y;
  }

  /** Between fields nothing is collected, and inside a plain field something is. */
  lemma {:induction false} FieldFits(r: Reader, text: string)
    requires (r.mode.FieldStart? ==> r.field == "") && (r.mode.InPlain? ==> r.field != "")
    ensures var r' := FeedAll(r, text);
            (r'.mode.FieldStart? ==> r'.field == "") && (r'.mode.InPlain? ==> r'.field != "")
  {
    if text != "" {
      FieldFits(r, text[..|text| - 1]);
    }
  }

  lemma {:induction false} FeedAfterLetter(r: Reader, n: nat)
    requires n > 0
    ensures FeedAll(r, Line(As(n))) == FeedAll(Feed(r, 'a'), Tail(n))
  {
    LineOfAs(n);
    FeedConcat(r, "a", Tail(n));
    FeedOne(r, 'a');
  }

  lemma {:induction false} FeedPlainRest(r: Reader, n: nat)
    requires r.mode.InPlain? && n > 0
    ensures FeedAll(r, Line(As(n))) == AtRecord(r.records + [r.fields + ([r.field + "a"] + As(n - 1))])
  {
    FeedAfterLetter(r, n);
    FeedTail(r.(field := r.field + "a"), n);
  }

  lemma {:induction false} FeedTail(r: Reader, n: nat)
    requires r.mode.InPlain? && n > 0
    ensures FeedAll(r, Tail(n)) == AtRecord(r.records + [r.fields + ([r.field] + As(n - 1))])
  {
    if n == 1 {
      FeedOne(r, '\n');
      assert [r.field] + As(0) == [r.field];
    } else {
      FeedConcat(r, ",", Line(As(n - 1)));
      FeedOne(r, ',');
      FeedRest(r.records, r.fields + [r.field], As(n - 1));
      assert r.fields + [r.field] + As(n - 1) == r.fields + ([r.field] + As(n - 1));
    }
  }

  lemma {:induction false} StaysInQuotes(r: Reader, text: string)
    requires r.mode.InQuotes? && '"' !in text
    ensures FeedAll(r, text).mode.InQuotes?
  {
    if text != "" {
      StaysInQuotes(r, text[..|text| - 1]);
    }
  }

  lemma {:induction false} NoQuotes(n: nat)
    requires n > 0
    ensures '"' !in Line(As(n))
  {
    LineOfAs(n);
    if n > 1 {
      NoQuotes(n - 1);
    }
  }

  lemma {:induction false} StaysFailed(r: Reader, text: string)
    requires r.mode.Failed?
    ensures FeedAll(r, text) == r
  {
    if text != "" {
      StaysFailed(r, text[..|text| - 1]);
    }
  }

  /** Different fields are never written alike. */
  lemma LineInjective(a: seq<string>, b: seq<string>)
    requires a != [] && b != [] && Line(a) == Line(b)
    ensures a == b
  {
    FeedLine([], a);
    FeedLine([], b);
    assert ([] + [a])[0] == a && ([] + [b])[0] == b;
  }
}

/** The results file. */
module CsvFile {
  import opened Wrappers
  import opened Csv
  import opened Results
  import IsoTimestamp

  const COLUMNS: seq<string> := [
    "run_timestamp", "database", "experiment_name", "operation", "index_type", "phase", "thread_count",
    "total_ops", "total_time_ms", "p50_us", "p95_us", "p99_us", "min_us", "max_us", "mean_us",
    "throughput_ops_sec", "sstable_count", "result_set_size", "notes"]

  /** How the stream prints numbers: some text without separators, quotes or line ends. */
  datatype Numerals = Numerals(whole: nat -> PlainText, fixed: (real, nat) -> PlainText)

  type Row = r: seq<string> | |r| == 19 witness seq(19, _ => "")

  function Labels(r: BenchmarkResult, now: nat): (labels: seq<string>)
    ensures |labels| == 6
  {
    [IsoTimestamp.CsvTimestamp(now), r.database, r.experimentName, r.operation, r.indexType, r.phase]
  }

  function Figures(r: BenchmarkResult, num: Numerals): (figures: seq<PlainText>)
    ensures |figures| == 12
  {
    [num.whole(r.threadCount), num.whole(r.totalOps), num.fixed(r.totalTimeMs, 3),
     num.fixed(r.p50Us, 3), num.fixed(r.p95Us, 3), num.fixed(r.p99Us, 3), num.fixed(r.minUs, 3), num.fixed(r.maxUs, 3),
     num.fixed(r.meanUs, 3), num.fixed(r.throughputOpsSec, 1), num.whole(r.sstableCount), num.whole(r.resultSetSize)]
  }

  /** The nineteen fields of a row. */
  function RowOf(r: BenchmarkResult, now: nat, num: Numerals): Row {
    Labels(r, now) + Figures(r, num) + [r.notes]
  }

  /** A record has this text under this name of the header, and under no other place of that name. */
  ghost predicate Under(header: seq<string>, record: seq<string>, name: string, text: string) {
    && |header| == |record| && name in header
    && forall i :: 0 <= i < |header| && header[i] == name ==> record[i] == text
  }

  /** The record shows the result: each figure under its own name. */
  ghost predicate Shows(header: seq<string>, record: seq<string>, r: BenchmarkResult, now: nat, num: Numerals) {
    && Under(header, record, "run_timestamp", IsoTimestamp.CsvTimestamp(now))
    && Under(header, record, "database", r.database)
    && Under(header, record, "experiment_name", r.experimentName)
    && Under(header, record, "operation", r.operation)
    && Under(header, record, "index_type", r.indexType)
    && Under(header, record, "phase", r.phase)
    && Under(header, record, "thread_count", num.whole(r.threadCount))
    && Under(header, record, "total_ops", num.whole(r.totalOps))
    && Under(header, record, "total_time_ms", num.fixed(r.totalTimeMs, 3))
    && Under(header, record, "p50_us", num.fixed(r.p50Us, 3))
    && Under(header, record, "p95_us", num.fixed(r.p95Us, 3))
    && Under(header, record, "p99_us", num.fixed(r.p99Us, 3))
    && Under(header, record, "min_us", num.fixed(r.minUs, 3))
    && Under(header, record, "max_us", num.fixed(r.maxUs, 3))
    && Under(header, record, "mean_us", num.fixed(r.meanUs, 3))
    && Under(header, record, "throughput_ops_sec", num.fixed(r.throughputOpsSec, 1))
    && Under(header, record, "sstable_count", num.whole(r.sstableCount))
    && Under(header, record, "result_set_size", num.whole(r.resultSetSize))
    && Under(header, record, "notes", r.notes)
  }

  lemma ColumnsDistinct(i: nat, j: nat)
    requires i < j < 19
    ensures COLUMNS[i] != COLUMNS[j]
  {}

  lemma UnderColumn(record: Row, i: nat)
    requires i < 19
    ensures Under(COLUMNS, record, COLUMNS[i], record[i])
  {
    assert COLUMNS[i] in COLUMNS;
    forall j | 0 <= j < 19 && COLUMNS[j] == COLUMNS[i] ensures record[j] == record[i] {
      if j < i {
        ColumnsDistinct(j, i);
      } else if i < j {
        ColumnsDistinct(i, j);
      }
    }
  }

  lemma RowFields(r: BenchmarkResult, now: nat, num: Numerals)
    ensures var row := RowOf(r, now, num);
            && row[0] == IsoTimestamp.CsvTimestamp(now) && row[1] == r.database && row[2] == r.experimentName
            && row[3] == r.operation && row[4] == r.indexType && row[5] == r.phase
            && row[6] == num.whole(r.threadCount) && row[7] == num.whole(r.totalOps)
            && row[8] == num.fixed(r.totalTimeMs, 3) && row[9] == num.fixed(r.p50Us, 3)
            && row[10] == num.fixed(r.p95Us, 3) && row[11] == num.fixed(r.p99Us, 3)
            && row[12] == num.fixed(r.minUs, 3) && row[13] == num.fixed(r.maxUs, 3)
            && row[14] == num.fixed(r.meanUs, 3) && row[15] == num.fixed(r.throughputOpsSec, 1)
            && row[16] == num.whole(r.sstableCount) && row[17] == num.whole(r.resultSetSize) && row[18] == r.notes
  {}

  lemma RowShows(r: BenchmarkResult, now: nat, num: Numerals)
    ensures Shows(COLUMNS, RowOf(r, now, num), r, now, num)
  {
    RowFields(r, now, num);
    forall i: nat | i < 19 ensures Under(COLUMNS, RowOf(r, now, num), COLUMNS[i], RowOf(r, now, num)[i]) {
      UnderColumn(RowOf(r, now, num), i);
    }
  }

  lemma PlainEscaped(figures: seq<PlainText>)
    ensures EscapedAll(figures) == figures
  {
    forall i | 0 <= i < |figures| ensures Escaped(figures[i]) == figures[i] {
      var figure: PlainText := figures[i];
    }
  }

  lemma RowEscaped(r: BenchmarkResult, now: nat, num: Numerals)
    ensures EscapedAll(RowOf(r, now, num)) == EscapedAll(Labels(r, now)) + Figures(r, num) + [Escaped(r.notes)]
  {
    var labels, figures := Labels(r, now), Figures(r, num);
    PlainEscaped(figures);
    var row := RowOf(r, now, num);
    forall i | 0 <= i < 19
      ensures EscapedAll(row)[i] == (EscapedAll(labels) + figures + [Escaped(r.notes)])[i]
    {
      if 6 <= i < 18 {
        assert Escaped(figures[i - 6]) == EscapedAll(figures)[i - 6];
      }
    }
  }

  lemma FirstColumnsPlain()
    ensures forall i :: 0 <= i < 9 ==> Plain(COLUMNS[i])
  {
    assert Plain("run_timestamp") && Plain("database") && Plain("experiment_name") && Plain("operation");
    assert Plain("index_type") && Plain("phase") && Plain("thread_count") && Plain("total_ops");
    assert Plain("total_time_ms");
  }

  lemma LastColumnsPlain()
    ensures forall i :: 9 <= i < |COLUMNS| ==> Plain(COLUMNS[i])
  {
    assert Plain("p50_us") && Plain("p95_us") && Plain("p99_us") && Plain("min_us") && Plain("max_us");
    assert Plain("mean_us") && Plain("throughput_ops_sec") && Plain("sstable_count");
    assert Plain("result_set_size") && Plain("notes");
  }

  lemma HeaderIsLine()
    ensures Joined(COLUMNS) + "\n" == Line(COLUMNS)
  {
    FirstColumnsPlain();
    LastColumnsPlain();
    assert EscapedAll(COLUMNS) == COLUMNS;
  }

  /** A file of the file system: no content when it does not exist. */
  class File {
    var content: Option<string>

    constructor ()
      ensures content == None
    {
      content := None;
    }
  }

  // ----- what the operations do to the file -----

  /** An operation that succeeds; one that fails leaves the file as it is. A file can vanish at any time. */
  datatype FileOp = Reopen | WriteOp(row: Row) | WriteAllOp(rows: seq<Row>) | Vanish

  /** What appending starts from: a missing file is created empty. */
  function TextOf(content: Option<string>): string {
    if content.None? then "" else content.value
  }

  /** The content once an operation is done. */
  function AfterOp(header: seq<string>, content: Option<string>, op: FileOp): Option<string>
    requires header != []
  {
    match op
    case Reopen => if content.None? then Some(Line(header)) else content
    case WriteOp(row) => Some(TextOf(content) + Line(row))
    case WriteAllOp(rows) => if rows == [] then content else Some(TextOf(content) + LinesOf(rows))
    case Vanish => None
  }

  /** The text ends with a complete record. */
  predicate Complete(text: string) {
    var r := FeedAll(AtRecord([]), text);
    r.mode.FieldStart? && r.fields == []
  }

  /** The text reads as the records of before and one more, which shows the result under the names of
      the first record. */
  ghost predicate AddsRecord(before: string, after: Option<string>, r: BenchmarkResult, now: nat, num: Numerals) {
    && Parse(before).Some? && after.Some? && Parse(after.value).Some?
    && var records, more := Parse(before).value, Parse(after.value).value;
       |more| == |records| + 1 && more[..|records|] == records && Shows(more[0], more[|records|], r, now, num)
  }

  lemma CompleteHolds(text: string)
    requires Complete(text)
    ensures Parse(text).Some? && Holds(text, Parse(text).value)
  {
    FieldFits(AtRecord([]), text);
  }

  /** A new file is ready for rows, and stays so. */
  lemma NewFileReady()
    ensures ReadsHeaded(COLUMNS, Some(Line(COLUMNS))) && Complete(Line(COLUMNS))
  {
    FeedLine([], COLUMNS);
    assert [] + [COLUMNS] == [COLUMNS];
  }

  lemma WrittenRow(before: string, r: BenchmarkResult, now: nat, num: Numerals)
    requires ReadsHeaded(COLUMNS, Some(before)) && Complete(before)
    ensures AddsRecord(before, Some(before + Line(RowOf(r, now, num))), r, now, num)
    ensures ReadsHeaded(COLUMNS, Some(before + Line(RowOf(r, now, num))))
    ensures Complete(before + Line(RowOf(r, now, num)))
  {
    CompleteHolds(before);
    AppendLine(before, Parse(before).value, RowOf(r, now, num));
    RowShows(r, now, num);
  }

  class CSVWriter {
    const file: File
    const num: Numerals

    constructor (file: File, num: Numerals)
      ensures this.file == file && this.num == num
    {
      this.file, this.num := file, num;
    }

    /** Construction with its effect on the file: a missing file is created with the header, an existing
        one is left alone. None stands for the exception of a file that cannot be created. */
    static method Open(file: File, num: Numerals, canCreate: bool) returns (writer: Option<CSVWriter>)
      modifies file
      ensures writer.None? <==> old(file.content).None? && !canCreate
      ensures writer.Some? ==> writer.value.file == file && writer.value.num == num
      ensures file.content == if writer.Some? then AfterOp(COLUMNS, old(file.content), Reopen) else None
    {
      var w := new CSVWriter(file, num);
      if file.content.None? {
        var ok := w.WriteHeader(canCreate);
        if !ok {
          return None;
        }
      }
      return Some(w);
    }

    /** Truncates the file and writes the header; a file that cannot be opened is left as it is. */
    method WriteHeader(canCreate: bool) returns (ok: bool)
      modifies file
      ensures ok == canCreate
      ensures file.content == if ok then Some(Line(COLUMNS)) else old(file.content)
    {
      if !canCreate {
        return false;
      }
      HeaderIsLine();
      file.content := Some(Joined(COLUMNS) + "\n");
      ok := true;
    }

    method Escape(field: string) returns (result: string)
      ensures result == Escaped(field)
    {
      var needsQuoting := exists i :: 0 <= i < |field| && Special(field[i]);
      if !needsQuoting {
        return field;
      }
      result := "\"";
      for i := 0 to |field|
        invariant result == "\"" + Doubled(field[..i])
      {
        assert field[..i + 1][..i] == field[..i];
        if field[i] == '"' {
          result := result + "\"";
        }
        result := result + [field[i]];
      }
      assert field[..|field|] == field;
      result := result + "\"";
    }

    method EscapeLabels(result: BenchmarkResult, now: nat) returns (texts: seq<string>)
      ensures texts == EscapedAll(Labels(result, now))
    {
      var timestamp := Escape(IsoTimestamp.CsvTimestamp(now));
      var database := Escape(result.database);
      var experimentName := Escape(result.experimentName);
      var operation := Escape(result.operation);
      var indexType := Escape(result.indexType);
      var phase := Escape(result.phase);
      texts := [timestamp, database, experimentName, operation, indexType, phase];
    }

    /** The text streamed for one row: labels and notes escaped, numbers as they are. */
    method RowText(result: BenchmarkResult, now: nat) returns (text: string)
      ensures text == Joined(EscapedAll(RowOf(result, now, num)))
    {
      var labels := EscapeLabels(result, now);
      var notes := Escape(result.notes);
      RowEscaped(result, now, num);
      text := Joined(labels + Figures(result, num) + [notes]);
    }

    /** Appends one row; a missing file is created, one that cannot be opened is left as it is. */
    method Write(result: BenchmarkResult, now: nat, canOpen: bool) returns (ok: bool)
      modifies file
      ensures ok == canOpen
      ensures file.content == if ok then AfterOp(COLUMNS, old(file.content), WriteOp(RowOf(result, now, num)))
                              else old(file.content)
      ensures ok && ReadsHeaded(COLUMNS, old(file.content)) && Complete(old(file.content).value) ==>
                AddsRecord(old(file.content).value, file.content, result, now, num)
    {
      if !canOpen {
        return false;
      }
      ghost var was := file.content;
      var text := RowText(result, now);
      var before := TextOf(file.content);
      Associate(before, text, "\n");
      file.content := Some(before + text + "\n");
      ok := true;
      if ReadsHeaded(COLUMNS, was) && Complete(was.value) {
        WrittenRow(was.value, result, now, num);
      }
    }

    /** Appends the rows in order and stops at the first that cannot be written. */
    method WriteAll(results: seq<BenchmarkResult>, times: seq<nat>, canOpen: seq<bool>) returns (written: nat)
      requires |times| == |canOpen| == |results|
      modifies file
      ensures written <= |results|
      ensures AllOpen(canOpen, written)
      ensures written < |results| ==> !canOpen[written]
      ensures file.content == AfterOp(COLUMNS, old(file.content), WriteAllOp(Rows(results, times, num, written)))
    {
      written := 0;
      while written < |results|
        invariant written <= |results| && AllOpen(canOpen, written)
        invariant file.content == AfterOp(COLUMNS, old(file.content), WriteAllOp(Rows(results, times, num, written)))
      {
        var ok := Write(results[written], times[written], canOpen[written]);
        if !ok {
          return;
        }
        OneMoreOpen(canOpen, written);
        RowsGrow(COLUMNS, old(file.content), results, times, num, written);
        written := written + 1;
      }
    }
  }

  /** The file could be opened for the first n rows. */
  ghost predicate AllOpen(canOpen: seq<bool>, n: nat) {
    n <= |canOpen| && forall i :: 0 <= i < n ==> canOpen[i]
  }

  lemma OneMoreOpen(canOpen: seq<bool>, n: nat)
    requires AllOpen(canOpen, n) && n < |canOpen| && canOpen[n]
    ensures AllOpen(canOpen, n + 1)
  {}

  /** Writing n rows and then one more is writing n + 1 rows. */
  lemma RowsGrow(header: seq<string>, content: Option<string>, results: seq<BenchmarkResult>, times: seq<nat>,
                 num: Numerals, n: nat)
    requires header != [] && n < |results| == |times|
    ensures var before, after := Rows(results, times, num, n), Rows(results, times, num, n + 1);
            AfterOp(header, content, WriteAllOp(after))
            == AfterOp(header, AfterOp(header, content, WriteAllOp(before)),
                       WriteOp(RowOf(results[n], times[n], num)))
  {
    OneMoreRow(header, content, Rows(results, times, num, n), Rows(results, times, num, n + 1));
  }

  lemma OneMoreRow(header: seq<string>, content: Option<string>, before: seq<Row>, after: seq<Row>)
    requires header != [] && |after| == |before| + 1 && forall i :: 0 <= i < |before| ==> after[i] == before[i]
    ensures AfterOp(header, content, WriteAllOp(after))
            == AfterOp(header, AfterOp(header, content, WriteAllOp(before)), WriteOp(after[|before|]))
  {
    LinesGrow(TextOf(content), before, after);
    assert TextOf(content) + "" == TextOf(content);
  }

  function Rows(results: seq<BenchmarkResult>, times: seq<nat>, num: Numerals, n: nat): (rows: seq<Row>)
    requires n <= |results| == |times|
    ensures |rows| == n && forall i :: 0 <= i < n ==> rows[i] == RowOf(results[i], times[i], num)
  {
    seq(n, i requires 0 <= i < n => RowOf(results[i], times[i], num))
  }

  function LinesOf(rows: seq<Row>): string {
    if rows == [] then "" else LinesOf(rows[..|rows| - 1]) + Line(rows[|rows| - 1])
  }

  lemma Associate(a: string, b: string, c: string)
    ensures a + b + c == a + (b + c)
  {}

  lemma LinesGrow(text: string, rows: seq<Row>, more: seq<Row>)
    requires |more| == |rows| + 1 && forall i :: 0 <= i < |rows| ==> more[i] == rows[i]
    ensures text + LinesOf(more) == text + LinesOf(rows) + Line(more[|rows|])
  {
    assert more[..|rows|] == rows;
    Associate(text, LinesOf(rows), Line(more[|rows|]));
  }

  // ----- whole files -----

  function ContentAfter(header: seq<string>, content: Option<string>, ops: seq<FileOp>): Option<string>
    requires header != []
  {
    if ops == [] then content
    else AfterOp(header, ContentAfter(header, content, ops[..|ops| - 1]), ops[|ops| - 1])
  }

  /** The same operations on the records of the file. */
  function RecordsAfterOp(header: seq<string>, records: Option<seq<seq<string>>>, op: FileOp)
    : Option<seq<seq<string>>>
  {
    var held := if records.None? then [] else records.value;
    match op
    case Reopen => if records.None? then Some([header]) else records
    case WriteOp(row) => Some(held + [row])
    case WriteAllOp(rows) => if rows == [] then records else Some(held + rows)
    case Vanish => None
  }

  function RecordsAfter(header: seq<string>, records: Option<seq<seq<string>>>, ops: seq<FileOp>)
    : Option<seq<seq<string>>>
  {
    if ops == [] then records
    else RecordsAfterOp(header, RecordsAfter(header, records, ops[..|ops| - 1]), ops[|ops| - 1])
  }

  /** The file is missing, or it is a sequence of just these records. */
  ghost predicate Contains(content: Option<string>, records: Option<seq<seq<string>>>) {
    && (content.None? <==> records.None?)
    && (content.Some? ==> Holds(content.value, records.value))
  }

  /** Whatever complete records a file held before, and whatever is done to it, it reads back as the
      records that were written. */
  lemma {:induction false} FileHolds(header: seq<string>, content: Option<string>,
                                     records: Option<seq<seq<string>>>, ops: seq<FileOp>)
    requires header != [] && Contains(content, records)
    ensures Contains(ContentAfter(header, content, ops), RecordsAfter(header, records, ops))
  {
    if ops != [] {
      var before := ops[..|ops| - 1];
      FileHolds(header, content, records, before);
      OpHolds(header, ContentAfter(header, content, before), RecordsAfter(header, records, before), ops[|ops| - 1]);
    }
  }

  lemma OpHolds(header: seq<string>, content: Option<string>, records: Option<seq<seq<string>>>, op: FileOp)
    requires header != [] && Contains(content, records)
    ensures Contains(AfterOp(header, content, op), RecordsAfterOp(header, records, op))
  {
    var held := if records.None? then [] else records.value;
    match op
    case Reopen =>
      FeedLine([], header);
      assert [] + [header] == [header];
    case WriteOp(row) =>
      AppendLine(TextOf(content), held, row);
    case WriteAllOp(rows) =>
      AppendLines(TextOf(content), held, rows);
    case Vanish =>
  }

  lemma HoldsParses(text: string, records: seq<seq<string>>)
    requires Holds(text, records)
    ensures Parse(text) == Some(records)
  {}

  /** The rows an operation adds. */
  function OpRows(op: FileOp): seq<Row> {
    match op case WriteOp(row) => [row] case WriteAllOp(rows) => rows case _ => []
  }

  function Written(ops: seq<FileOp>): seq<Row> {
    if ops == [] then [] else Written(ops[..|ops| - 1]) + OpRows(ops[|ops| - 1])
  }

  ghost predicate Stays(ops: seq<FileOp>) {
    forall i :: 0 <= i < |ops| ==> !ops[i].Vanish?
  }

  lemma {:induction false} RecordsWritten(header: seq<string>, records: seq<seq<string>>, ops: seq<FileOp>)
    requires Stays(ops)
    ensures RecordsAfter(header, Some(records), ops) == Some(records + Written(ops))
  {
    if ops != [] {
      var before := ops[..|ops| - 1];
      RecordsWritten(header, records, before);
      Regroup(records, Written(before), OpRows(ops[|ops| - 1]));
    } else {
      assert records + [] == records;
    }
  }

  lemma Regroup(records: seq<seq<string>>, a: seq<Row>, b: seq<Row>)
    ensures records + a + b == records + (a + b)
    ensures b == [] ==> records + (a + b) == records + a
  {}

  /** A file of complete records reads back as those and the written rows in order, nineteen fields
      each, every text unchanged, after any sequence of writes and re-openings. */
  lemma AppendedReadsBack(text: string, records: seq<seq<string>>, ops: seq<FileOp>)
    requires Holds(text, records) && Stays(ops)
    ensures var content := ContentAfter(COLUMNS, Some(text), ops);
            content.Some? && Parse(content.value) == Some(records + Written(ops))
    ensures forall i :: 0 <= i < |Written(ops)| ==> |Written(ops)[i]| == 19
  {
    FileHolds(COLUMNS, Some(text), Some(records), ops);
    RecordsWritten(COLUMNS, records, ops);
    HoldsParses(ContentAfter(COLUMNS, Some(text), ops).value, records + Written(ops));
    forall i | 0 <= i < |Written(ops)| ensures |Written(ops)[i]| == 19 {
      var row: Row := Written(ops)[i];
    }
  }

  /** A new file reads back as one header and then the written rows. */
  lemma FileReadsBack(ops: seq<FileOp>)
    requires Stays(ops)
    ensures var content := ContentAfter(COLUMNS, AfterOp(COLUMNS, None, Reopen), ops);
            content.Some? && Parse(content.value) == Some([COLUMNS] + Written(ops))
    ensures |COLUMNS| == 19
  {
    FeedLine([], COLUMNS);
    assert [] + [COLUMNS] == [COLUMNS];
    AppendedReadsBack(Line(COLUMNS), [COLUMNS], ops);
  }

  lemma LastRecord(records: seq<seq<string>>, rows: seq<Row>)
    requires rows != []
    ensures records + rows == records + rows[..|rows| - 1] + [rows[|rows| - 1]]
  {}

  lemma {:induction false} AppendLines(text: string, records: seq<seq<string>>, rows: seq<Row>)
    requires Holds(text, records)
    ensures Holds(text + LinesOf(rows), records + rows)
  {
    if rows == [] {
      assert text + "" == text && records + rows == records;
    } else {
      var n := |rows| - 1;
      AppendLines(text, records, rows[..n]);
      AppendLine(text + LinesOf(rows[..n]), records + rows[..n], rows[n]);
      LinesGrow(text, rows[..n], rows);
      LastRecord(records, rows);
    }
  }

  // ----- when the file has its header -----

  /** No such file after the operations. */
  predicate Missing(missing: bool, ops: seq<FileOp>) {
    if ops == [] then missing
    else
      var before := Missing(missing, ops[..|ops| - 1]);
      match ops[|ops| - 1]
      case Reopen => false
      case WriteOp(_) => false
      case WriteAllOp(rows) => before && rows == []
      case Vanish => true
  }

  /** The file was headed at the start and never vanished, or the first operation with an effect since it
      was last missing was a construction. */
  predicate HeaderKept(missing: bool, headed: bool, ops: seq<FileOp>) {
    if ops == [] then headed
    else
      var before := ops[..|ops| - 1];
      match ops[|ops| - 1]
      case Reopen => HeaderKept(missing, headed, before) || Missing(missing, before)
      case Vanish => false
      case _ => HeaderKept(missing, headed, before)
  }

  predicate Headed(header: seq<string>, records: Option<seq<seq<string>>>) {
    records.Some? && records.value != [] && records.value[0] == header
  }

  /** The file can be read and starts with the header. */
  predicate ReadsHeaded(header: seq<string>, content: Option<string>) {
    content.Some? && Headed(header, Parse(content.value))
  }

  ghost predicate NoHeaderRow(header: seq<string>, ops: seq<FileOp>) {
    forall i, j :: 0 <= i < |ops| && 0 <= j < |OpRows(ops[i])| ==> OpRows(ops[i])[j] != header
  }

  lemma {:induction false} RecordsHeadedIff(header: seq<string>, records: Option<seq<seq<string>>>, ops: seq<FileOp>)
    requires NoHeaderRow(header, ops)
    ensures RecordsAfter(header, records, ops).None? <==> Missing(records.None?, ops)
    ensures Headed(header, RecordsAfter(header, records, ops))
            <==> HeaderKept(records.None?, Headed(header, records), ops)
  {
    if ops != [] {
      var before := ops[..|ops| - 1];
      RecordsHeadedIff(header, records, before);
      HeadedStep(header, RecordsAfter(header, records, before), ops[|ops| - 1]);
    }
  }

  lemma HeadedStep(header: seq<string>, records: Option<seq<seq<string>>>, op: FileOp)
    requires forall j :: 0 <= j < |OpRows(op)| ==> OpRows(op)[j] != header
    ensures Headed(header, RecordsAfterOp(header, records, op))
            <==> !op.Vanish? && (Headed(header, records) || (op.Reopen? && records.None?))
  {
    if op.WriteOp? {
      assert OpRows(op)[0] == op.row;
    } else if op.WriteAllOp? && op.rows != [] {
      assert OpRows(op)[0] == op.rows[0];
    }
  }

  /** Whatever complete records a file held before, and whatever is done to it, it reads back with the
      header first exactly when the header was kept or given by a construction. */
  lemma HeaderIff(content: Option<string>, records: Option<seq<seq<string>>>, ops: seq<FileOp>)
    requires Contains(content, records) && NoHeaderRow(COLUMNS, ops)
    ensures ReadsHeaded(COLUMNS, ContentAfter(COLUMNS, content, ops))
            <==> HeaderKept(content.None?, ReadsHeaded(COLUMNS, content), ops)
  {
    HeaderIffFor(COLUMNS, content, records, ops);
  }

  lemma {:induction false} HeaderIffFor(header: seq<string>, content: Option<string>,
                                        records: Option<seq<seq<string>>>, ops: seq<FileOp>)
    requires header != [] && Contains(content, records) && NoHeaderRow(header, ops)
    ensures ReadsHeaded(header, ContentAfter(header, content, ops))
            <==> HeaderKept(content.None?, ReadsHeaded(header, content), ops)
  {
    FileHolds(header, content, records, ops);
    RecordsHeadedIff(header, records, ops);
    ContainsParses(header, content, records);
    ContainsParses(header, ContentAfter(header, content, ops), RecordsAfter(header, records, ops));
  }

  lemma ContainsParses(header: seq<string>, content: Option<string>, records: Option<seq<seq<string>>>)
    requires Contains(content, records)
    ensures ReadsHeaded(header, content) <==> Headed(header, records)
  {
    if content.Some? {
      HoldsParses(content.value, records.value);
    }
  }

  /** No row that the program writes is the header: its first field is a time and ends with Z. */
  lemma RowIsNoHeader(r: BenchmarkResult, now: nat, num: Numerals)
    ensures RowOf(r, now, num) != COLUMNS
  {
    IsoTimestamp.CsvTimestampEnds(now);
    assert RowOf(r, now, num)[0] == IsoTimestamp.CsvTimestamp(now);
    assert COLUMNS[0] == "run_timestamp" && "run_timestamp"[|"run_timestamp"| - 1] == 'p';
  }

  /** A file that vanishes under a living writer gets its next rows without the header. */
  lemma VanishedLosesHeader(row: Row)
    ensures var content := ContentAfter(COLUMNS, None, [Reopen, Vanish, WriteOp(row)]);
            content.Some? && Parse(content.value) == Some([row])
  {
    var ops := [Reopen, Vanish, WriteOp(row)];
    assert ops[..2] == [Reopen, Vanish] && ops[..2][..1] == [Reopen] && [Reopen][..0] == [];
    assert Contains(None, None);
    FileHolds(COLUMNS, None, None, ops);
    assert RecordsAfter(COLUMNS, None, ops[..2]) == None;
    HoldsParses(ContentAfter(COLUMNS, None, ops).value, [row]);
  }

  /** An existing empty file never gets a header. */
  lemma EmptyFileLosesHeader(row: Row)
    ensures var content := ContentAfter(COLUMNS, Some(""), [Reopen, WriteOp(row)]);
            content.Some? && Parse(content.value) == Some([row])
  {
    var ops := [Reopen, WriteOp(row)];
    assert ops[..1] == [Reopen] && [Reopen][..0] == [];
    assert ContentAfter(COLUMNS, Some(""), ops[..1]) == Some("");
    AppendLine("", [], row);
    assert "" + Line(row) == Line(row) && [] + [row] == [row];
  }
}
