/** The CSV dialect of the report export: the writer's escaping and joining, and an
    independent reader for it (section 2 of RFC 4180 with LF record ends, strict about
    quotes: a quote may appear only in a quoted field). */
module CsvFormat {
  import opened Common

  const QUOTE: char := '\"'

  /** No comma, quote or line feed. */
  predicate Plain(s: string) {
    forall c <- s :: c != ',' && c != QUOTE && c != '\n'
  }

  type PlainText = s: string | Plain(s)

  // ---------------------------------------------------------------- writer

  function Doubled(c: char): string {
    if c == QUOTE then [QUOTE, QUOTE] else [c]
  }

  /** Every quote of the text, doubled. */
  function DoubleQuotes(s: string): (r: string)
    ensures |r| >= |s|
  {
    if s == "" then ""
    else Doubled(s[0]) + DoubleQuotes(s[1..])
  }

  function Escape(s: string): string {
    if s == "" then ""
    else if ',' in s || QUOTE in s || '\n' in s then [QUOTE] + DoubleQuotes(s) + [QUOTE]
    else s
  }

  function Join(parts: seq<string>, sep: char): string {
    if parts == [] then ""
    else if |parts| == 1 then parts[0]
    else parts[0] + [sep] + Join(parts[1..], sep)
  }

  function Repeat(c: char, n: nat): (r: string)
    ensures |r| == n && forall x <- r :: x == c
  {
    if n == 0 then "" else [c] + Repeat(c, n - 1)
  }

  function EscapeAll(fields: seq<string>): (r: seq<string>)
    ensures |r| == |fields|
    ensures forall i :: 0 <= i < |r| ==> r[i] == Escape(fields[i])
  {
    seq(|fields|, i requires 0 <= i < |fields| => Escape(fields[i]))
  }

  function WriteRecord(fields: seq<string>): string {
    Join(EscapeAll(fields), ',')
  }

  function WriteRecords(table: seq<seq<string>>): (r: seq<string>)
    ensures |r| == |table|
    ensures forall i :: 0 <= i < |r| ==> r[i] == WriteRecord(table[i])
  {
    seq(|table|, i requires 0 <= i < |table| => WriteRecord(table[i]))
  }

  /** A whole table with every field escaped. */
  function Write(table: seq<seq<string>>): string {
    Join(WriteRecords(table), '\n')
  }

  // ---------------------------------------------------------------- reader

  /** What may follow a field: the end, a comma or a line feed. */
  predicate AtFieldEnd(s: string) {
    s == "" || s[0] == ',' || s[0] == '\n'
  }

  datatype Parsed<+T> = Bad | Good(value: T, rest: string)

  function ReadBare(s: string): (r: Parsed<string>)
    ensures r.Good? ==> Plain(r.value) && s == r.value + r.rest && AtFieldEnd(r.rest)
  {
    if AtFieldEnd(s) then Good("", s)
    else if s[0] == QUOTE then Bad
    else
      var tail := ReadBare(s[1..]);
      if tail.Bad? then Bad else Good([s[0]] + tail.value, tail.rest)
  }

  /** Reads up to the closing quote; s starts after the opening one. */
  function ReadQuoted(s: string): (r: Parsed<string>)
    ensures r.Good? ==> |s| == |DoubleQuotes(r.value)| + 1 + |r.rest| && AtFieldEnd(r.rest)
  {
    if s == "" then Bad
    else if s[0] == QUOTE then
      if |s| > 1 && s[1] == QUOTE then
        var tail := ReadQuoted(s[2..]);
        if tail.Bad? then Bad else Good([QUOTE] + tail.value, tail.rest)
      else if AtFieldEnd(s[1..]) then Good("", s[1..])
      else Bad
    else
      var tail := ReadQuoted(s[1..]);
      if tail.Bad? then Bad else Good([s[0]] + tail.value, tail.rest)
  }

  function ReadField(s: string): (r: Parsed<string>)
    ensures r.Good? ==> |Escape(r.value)| + |r.rest| <= |s| && AtFieldEnd(r.rest)
  {
    if s != "" && s[0] == QUOTE then ReadQuoted(s[1..]) else ReadBare(s)
  }

  function ReadRecord(s: string): (r: Parsed<seq<string>>)
    ensures r.Good? ==> r.value != [] && |r.rest| <= |s| && (r.rest == "" || r.rest[0] == '\n')
    decreases |s|
  {
    var field := ReadField(s);
    if field.Bad? then Bad
    else if field.rest == "" || field.rest[0] == '\n' then Good([field.value], field.rest)
    else
      var tail := ReadRecord(field.rest[1..]);
      if tail.Bad? then Bad else Good([field.value] + tail.value, tail.rest)
  }

  /** All the records of s; a line feed at the very end closes the last record. */
  function Read(s: string): Option<seq<seq<string>>>
    decreases |s|
  {
    var first := ReadRecord(s);
    if first.Bad? then None
    else if |first.rest| <= 1 then Some([first.value])
    else
      match Read(first.rest[1..])
      case None => None
      case Some(others) => Some([first.value] + others)
  }

  // ---------------------------------------------------------------- writing, then reading

  lemma {:induction false} BareRoundTrip(s: string, rest: string)
    requires Plain(s) && AtFieldEnd(rest)
    ensures ReadBare(s + rest) == Good(s, rest)
  {
    if s == "" {
      assert s + rest == rest;
    } else {
      assert s[0] in s && forall c <- s[1..] :: c in s;
      assert (s + rest)[1..] == s[1..] + rest;
      BareRoundTrip(s[1..], rest);
      assert s == [s[0]] + s[1..];
    }
  }

  lemma ReadQuotedStep(c: char, tail: string, value: string, rest: string)
    requires ReadQuoted(tail) == Good(value, rest)
    ensures ReadQuoted(Doubled(c) + tail) == Good([c] + value, rest)
  {
    assert (Doubled(c) + tail)[|Doubled(c)|..] == tail;
  }

  lemma ReadQuotedEnd(rest: string)
    requires AtFieldEnd(rest)
    ensures ReadQuoted([QUOTE] + rest) == Good("", rest)
  {
    assert ([QUOTE] + rest)[1..] == rest;
  }

  lemma {:induction false} QuotedRoundTrip(s: string, rest: string)
    requires AtFieldEnd(rest)
    ensures ReadQuoted(DoubleQuotes(s) + ([QUOTE] + rest)) == Good(s, rest)
  {
    if s == "" {
      assert DoubleQuotes(s) + ([QUOTE] + rest) == [QUOTE] + rest;
      ReadQuotedEnd(rest);
    } else {
      var c, s' := s[0], s[1..];
      QuotedRoundTrip(s', rest);
      ReadQuotedStep(c, DoubleQuotes(s') + ([QUOTE] + rest), s', rest);
      Assoc(Doubled(c), DoubleQuotes(s'), [QUOTE] + rest);
      assert s == [c] + s';
    }
  }

  /** Whatever the field holds, the reader gets it back from its escaped form. */
  lemma FieldRoundTrip(s: string, rest: string)
    requires AtFieldEnd(rest)
    ensures ReadField(Escape(s) + rest) == Good(s, rest)
  {
    if ',' in s || QUOTE in s || '\n' in s {
      assert Escape(s) + rest == [QUOTE] + (DoubleQuotes(s) + ([QUOTE] + rest));
      QuotedRoundTrip(s, rest);
    } else {
      BareRoundTrip(s, rest);
      assert Escape(s) == s;
      assert s != "" ==> (s + rest)[0] == s[0] && s[0] in s;
    }
  }

  lemma WriteRecordSplits(fields: seq<string>)
    requires |fields| > 1
    ensures WriteRecord(fields) == Escape(fields[0]) + ([','] + WriteRecord(fields[1..]))
  {
    assert EscapeAll(fields)[1..] == EscapeAll(fields[1..]);
  }

  lemma ReadRecordStep(s: string, value: string, more: string, values: seq<string>, rest: string)
    requires ReadField(s) == Good(value, [','] + more)
    requires ReadRecord(more) == Good(values, rest)
    ensures ReadRecord(s) == Good([value] + values, rest)
  {
    assert ([','] + more)[1..] == more;
  }

  lemma MoreFieldsRoundTrip(field: string, values: seq<string>, rest: string)
    requires values != [] && ReadRecord(WriteRecord(values) + rest) == Good(values, rest)
    ensures ReadRecord(WriteRecord([field] + values) + rest) == Good([field] + values, rest)
  {
    var tail := WriteRecord(values);
    WriteRecordSplits([field] + values);
    assert ([field] + values)[1..] == values;
    Assoc(Escape(field), [','] + tail, rest);
    Assoc([','], tail, rest);
    FieldRoundTrip(field, [','] + (tail + rest));
    ReadRecordStep(WriteRecord([field] + values) + rest, field, tail + rest, values, rest);
  }

  lemma OneFieldRoundTrip(field: string, rest: string)
    requires rest == "" || rest[0] == '\n'
    ensures ReadRecord(WriteRecord([field]) + rest) == Good([field], rest)
  {
    FieldRoundTrip(field, rest);
    assert WriteRecord([field]) == Escape(field);
  }

  lemma {:induction false} RecordRoundTrip(fields: seq<string>, rest: string)
    requires fields != [] && (rest == "" || rest[0] == '\n')
    ensures ReadRecord(WriteRecord(fields) + rest) == Good(fields, rest)
  {
    if |fields| == 1 {
      OneFieldRoundTrip(fields[0], rest);
      assert fields == [fields[0]];
    } else {
      RecordRoundTrip(fields[1..], rest);
      MoreFieldsRoundTrip(fields[0], fields[1..], rest);
      assert fields == [fields[0]] + fields[1..];
    }
  }

  lemma ReadStep(s: string, record: seq<string>, more: string, others: seq<seq<string>>)
    requires ReadRecord(s) == Good(record, ['\n'] + more)
    requires more != "" && Read(more) == Some(others)
    ensures Read(s) == Some([record] + others)
  {
    assert (['\n'] + more)[1..] == more;
  }

  lemma ReadLast(s: string, record: seq<string>)
    requires ReadRecord(s) == Good(record, "")
    ensures Read(s) == Some([record])
  {
  }

  lemma OneRecordRoundTrip(record: seq<string>)
    requires record != []
    ensures Read(WriteRecord(record)) == Some([record])
  {
    RecordRoundTrip(record, "");
    assert WriteRecord(record) + "" == WriteRecord(record);
    ReadLast(WriteRecord(record), record);
  }

  lemma MoreRecordsRoundTrip(record: seq<string>, more: string, others: seq<seq<string>>)
    requires record != [] && more != "" && Read(more) == Some(others)
    ensures Read(WriteRecord(record) + (['\n'] + more)) == Some([record] + others)
  {
    RecordRoundTrip(record, ['\n'] + more);
    ReadStep(WriteRecord(record) + (['\n'] + more), record, more, others);
  }

  lemma MoreTableRoundTrip(record: seq<string>, others: seq<seq<string>>)
    requires |record| >= 2 && others != []
    requires Write(others) != "" && Read(Write(others)) == Some(others)
    ensures Write([record] + others) != "" && Read(Write([record] + others)) == Some([record] + others)
  {
    WriteSplits([record] + others);
    assert ([record] + others)[1..] == others;
    MoreRecordsRoundTrip(record, Write(others), others);
  }

  /** Every table whose records have at least two fields is read back exactly. */
  lemma {:induction false} TableRoundTrip(table: seq<seq<string>>)
    requires table != [] && forall i :: 0 <= i < |table| ==> |table[i]| >= 2
    ensures Write(table) != "" && Read(Write(table)) == Some(table)
  {
    if |table| == 1 {
      RecordNotEmpty(table[0]);
      OneRecordRoundTrip(table[0]);
      assert table == [table[0]] && Write(table) == WriteRecord(table[0]);
    } else {
      TableRoundTrip(table[1..]);
      MoreTableRoundTrip(table[0], table[1..]);
      assert table == [table[0]] + table[1..];
    }
  }

  lemma WriteSplits(table: seq<seq<string>>)
    requires |table| > 1
    ensures Write(table) == WriteRecord(table[0]) + (['\n'] + Write(table[1..]))
  {
    assert WriteRecords(table)[1..] == WriteRecords(table[1..]);
  }

  lemma RecordNotEmpty(fields: seq<string>)
    requires |fields| >= 2
    ensures WriteRecord(fields) != ""
  {
    var parts := EscapeAll(fields);
    assert WriteRecord(fields) == parts[0] + [','] + Join(parts[1..], ',');
  }

  // ---------------------------------------------------------------- escaping is shortest

  lemma {:induction false} RecordLength(s: string)
    requires ReadRecord(s).Good?
    ensures |WriteRecord(ReadRecord(s).value)| + |ReadRecord(s).rest| <= |s|
    decreases |s|
  {
    var field, r := ReadField(s), ReadRecord(s);
    if field.rest == "" || field.rest[0] == '\n' {
      assert r.value == [field.value];
      assert WriteRecord(r.value) == Escape(field.value);
    } else {
      var tail := ReadRecord(field.rest[1..]);
      RecordLength(field.rest[1..]);
      assert r.value[1..] == tail.value;
      assert EscapeAll(r.value)[1..] == EscapeAll(tail.value);
      assert WriteRecord(r.value) == Escape(field.value) + [','] + WriteRecord(tail.value);
    }
  }

  /** No text that reads as a table is shorter than the escaped form of that table. */
  lemma {:induction false} EscapedFormIsShortest(s: string)
    requires Read(s).Some?
    ensures |Write(Read(s).value)| <= |s|
    decreases |s|
  {
    var first, t := ReadRecord(s), Read(s).value;
    RecordLength(s);
    if |first.rest| <= 1 {
      assert Write(t) == WriteRecord(first.value);
    } else {
      EscapedFormIsShortest(first.rest[1..]);
      var others := Read(first.rest[1..]).value;
      assert t[1..] == others;
      assert WriteRecords(t)[1..] == WriteRecords(others);
      assert Write(t) == WriteRecord(first.value) + ['\n'] + Write(others);
    }
  }

  lemma {:induction false} JoinLonger(a: seq<string>, b: seq<string>, sep: char)
    requires |a| == |b|
    requires forall i :: 0 <= i < |a| ==> |a[i]| <= |b[i]|
    ensures |Join(a, sep)| <= |Join(b, sep)|
    ensures (exists i :: 0 <= i < |a| && |a[i]| < |b[i]|) ==> |Join(a, sep)| < |Join(b, sep)|
  {
    if |a| <= 1 {
    } else {
      JoinLonger(a[1..], b[1..], sep);
      if i :| 0 <= i < |a| && |a[i]| < |b[i]| {
        assert i > 0 ==> |a[1..][i - 1]| < |b[1..][i - 1]|;
      }
    }
  }

  lemma EscapeLonger(s: string)
    ensures |s| <= |Escape(s)|
    ensures |s| == |Escape(s)| <==> Plain(s)
    ensures Plain(s) ==> Escape(s) == s
  {
  }
}
