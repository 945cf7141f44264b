/** The interaction logger: one CSV record per request, five double-quoted
    fields (timestamp, site, ip, input, output) separated by commas and
    ended by a newline. Inside ip, input and output every `"` becomes `'`;
    timestamp and site are written as they are. The escaping is lossy and
    is not CSV's doubled-quote escaping. */
module Logger {
  import opened Results
  import opened Text

  /** The `"` that delimits fields. */
  const Quote: char := '"'

  /** What a `"` inside an escaped field is replaced by. */
  const QuoteSubstitute: char := '\''

  /** `field.replace(/"/g, "'")`. */
  function EscapeField(field: string): (r: string)
    ensures |r| == |field|
    ensures Quote !in r
    ensures forall i :: 0 <= i < |field| && field[i] != Quote ==> r[i] == field[i]
    ensures forall i :: 0 <= i < |field| && field[i] == Quote ==> r[i] == QuoteSubstitute
  {
    ReplaceCharRemoves(field, Quote, QuoteSubstitute);
    ReplaceChar(field, Quote, QuoteSubstitute)
  }

  /** Escaping an already escaped field changes nothing. */
  lemma EscapeFieldIdempotent(field: string)
    ensures EscapeField(EscapeField(field)) == EscapeField(field)
  {
    ReplaceCharIdempotent(field, Quote, QuoteSubstitute);
  }

  /** The escaping loses information: two different inputs give one field. */
  lemma EscapeFieldIsLossy()
    ensures EscapeField("\"a\"") == EscapeField("'a'")
  {
    assert EscapeField("\"a\"") == "'a'";
  }

  /** Quote-delimited fields separated by `,` and ended by a newline. */
  function Record(fields: seq<string>): (line: string)
    requires |fields| >= 1
    ensures |line| >= 3 && line[0] == Quote && line[|line| - 1] == '\n'
  {
    "\"" + fields[0] + (if |fields| == 1 then "\"\n" else "\"," + Record(fields[1..]))
  }

  /** Reads back a record line into its fields; `None` when the line is not
      a sequence of quote-delimited fields separated by `,` and ended by a
      newline. */
  function ParseRecord(line: string): (r: Option<seq<string>>)
    ensures r.Some? ==> |r.value| >= 1
    ensures r.Some? ==> forall k :: 0 <= k < |r.value| ==> Quote !in r.value[k]
    decreases |line|
  {
    if |line| == 0 || line[0] != Quote then None
    else
      var body := line[1..];
      var n := Span(body, Quote);
      if n == |body| then None
      else
        var field := body[..n];
        var rest := body[n + 1..];
        if rest == "\n" then Some([field])
        else if |rest| >= 1 && rest[0] == ',' then
          match ParseRecord(rest[1..])
          case Some(more) => Some([field] + more)
          case None => None
        else None
  }

  /** Reading one quote-free field off the front of a line. */
  lemma ParseFirstField(field: string, tail: string)
    requires Quote !in field
    ensures ParseRecord("\"" + field + ([Quote] + tail))
            == if tail == "\n" then Some([field])
               else if |tail| >= 1 && tail[0] == ',' then
                 match ParseRecord(tail[1..])
                 case Some(more) => Some([field] + more)
                 case None => None
               else None
  {
    var line := "\"" + field + ([Quote] + tail);
    var body := line[1..];
    assert body == field + [Quote] + tail;
    SpanAfterFreePrefix(field, Quote, tail);
    assert body[..|field|] == field;
    assert body[|field| + 1..] == tail;
  }

  /** A record is its first field between quotes, followed by a newline
      or by `,` and the record of the remaining fields. */
  lemma RecordFirstField(fields: seq<string>)
    requires |fields| >= 1
    ensures Record(fields)
            == "\"" + fields[0] + ([Quote] + (if |fields| == 1 then "\n" else "," + Record(fields[1..])))
  {
  }

  /** Reading a record back gives the fields that were written, as long as
      no field holds a quote. */
  lemma {:induction false} ParseRecordOfRecord(fields: seq<string>)
    requires |fields| >= 1
    requires forall k :: 0 <= k < |fields| ==> Quote !in fields[k]
    ensures ParseRecord(Record(fields)) == Some(fields)
    decreases |fields|
  {
    RecordFirstField(fields);
    if |fields| == 1 {
      ParseFirstField(fields[0], "\n");
      assert [fields[0]] == fields;
    } else {
      var rest := Record(fields[1..]);
      ParseFirstField(fields[0], "," + rest);
      assert ("," + rest)[1..] == rest;
      ParseRecordOfRecord(fields[1..]);
      assert [fields[0]] + fields[1..] == fields;
    }
  }

  /** One interaction as the logger receives it. */
  datatype LogRecord = LogRecord(timestamp: string, site: string, ip: string, input: string, output: string)

  /** The five fields a log line carries, in order: timestamp and site as
      they are, ip, input and output escaped. */
  function LogFields(r: LogRecord): (fs: seq<string>)
    ensures |fs| == 5 && fs[0] == r.timestamp && fs[1] == r.site
    ensures fs[2] == EscapeField(r.ip) && fs[3] == EscapeField(r.input) && fs[4] == EscapeField(r.output)
    ensures forall k :: 2 <= k < 5 ==> Quote !in fs[k]
    ensures Quote !in r.timestamp && Quote !in r.site ==> forall k :: 0 <= k < 5 ==> Quote !in fs[k]
  {
    [r.timestamp, r.site, EscapeField(r.ip), EscapeField(r.input), EscapeField(r.output)]
  }

  /** The record of the five fields is the line the logger writes: each
      field between double quotes, `,` between fields, a newline at the end. */
  lemma LogFieldsRecord(r: LogRecord)
    ensures Record(LogFields(r))
            == "\"" + r.timestamp + "\","
               + ("\"" + r.site + "\","
               + ("\"" + EscapeField(r.ip) + "\","
               + ("\"" + EscapeField(r.input) + "\","
               + ("\"" + EscapeField(r.output) + "\"\n"))))
  {
    var e1, e2, e3 := EscapeField(r.ip), EscapeField(r.input), EscapeField(r.output);
    var fs := LogFields(r);
    assert fs[1..][1..][1..][1..] == [e3];
    var r3 := "\"" + e3 + "\"\n";
    assert Record([e3]) == r3;
    assert fs[1..][1..][1..] == [e2, e3];
    var r2 := "\"" + e2 + "\"," + r3;
    assert Record([e2, e3]) == r2;
    assert fs[1..][1..] == [e1, e2, e3];
    var r1 := "\"" + e1 + "\"," + r2;
    assert Record([e1, e2, e3]) == r1;
    assert fs[1..] == [r.site, e1, e2, e3];
    var r0 := "\"" + r.site + "\"," + r1;
    assert Record([r.site, e1, e2, e3]) == r0;
    assert Record(fs) == "\"" + r.timestamp + "\"," + r0;
  }

  /** The line written for one interaction. It is exactly the fields plus
      ten quotes, four commas and a newline, and it ends in a quote and a
      newline. */
  function LogLine(r: LogRecord): (line: string)
    ensures |line| == |r.timestamp| + |r.site| + |r.ip| + |r.input| + |r.output| + 15
    ensures line[0] == Quote && line[|line| - 2] == Quote && line[|line| - 1] == '\n'
  {
    LogFieldsRecord(r);
    Record(LogFields(r))
  }

  /** With a quote-free timestamp and site, a log line reads back as exactly
      its five fields, the last three escaped. */
  lemma LogLineRoundTrip(r: LogRecord)
    requires Quote !in r.timestamp && Quote !in r.site
    ensures ParseRecord(LogLine(r))
            == Some([r.timestamp, r.site, EscapeField(r.ip), EscapeField(r.input), EscapeField(r.output)])
  {
    ParseRecordOfRecord(LogFields(r));
  }

  /** A record of quote-free fields holds exactly two quotes per field. */
  lemma {:induction false} RecordQuoteCount(fields: seq<string>)
    requires |fields| >= 1
    requires forall k :: 0 <= k < |fields| ==> Quote !in fields[k]
    ensures Count(Quote, Record(fields)) == 2 * |fields|
    decreases |fields|
  {
    var tail := if |fields| == 1 then "\"\n" else "\"," + Record(fields[1..]);
    CountConcat(Quote, "\"" + fields[0], tail);
    CountConcat(Quote, "\"", fields[0]);
    if |fields| > 1 {
      RecordQuoteCount(fields[1..]);
      CountConcat(Quote, "\",", Record(fields[1..]));
    }
  }

  /** With a quote-free timestamp and site, a log line holds exactly ten
      quotes: the delimiters of its five fields and nothing else. */
  lemma LogLineQuoteCount(r: LogRecord)
    requires Quote !in r.timestamp && Quote !in r.site
    ensures Count(Quote, LogLine(r)) == 10
  {
    RecordQuoteCount(LogFields(r));
  }
}
