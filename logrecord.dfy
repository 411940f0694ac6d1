/**
 * The one-line log `log.txt`: `dateUpdated,messageSent,dateSent`, written
 * with `"%s,%s,%s"` and read back with `readlines()[0].split(",")`.
 * Fields are kept as the text the file holds; dates are parsed only where
 * the throttle compares them.
 */
module LogRecord {

  import opened Wrappers
  import opened Text

  /** The three fields of the log line, as text: last update, sent flag, date sent. */
  datatype Record = Record(updated: string, flag: string, sent: string)

  /**
   * Ways a run stops with an uncaught Python exception: the log file is absent
   * where it is opened for reading only, it is empty or its first line has
   * fewer than three fields (`IndexError`), a date does not parse
   * (`ValueError` from `strptime`), or the forecast list is empty
   * (`IndexError` on `data['list'][-1]`).
   */
  datatype Fault = LogMissing | LogEmpty | FieldMissing | BadDate | NoForecast

  /** `"%s,%s,%s" % (updated, flag, sent)`. */
  function Format(r: Record): (s: string)
    ensures |s| == |r.updated| + |r.flag| + |r.sent| + 2
  {
    r.updated + [Comma] + r.flag + [Comma] + r.sent
  }

  /**
   * `readlines()[0].split(",")` and fields 0, 1 and 2. The record is the
   * first three comma-separated pieces of the first line: what follows the
   * third piece, and every later line, is ignored. A first line with fewer
   * than two commas raises `IndexError`.
   */
  function ParseLog(content: string): (r: Result<Record, Fault>)
    ensures r == Err(LogEmpty) <==> content == []
    ensures r == Err(FieldMissing) <==> content != [] && CommaCount(FirstLine(content).value) < 2
    ensures r.Err? ==> r.error == LogEmpty || r.error == FieldMissing
    ensures r.Ok? ==> Comma !in r.value.updated && Comma !in r.value.flag && Comma !in r.value.sent
    ensures r.Ok? ==>
      var written := Format(r.value);
      var line := FirstLine(content).value;
      written <= line && (|written| == |line| || line[|written|] == Comma)
  {
    match FirstLine(content)
    case None => Err(LogEmpty)
    case Some(line) =>
      var fields := Split(line);
      SplitCount(line);
      if |fields| < 3 then Err(FieldMissing)
      else
        RecordIsLinePrefix(line);
        Ok(Record(fields[0], fields[1], fields[2]))
  }

  /** The first piece of a joined text begins it, up to a comma or the end. */
  lemma JoinBeginsWithHead(fields: seq<string>)
    requires |fields| >= 1
    ensures var head := fields[0];
      head <= Join(fields) && (|head| == |Join(fields)| || Join(fields)[|head|] == Comma)
  {
  }

  lemma WrittenBeginsLine(a: string, b: string, c: string, tail: string)
    requires c <= tail && (|c| == |tail| || tail[|c|] == Comma)
    ensures var written := Format(Record(a, b, c));
      var line := a + [Comma] + (b + [Comma] + tail);
      written <= line && (|written| == |line| || line[|written|] == Comma)
  {
    var line := a + [Comma] + (b + [Comma] + tail);
    assert line == Format(Record(a, b, c)) + tail[|c|..];
  }

  /** The first three pieces of a line, written back with commas, begin the line up to a comma or its end. */
  lemma RecordIsLinePrefix(line: string)
    requires |Split(line)| >= 3
    ensures var fields := Split(line);
      var written := Format(Record(fields[0], fields[1], fields[2]));
      written <= line && (|written| == |line| || line[|written|] == Comma)
  {
    var fields := Split(line);
    JoinSplit(line);
    assert fields[1..][1..] == fields[2..];
    assert line == fields[0] + [Comma] + (fields[1] + [Comma] + Join(fields[2..]));
    JoinBeginsWithHead(fields[2..]);
    WrittenBeginsLine(fields[0], fields[1], fields[2], Join(fields[2..]));
  }

  /**
   * Fields that survive a write and a read unchanged: no commas, and a newline
   * at most as the very last character of the last field.
   */
  predicate Storable(r: Record)
  {
    Comma !in r.updated && Comma !in r.flag && Comma !in r.sent
    && Newline !in r.updated && Newline !in r.flag && NewlineOnlyAtEnd(r.sent)
  }

  lemma NewlineOnlyAtEndAppend(a: string, b: string)
    requires Newline !in a && NewlineOnlyAtEnd(b)
    ensures NewlineOnlyAtEnd(a + b)
  {
  }

  /** The comma-separated line splits back into its three fields. */
  lemma SplitFormat(r: Record)
    requires Comma !in r.updated && Comma !in r.flag && Comma !in r.sent
    ensures Split(Format(r)) == [r.updated, r.flag, r.sent]
  {
    var fields := [r.updated, r.flag, r.sent];
    assert fields[1..] == [r.flag, r.sent] && fields[1..][1..] == [r.sent];
    assert Join(fields[1..]) == r.flag + [Comma] + r.sent;
    assert Join(fields) == r.updated + [Comma] + (r.flag + [Comma] + r.sent);
    assert Join(fields) == Format(r);
    SplitJoin(fields);
  }

  /** Writing a record and reading it back gives the same three fields. */
  lemma FormatParse(r: Record)
    requires Storable(r)
    ensures ParseLog(Format(r)) == Ok(r)
  {
    var s := Format(r);
    var head := r.updated + [Comma] + r.flag + [Comma];
    assert Newline !in head;
    NewlineOnlyAtEndAppend(head, r.sent);
    assert s == head + r.sent;
    FirstLineOfOneLine(s);
    SplitFormat(r);
  }

  lemma NewlineOnlyAtEndSplit(a: string, b: string)
    requires NewlineOnlyAtEnd(a + [Comma] + b)
    ensures Newline !in a && NewlineOnlyAtEnd(b)
  {
    var s := a + [Comma] + b;
    forall j | 0 <= j < |a| ensures a[j] != Newline {
      assert a[j] == s[j];
    }
    forall j | 0 <= j < |b| - 1 ensures b[j] != Newline {
      assert b[j] == s[|a| + 1 + j];
    }
  }

  lemma SplitExtra(r: Record, rest: string)
    requires Comma !in r.updated && Comma !in r.flag && Comma !in r.sent
    ensures Split(Format(r) + [Comma] + rest) == [r.updated, r.flag, r.sent] + Split(rest)
  {
    var head := [r.updated, r.flag, r.sent];
    var fields := head + Split(rest);
    SplitFormat(r);
    JoinSplit(Format(r));
    JoinSplit(rest);
    JoinAppend(head, Split(rest));
    assert forall i :: 0 <= i < |fields| ==> Comma !in fields[i];
    SplitJoin(fields);
  }

  /** Fields after the third are ignored: the record read is the first three. */
  lemma ExtraFieldsIgnored(r: Record, rest: string)
    requires Storable(r) && Newline !in r.sent && NewlineOnlyAtEnd(rest)
    ensures ParseLog(Format(r) + [Comma] + rest) == Ok(r)
  {
    var s := Format(r) + [Comma] + rest;
    var head := r.updated + [Comma] + r.flag + [Comma] + r.sent + [Comma];
    assert Newline !in head;
    assert s == head + rest;
    NewlineOnlyAtEndAppend(head, rest);
    FirstLineOfOneLine(s);
    SplitExtra(r, rest);
  }

  /** Lines after the first are ignored. */
  lemma LaterLinesIgnored(line: string, more: string)
    requires line != [] && NewlineOnlyAtEnd(line) && line[|line| - 1] == Newline
    ensures ParseLog(line + more) == ParseLog(line)
  {
    var s := line + more;
    var i := IndexOf(s, Newline);
    assert s[|line| - 1] == Newline;
    assert i == |line| - 1;
    assert s[..i + 1] == line;
    FirstLineOfOneLine(line);
  }

  /** Every record read from a file can be written back unchanged. */
  lemma ParsedIsStorable(content: string, r: Record)
    requires ParseLog(content) == Ok(r)
    ensures Storable(r)
  {
    var line := FirstLine(content).value;
    var fields := Split(line);
    JoinSplit(line);
    var tail1 := Join(fields[1..]);
    var tail2 := Join(fields[2..]);
    assert fields[1..][1..] == fields[2..];
    assert line == r.updated + [Comma] + tail1;
    assert tail1 == r.flag + [Comma] + tail2;
    NewlineOnlyAtEndSplit(r.updated, tail1);
    NewlineOnlyAtEndSplit(r.flag, tail2);
    if |fields| > 3 {
      assert tail2 == r.sent + [Comma] + Join(fields[3..]) by {
        assert fields[2..][1..] == fields[3..];
      }
      NewlineOnlyAtEndSplit(r.sent, Join(fields[3..]));
    }
    assert Comma !in fields[0] && Comma !in fields[1] && Comma !in fields[2];
  }
}
