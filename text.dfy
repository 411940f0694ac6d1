/**
 * The two Python string operations the log record is read with:
 * `str.split(",")` and taking the first element of `readlines()`.
 */
module Text {

  import opened Wrappers

  const Comma: char := ','
  const Newline: char := '\n'

  /** Position of the first `c` in `s`. */
  function IndexOf(s: string, c: char): (i: nat)
    requires c in s
    ensures i < |s| && s[i] == c && c !in s[..i]
  {
    if s[0] == c then 0 else 1 + IndexOf(s[1..], c)
  }

  /** `s.split(",")`: the pieces between commas, at least one, none holding a comma. */
  function Split(s: string): (fields: seq<string>)
    ensures |fields| >= 1
    ensures forall i :: 0 <= i < |fields| ==> Comma !in fields[i]
    decreases |s|
  {
    if Comma !in s then [s]
    else
      var i := IndexOf(s, Comma);
      [s[..i]] + Split(s[i + 1..])
  }

  /** Gluing the pieces back together with commas gives the text that was split. */
  function Join(fields: seq<string>): string
    requires |fields| >= 1
  {
    if |fields| == 1 then fields[0] else fields[0] + [Comma] + Join(fields[1..])
  }

  /** A comma-free field followed by a comma splits off as the first piece. */
  lemma SplitField(a: string, rest: string)
    requires Comma !in a
    ensures Split(a + [Comma] + rest) == [a] + Split(rest)
  {
    var s := a + [Comma] + rest;
    assert s[|a|] == Comma && Comma !in s[..|a|] by {
      assert s[..|a|] == a;
    }
    var i := IndexOf(s, Comma);
    assert i == |a|;
    assert s[..i] == a && s[i + 1..] == rest;
  }

  /** Splitting and joining are inverse: nothing is lost by `split`. */
  lemma {:induction false} JoinSplit(s: string)
    ensures Join(Split(s)) == s
    decreases |s|
  {
    if Comma in s {
      var i := IndexOf(s, Comma);
      JoinSplit(s[i + 1..]);
      assert s == s[..i] + [Comma] + s[i + 1..];
    }
  }

  /** Joining comma-free fields and splitting again gives the fields back. */
  lemma {:induction false} SplitJoin(fields: seq<string>)
    requires |fields| >= 1
    requires forall i :: 0 <= i < |fields| ==> Comma !in fields[i]
    ensures Split(Join(fields)) == fields
    decreases |fields|
  {
    if |fields| > 1 {
      SplitJoin(fields[1..]);
      SplitField(fields[0], Join(fields[1..]));
      assert [fields[0]] + fields[1..] == fields;
    }
  }

  lemma {:induction false} JoinAppend(a: seq<string>, b: seq<string>)
    requires |a| >= 1 && |b| >= 1
    ensures Join(a + b) == Join(a) + [Comma] + Join(b)
    decreases |a|
  {
    if |a| > 1 {
      JoinAppend(a[1..], b);
      assert (a + b)[1..] == a[1..] + b;
    } else {
      assert (a + b)[1..] == b;
    }
  }

  /** The number of commas in `s`. */
  function CommaCount(s: string): nat
  {
    if s == [] then 0 else (if s[0] == Comma then 1 else 0) + CommaCount(s[1..])
  }

  lemma {:induction false} CommaCountAppend(a: string, b: string)
    ensures CommaCount(a + b) == CommaCount(a) + CommaCount(b)
    decreases |a|
  {
    if a != [] {
      CommaCountAppend(a[1..], b);
      assert (a + b)[0] == a[0] && (a + b)[1..] == a[1..] + b;
    } else {
      assert a + b == b;
    }
  }

  lemma {:induction false} CommaCountZero(s: string)
    ensures CommaCount(s) == 0 <==> Comma !in s
    decreases |s|
  {
    if s != [] {
      CommaCountZero(s[1..]);
      assert s == [s[0]] + s[1..];
    }
  }

  /** `split(",")` yields one more piece than there are commas. */
  lemma {:induction false} SplitCount(s: string)
    ensures |Split(s)| == CommaCount(s) + 1
    decreases |s|
  {
    CommaCountZero(s);
    if Comma in s {
      var i := IndexOf(s, Comma);
      SplitCount(s[i + 1..]);
      CommaCountZero(s[..i]);
      CommaCountAppend(s[..i], [Comma] + s[i + 1..]);
      CommaCountAppend([Comma], s[i + 1..]);
      assert s == s[..i] + ([Comma] + s[i + 1..]);
    }
  }

  /** A newline, if any, is the last character. */
  predicate NewlineOnlyAtEnd(s: string)
  {
    forall i :: 0 <= i < |s| - 1 ==> s[i] != Newline
  }

  /**
   * `readlines()[0]`: the text up to and including the first newline, or the
   * whole text when it has none; `None` for an empty file, where Python raises
   * `IndexError`.
   */
  function FirstLine(content: string): (line: Option<string>)
    ensures line.None? <==> content == []
    ensures line.Some? ==> line.value != [] && line.value <= content && NewlineOnlyAtEnd(line.value)
    ensures line.Some? && Newline in content ==> line.value[|line.value| - 1] == Newline
    ensures line.Some? && Newline !in content ==> line.value == content
  {
    if content == [] then None
    else if Newline in content then Some(content[..IndexOf(content, Newline) + 1])
    else Some(content)
  }

  /** A text whose only newline, if any, is its last character is its own first line. */
  lemma FirstLineOfOneLine(s: string)
    requires s != [] && NewlineOnlyAtEnd(s)
    ensures FirstLine(s) == Some(s)
  {
    if Newline in s {
      var i := IndexOf(s, Newline);
      assert i == |s| - 1;
      assert s[..i + 1] == s;
    }
  }
}
