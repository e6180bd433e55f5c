/**
 * The line parser of the CSV loader. Each line is split on every comma; a
 * line with fewer than two fields is skipped; the first two fields are
 * trimmed and stripped of every '"'; anything after the second field is
 * dropped; a record is kept only when both fields are non-empty.
 */
module CsvInput {
  import opened Options
  import opened Records

  /** Splits on every occurrence of `sep`, keeping empty fields (also trailing ones). */
  function Split(s: string, sep: char): (parts: seq<string>)
    ensures |parts| >= 1
    ensures forall k :: 0 <= k < |parts| ==> sep !in parts[k]
    decreases |s|
  {
    if |s| == 0 then [""]
    else
      var rest := Split(s[1..], sep);
      if s[0] == sep then [""] + rest
      else [[s[0]] + rest[0]] + rest[1..]
  }

  /** Glues fields back together with `sep` between them. */
  function Join(parts: seq<string>, sep: char): string
    requires |parts| >= 1
    decreases |parts|
  {
    if |parts| == 1 then parts[0] else parts[0] + [sep] + Join(parts[1..], sep)
  }

  /** Splitting loses nothing: joining the fields gives back the line. */
  lemma {:induction false} SplitJoin(s: string, sep: char)
    ensures Join(Split(s, sep), sep) == s
    decreases |s|
  {
    if |s| > 0 {
      var rest := Split(s[1..], sep);
      SplitJoin(s[1..], sep);
      if s[0] == sep {
        assert Split(s, sep)[1..] == rest;
      } else {
        var parts := Split(s, sep);
        assert parts[1..] == rest[1..];
        if |rest| == 1 {
          assert Join(parts, sep) == [s[0]] + rest[0];
        } else {
          assert rest[1..][1..] == rest[2..];
          assert Join(rest, sep) == rest[0] + [sep] + Join(rest[1..], sep);
          assert Join(parts, sep) == [s[0]] + rest[0] + [sep] + Join(rest[1..], sep);
        }
        assert s == [s[0]] + s[1..];
      }
    }
  }

  /** A text without the separator is a single field. */
  lemma {:induction false} SplitNoSeparator(s: string, sep: char)
    requires sep !in s
    ensures Split(s, sep) == [s]
    decreases |s|
  {
    if |s| > 0 {
      assert sep !in s[1..];
      SplitNoSeparator(s[1..], sep);
      assert s == [s[0]] + s[1..];
    }
  }

  /** The first field ends at the first separator. */
  lemma {:induction false} SplitFirst(a: string, sep: char, b: string)
    requires sep !in a
    ensures Split(a + [sep] + b, sep) == [a] + Split(b, sep)
    decreases |a|
  {
    if |a| == 0 {
      assert a + [sep] + b == [sep] + b;
      assert ([sep] + b)[1..] == b;
    } else {
      var s := a + [sep] + b;
      assert s[0] == a[0];
      assert s[1..] == a[1..] + [sep] + b;
      assert sep !in a[1..];
      SplitFirst(a[1..], sep, b);
      assert [a[0]] + a[1..] == a;
    }
  }

  /** A line splits into at least two fields exactly when it holds a comma. */
  lemma {:induction false} SplitHasTwoFields(s: string, sep: char)
    ensures |Split(s, sep)| >= 2 <==> sep in s
    decreases |s|
  {
    if |s| > 0 {
      SplitHasTwoFields(s[1..], sep);
      assert s == [s[0]] + s[1..];
    }
  }

  /**
   * Whitespace as Kotlin's `Char.isWhitespace` sees it: the Java whitespace
   * characters plus every Unicode space separator.
   */
  predicate IsWhitespace(c: char)
  {
    || c == ' ' || c == '\t' || c == '\n' || c == '\U{B}' || c == '\U{C}' || c == '\r'
    || ('\U{1C}' <= c <= '\U{1F}')
    || c == '\U{A0}' || c == '\U{1680}'
    || ('\U{2000}' <= c <= '\U{200A}')
    || c == '\U{2028}' || c == '\U{2029}' || c == '\U{202F}' || c == '\U{205F}' || c == '\U{3000}'
  }

  /** Drops leading whitespace: the result is the suffix left after a whitespace-only prefix. */
  function TrimStart(s: string): (r: string)
    ensures |r| <= |s| && r == s[|s| - |r|..]
    ensures forall k :: 0 <= k < |s| - |r| ==> IsWhitespace(s[k])
    ensures |r| > 0 ==> !IsWhitespace(r[0])
    decreases |s|
  {
    if |s| > 0 && IsWhitespace(s[0]) then TrimStart(s[1..]) else s
  }

  /** Drops trailing whitespace: the result is the prefix before a whitespace-only suffix. */
  function TrimEnd(s: string): (r: string)
    ensures |r| <= |s| && r == s[..|r|]
    ensures forall k :: |r| <= k < |s| ==> IsWhitespace(s[k])
    ensures |r| > 0 ==> !IsWhitespace(r[|r| - 1])
    decreases |s|
  {
    if |s| > 0 && IsWhitespace(s[|s| - 1]) then TrimEnd(s[..|s| - 1]) else s
  }

  /** Kotlin's `trim()`. */
  function Trim(s: string): string
  {
    TrimEnd(TrimStart(s))
  }

  /** Kotlin's `replace("\"", "")`: every double quote removed, the rest kept in order. */
  function StripQuotes(s: string): (r: string)
    ensures '"' !in r
    ensures forall c :: c in r <==> c in s && c != '"'
    ensures |r| <= |s|
    decreases |s|
  {
    if |s| == 0 then ""
    else if s[0] == '"' then StripQuotes(s[1..])
    else [s[0]] + StripQuotes(s[1..])
  }

  /** A field without a double quote is kept as it is. */
  lemma {:induction false} StripQuotesNoQuote(s: string)
    requires '"' !in s
    ensures StripQuotes(s) == s
    decreases |s|
  {
    if |s| > 0 {
      StripQuotesNoQuote(s[1..]);
      assert s == [s[0]] + s[1..];
    }
  }

  /** A lone double quote is removed entirely. */
  lemma StripQuotesQuote()
    ensures StripQuotes(['"']) == ""
  {
    assert ['"'][1..] == "";
  }

  /**
   * Quote removal works piece by piece: stripping a concatenation strips
   * each part and keeps them in order. With `StripQuotesQuote` and the
   * quote-free case this fixes the result for every field.
   */
  lemma {:induction false} StripQuotesAppend(a: string, b: string)
    ensures StripQuotes(a + b) == StripQuotes(a) + StripQuotes(b)
    decreases |a|
  {
    if |a| == 0 {
      assert a + b == b;
    } else {
      assert (a + b)[0] == a[0];
      assert (a + b)[1..] == a[1..] + b;
      StripQuotesAppend(a[1..], b);
      if a[0] != '"' {
        assert [a[0]] + (StripQuotes(a[1..]) + StripQuotes(b)) == ([a[0]] + StripQuotes(a[1..])) + StripQuotes(b);
      }
    }
  }

  /** A field as the loader keeps it. */
  function Clean(field: string): string
  {
    StripQuotes(Trim(field))
  }

  /** The record a line's fields yield: only the first two fields are looked at. */
  function FromFields(parts: seq<string>): (r: Option<Record>)
    ensures |parts| < 2 ==> r == None
  {
    if |parts| >= 2 then
      var phone := Clean(parts[0]);
      var message := Clean(parts[1]);
      if |phone| > 0 && |message| > 0 then Some(NewRecord(phone, message)) else None
    else None
  }

  /** The record one line yields, if any. */
  function ParseLine(line: string): (r: Option<Record>)
    ensures ',' !in line ==> r == None
    ensures r.Some? ==> WellFormed(r.value)
  {
    var parts := Split(line, ',');
    SplitHasTwoFields(line, ',');
    FromFields(parts)
  }

  /**
   * What every loaded record satisfies: non-empty phone and message without
   * a quote or a comma, status "Pendiente" and no timestamp.
   */
  predicate WellFormed(r: Record)
  {
    && |r.phone| > 0 && |r.message| > 0
    && '"' !in r.phone && '"' !in r.message
    && ',' !in r.phone && ',' !in r.message
    && r.status == Pending && r.timestamp == ""
  }

  /** Every record of the list is well formed. */
  predicate AllWellFormed(rs: seq<Record>)
  {
    forall k :: 0 <= k < |rs| ==> WellFormed(rs[k])
  }

  /** The records of a file's lines, one at most per line, in line order. */
  function ParseLines(lines: seq<string>): (r: seq<Record>)
    ensures |r| <= |lines|
    ensures AllWellFormed(r)
    decreases |lines|
  {
    if |lines| == 0 then [] else Yield(ParseLine(lines[0])) + ParseLines(lines[1..])
  }

  /** The records a line contributes: its record, or none. */
  function Yield(o: Option<Record>): (s: seq<Record>)
    ensures |s| <= 1
    ensures |s| == 1 <==> o.Some?
    ensures |s| == 1 ==> s[0] == o.value
  {
    if o.Some? then [o.value] else []
  }

  /** Parsing works line by line: the records of two files concatenated are the records of each, in order. */
  lemma {:induction false} ParseLinesAppend(xs: seq<string>, ys: seq<string>)
    ensures ParseLines(xs + ys) == ParseLines(xs) + ParseLines(ys)
    decreases |xs|
  {
    if |xs| == 0 {
      assert xs + ys == ys;
    } else {
      assert (xs + ys)[0] == xs[0];
      assert (xs + ys)[1..] == xs[1..] + ys;
      ParseLinesAppend(xs[1..], ys);
      ConcatAssoc(Yield(ParseLine(xs[0])), ParseLines(xs[1..]), ParseLines(ys));
    }
  }

  lemma ConcatAssoc(a: seq<Record>, b: seq<Record>, c: seq<Record>)
    ensures a + (b + c) == (a + b) + c
  {
  }

  /**
   * A two-field line yields the record of its cleaned fields exactly when
   * both are non-empty, and nothing otherwise.
   */
  lemma ParseLineFields(a: string, b: string)
    requires ',' !in a && ',' !in b
    ensures ParseLine(a + "," + b) ==
              if |Clean(a)| > 0 && |Clean(b)| > 0 then Some(NewRecord(Clean(a), Clean(b))) else None
  {
    SplitFirst(a, ',', b);
    SplitNoSeparator(b, ',');
  }

  /** Text after the second comma is dropped: it never changes what a line yields. */
  lemma TextAfterSecondCommaIgnored(a: string, b: string, tail: string)
    requires ',' !in a && ',' !in b
    ensures ParseLine(a + "," + b + "," + tail) == ParseLine(a + "," + b)
  {
    var long := Split(a + "," + b + "," + tail, ',');
    var short := Split(a + "," + b, ',');
    assert a + "," + b + "," + tail == a + [','] + (b + [','] + tail);
    SplitFirst(a, ',', b + [','] + tail);
    SplitFirst(b, ',', tail);
    assert long == [a, b] + Split(tail, ',');
    SplitFirst(a, ',', b);
    SplitNoSeparator(b, ',');
    assert short == [a, b];
  }

  /** A field that is only whitespace trims to nothing. */
  lemma TrimBlank(s: string)
    requires forall k :: 0 <= k < |s| ==> IsWhitespace(s[k])
    ensures Trim(s) == ""
  {
  }

  /** A line whose phone field is only whitespace yields nothing. */
  lemma BlankPhoneSkipped(a: string, b: string)
    requires ',' !in a
    requires forall k :: 0 <= k < |a| ==> IsWhitespace(a[k])
    ensures ParseLine(a + "," + b) == None
  {
    SplitFirst(a, ',', b);
    TrimBlank(a);
  }

  /**
   * Quotes are removed after trimming, so blanks inside quotes survive: a
   * phone field written as a quoted space is kept as a single space.
   */
  lemma QuotedBlankKept(b: string)
    requires ',' !in b && |Clean(b)| > 0
    ensures ParseLine(QuotedSpace() + "," + b) == Some(NewRecord(" ", Clean(b)))
  {
    CleanQuotedBlank();
    ParseLineFields(QuotedSpace(), b);
  }

  /**
   * A phone field written as two double quotes is empty once cleaned, so
   * the line yields nothing whatever the message.
   */
  lemma QuotedEmptyPhoneSkipped(b: string)
    requires ',' !in b
    ensures ParseLine(EmptyQuoted() + "," + b) == None
  {
    var quoted := EmptyQuoted();
    assert Trim(quoted) == quoted by {
      assert !IsWhitespace(quoted[0]);
      assert TrimStart(quoted) == quoted;
      assert !IsWhitespace(quoted[1]);
    }
    assert Clean(quoted) == "" by {
      assert quoted == ['"'] + ['"'];
      StripQuotesAppend(['"'], ['"']);
      StripQuotesQuote();
    }
    ParseLineFields(quoted, b);
  }

  /** Two double quotes with nothing between them. */
  function EmptyQuoted(): string
  {
    ['"', '"']
  }

  /** A space between two double quotes. */
  function QuotedSpace(): string
  {
    ['"', ' ', '"']
  }

  lemma CleanQuotedBlank()
    ensures Clean(QuotedSpace()) == " "
  {
    var quoted := QuotedSpace();
    assert Trim(quoted) == quoted by {
      assert !IsWhitespace(quoted[0]);
      assert TrimStart(quoted) == quoted;
      assert !IsWhitespace(quoted[2]);
    }
    assert StripQuotes(quoted) == " " by {
      assert quoted[1..] == " \"";
      assert quoted[1..][1..] == "\"";
      assert StripQuotes("\"") == "";
    }
  }

  /**
   * The help screen's sample line with a quoted comma. The loader does not
   * honour quotes when splitting: the message is cut at the inner comma.
   */
  function HelpSampleLine(): string
  {
    "+5521888888888,\"Mensaje con, comas\""
  }

  lemma HelpSampleMessageCut()
    ensures ParseLine(HelpSampleLine()) == Some(NewRecord("+5521888888888", "Mensaje con"))
  {
    var a := "+5521888888888";
    var b := "\"Mensaje con";
    var tail := " comas\"";
    assert HelpSampleLine() == a + "," + b + "," + tail;
    TextAfterSecondCommaIgnored(a, b, tail);
    CleanHelpPhone(a);
    CleanHelpMessage();
    ParseLineFields(a, b);
  }

  /** A field with no quote and no blank at either end is kept as it is. */
  lemma CleanHelpPhone(a: string)
    requires a == "+5521888888888"
    ensures Clean(a) == a
  {
    assert !IsWhitespace(a[0]);
    assert TrimStart(a) == a;
    assert !IsWhitespace(a[|a| - 1]);
    StripQuotesNoQuote(a);
  }

  lemma CleanHelpMessage()
    ensures Clean("\"Mensaje con") == "Mensaje con"
  {
    var b := "\"Mensaje con";
    assert !IsWhitespace(b[0]);
    assert TrimStart(b) == b;
    assert !IsWhitespace(b[|b| - 1]);
    assert b == ['"'] + "Mensaje con";
    StripQuotesAppend(['"'], "Mensaje con");
    StripQuotesQuote();
    StripQuotesNoQuote("Mensaje con");
  }
}
