/**
 * The CSV report: a fixed header line, then one line per record holding the
 * phone number, the message in double quotes with every inner quote doubled,
 * the status string and the timestamp. Only the message is quoted.
 *
 * `ReadReport` reads such a text back by field position; it is the partner
 * that shows the report loses nothing.
 */
module Report {
  import opened Options
  import opened Records

  const Header: string := "Numero,Mensaje,Estado,FechaHora"

  /** Doubles every double quote of the message. */
  function Escape(m: string): (e: string)
    ensures |e| >= |m|
    decreases |m|
  {
    if |m| == 0 then ""
    else (if m[0] == '"' then "\"\"" else [m[0]]) + Escape(m[1..])
  }

  /**
   * Escaping adds exactly one character per double quote of the message,
   * and every quote of the message becomes two.
   */
  lemma {:induction false} EscapeLength(m: string)
    ensures |Escape(m)| == |m| + multiset(m)['"']
    ensures multiset(Escape(m))['"'] == 2 * multiset(m)['"']
    decreases |m|
  {
    if |m| > 0 {
      EscapeLength(m[1..]);
      assert m == [m[0]] + m[1..];
      var head: string := if m[0] == '"' then "\"\"" else [m[0]];
      assert Escape(m) == head + Escape(m[1..]);
      assert multiset(Escape(m)) == multiset(head) + multiset(Escape(m[1..]));
    }
  }

  /** The message field as written: quotes around the escaped message. */
  function Quote(m: string): string
  {
    "\"" + Escape(m) + "\""
  }

  /** One report line, without its line break. */
  function Row(r: Record): string
  {
    r.phone + "," + Quote(r.message) + "," + StatusText(r.status) + "," + r.timestamp
  }

  /** The body lines, each ended by a line break (as `appendLine` writes them). */
  function Rows(records: seq<Record>): string
    decreases |records|
  {
    if |records| == 0 then "" else Row(records[0]) + "\n" + Rows(records[1..])
  }

  /** The whole report text. */
  function ReportText(records: seq<Record>): string
  {
    Header + "\n" + Rows(records)
  }

  /**
   * Reads the inside of a quoted field up to its closing quote: a doubled
   * quote stands for one quote, a single quote ends the field. Returns the
   * field and the text after the closing quote.
   */
  function ReadQuoted(s: string): (r: Option<(string, string)>)
    ensures r.Some? ==> |r.value.1| < |s|
    decreases |s|
  {
    if |s| == 0 then None
    else if s[0] == '"' then
      if |s| >= 2 && s[1] == '"' then
        match ReadQuoted(s[2..])
        case None => None
        case Some((m, rest)) => Some(("\"" + m, rest))
      else Some(("", s[1..]))
    else
      match ReadQuoted(s[1..])
      case None => None
      case Some((m, rest)) => Some(([s[0]] + m, rest))
  }

  lemma ReadQuotedClose(rest: string)
    requires |rest| == 0 || rest[0] != '"'
    ensures ReadQuoted(['"'] + rest) == Some(("", rest))
  {
    assert (['"'] + rest)[1..] == rest;
  }

  lemma ReadQuotedDoubled(t: string, m: string, rest: string)
    requires ReadQuoted(t) == Some((m, rest))
    ensures ReadQuoted(['"', '"'] + t) == Some((['"'] + m, rest))
  {
    assert (['"', '"'] + t)[2..] == t;
  }

  lemma ReadQuotedPlain(c: char, t: string, m: string, rest: string)
    requires c != '"'
    requires ReadQuoted(t) == Some((m, rest))
    ensures ReadQuoted([c] + t) == Some(([c] + m, rest))
  {
    assert ([c] + t)[1..] == t;
  }

  /** Undoubling the quotes of a quoted message gives back the message. */
  lemma {:induction false} ReadQuotedEscape(m: string, rest: string)
    requires |rest| == 0 || rest[0] != '"'
    ensures ReadQuoted(Escape(m) + ['"'] + rest) == Some((m, rest))
    decreases |m|
  {
    if |m| == 0 {
      assert Escape(m) + ['"'] + rest == ['"'] + rest;
      ReadQuotedClose(rest);
    } else {
      ReadQuotedEscape(m[1..], rest);
      ReadQuotedEscapeStep(m, rest);
    }
  }

  /** One character more: the escaped first character is read back before the rest. */
  lemma ReadQuotedEscapeStep(m: string, rest: string)
    requires |m| > 0
    requires ReadQuoted(Escape(m[1..]) + ['"'] + rest) == Some((m[1..], rest))
    ensures ReadQuoted(Escape(m) + ['"'] + rest) == Some((m, rest))
  {
    var tail := Escape(m[1..]) + ['"'] + rest;
    if m[0] == '"' {
      assert Escape(m) + ['"'] + rest == ['"', '"'] + tail;
      ReadQuotedDoubled(tail, m[1..], rest);
    } else {
      assert Escape(m) + ['"'] + rest == [m[0]] + tail;
      ReadQuotedPlain(m[0], tail, m[1..], rest);
    }
    assert [m[0]] + m[1..] == m;
  }

  /** Splits at the first `c`: the text before it and the text after it. */
  function TakeUntil(s: string, c: char): (r: Option<(string, string)>)
    ensures r.Some? ==> |r.value.1| < |s|
    decreases |s|
  {
    if |s| == 0 then None
    else if s[0] == c then Some(("", s[1..]))
    else
      match TakeUntil(s[1..], c)
      case None => None
      case Some((before, after)) => Some(([s[0]] + before, after))
  }

  lemma {:induction false} TakeUntilFirst(a: string, c: char, b: string)
    requires c !in a
    ensures TakeUntil(a + [c] + b, c) == Some((a, b))
    decreases |a|
  {
    var s := a + [c] + b;
    if |a| == 0 {
      assert s == [c] + b;
      assert s[1..] == b;
    } else {
      assert s[0] == a[0];
      assert s[1..] == a[1..] + [c] + b;
      assert c !in a[1..];
      TakeUntilFirst(a[1..], c, b);
      assert [a[0]] + a[1..] == a;
    }
  }

  /** Splits at the last `c`: the text before it and the text after it. */
  function SplitLast(s: string, c: char): Option<(string, string)>
    decreases |s|
  {
    if |s| == 0 then None
    else if s[|s| - 1] == c then Some((s[..|s| - 1], ""))
    else
      match SplitLast(s[..|s| - 1], c)
      case None => None
      case Some((before, after)) => Some((before, after + [s[|s| - 1]]))
  }

  lemma {:induction false} SplitLastLast(a: string, c: char, b: string)
    requires c !in b
    ensures SplitLast(a + [c] + b, c) == Some((a, b))
    decreases |b|
  {
    var s := a + [c] + b;
    if |b| == 0 {
      assert s == a + [c];
      assert s[..|s| - 1] == a;
    } else {
      var b' := b[..|b| - 1];
      assert s[|s| - 1] == b[|b| - 1];
      assert s[..|s| - 1] == a + [c] + b';
      assert c !in b';
      SplitLastLast(a, c, b');
      assert b' + [b[|b| - 1]] == b;
    }
  }

  /**
   * Reads the end of a line after the message field: a comma, the status,
   * a comma, the timestamp (after the last comma of the line), and the line
   * break. Returns status, timestamp and the text after the line break.
   */
  function ReadTrailer(s: string): (r: Option<(Status, string, string)>)
    ensures r.Some? ==> |r.value.2| < |s|
  {
    if |s| == 0 || s[0] != ',' then None
    else
      match TakeUntil(s[1..], '\n')
      case None => None
      case Some((line, rest)) =>
        match SplitLast(line, ',')
        case None => None
        case Some((statusText, timestamp)) =>
          match ParseStatus(statusText)
          case None => None
          case Some(status) => Some((status, timestamp, rest))
  }

  /** Reads the quoted message field and the rest of its line. */
  function ReadFromMessage(s: string): (r: Option<(string, Status, string, string)>)
    ensures r.Some? ==> |r.value.3| < |s|
  {
    if |s| == 0 || s[0] != '"' then None
    else
      match ReadQuoted(s[1..])
      case None => None
      case Some((message, s2)) =>
        match ReadTrailer(s2)
        case None => None
        case Some((status, timestamp, rest)) => Some((message, status, timestamp, rest))
  }

  /** Reads one report line and its line break; returns the record and the rest of the text. */
  function ReadRow(s: string): (r: Option<(Record, string)>)
    ensures r.Some? ==> |r.value.1| < |s|
  {
    match TakeUntil(s, ',')
    case None => None
    case Some((phone, s1)) =>
      match ReadFromMessage(s1)
      case None => None
      case Some((message, status, timestamp, rest)) => Some((Record(phone, message, status, timestamp), rest))
  }

  /** Reads report lines until the text runs out. */
  function ReadRows(s: string): Option<seq<Record>>
    decreases |s|
  {
    if |s| == 0 then Some([])
    else
      match ReadRow(s)
      case None => None
      case Some((rec, rest)) =>
        match ReadRows(rest)
        case None => None
        case Some(recs) => Some([rec] + recs)
  }

  /** Reads a whole report: the header line, then the record lines. */
  function ReadReport(text: string): Option<seq<Record>>
  {
    var head := Header + "\n";
    if |text| >= |head| && text[..|head|] == head then ReadRows(text[|head|..]) else None
  }

  /**
   * The fields that are written unquoted must not hold the characters that
   * delimit them: no comma in the phone number or the timestamp, no line
   * break in the status or the timestamp. The message may hold anything.
   */
  predicate Reportable(r: Record)
  {
    ',' !in r.phone && '\n' !in StatusText(r.status) && ',' !in r.timestamp && '\n' !in r.timestamp
  }

  /**
   * An error status whose reason holds a line break is outside the
   * reportable records: its row would be split across two report lines.
   */
  lemma LineBreakInErrorNotReportable(r: Record)
    requires r.status.Error? && '\n' in r.status.reason
    ensures !Reportable(r)
  {
    var k :| 0 <= k < |r.status.reason| && r.status.reason[k] == '\n';
    assert StatusText(r.status)[|ErrorPrefix| + k] == '\n';
  }

  lemma ReadTrailerOk(status: Status, timestamp: string, rest: string)
    requires '\n' !in StatusText(status) && ',' !in timestamp && '\n' !in timestamp
    ensures ReadTrailer("," + StatusText(status) + "," + timestamp + "\n" + rest) == Some((status, timestamp, rest))
  {
    var st := StatusText(status);
    var line := st + [','] + timestamp;
    var s := "," + st + "," + timestamp + "\n" + rest;
    assert s[1..] == line + ['\n'] + rest;
    assert '\n' !in line;
    TakeUntilFirst(line, '\n', rest);
    SplitLastLast(st, ',', timestamp);
    StatusTextRoundTrip(status);
  }

  lemma ReadFromMessageOk(message: string, trailer: string, status: Status, timestamp: string, rest: string)
    requires ReadTrailer(trailer) == Some((status, timestamp, rest))
    ensures ReadFromMessage(Quote(message) + trailer) == Some((message, status, timestamp, rest))
  {
    var e := Escape(message);
    var s := Quote(message) + trailer;
    assert s == ['"'] + (e + ['"'] + trailer);
    assert s[1..] == e + ['"'] + trailer;
    ReadQuotedEscape(message, trailer);
  }

  /** One report line reads back as the record it was written from. */
  lemma ReadRowRow(r: Record, rest: string)
    requires Reportable(r)
    ensures ReadRow(Row(r) + "\n" + rest) == Some((r, rest))
  {
    var trailer := "," + StatusText(r.status) + "," + r.timestamp + "\n" + rest;
    var s1 := Quote(r.message) + trailer;
    assert Row(r) + "\n" + rest == r.phone + [','] + s1;
    TakeUntilFirst(r.phone, ',', s1);
    ReadTrailerOk(r.status, r.timestamp, rest);
    ReadFromMessageOk(r.message, trailer, r.status, r.timestamp, rest);
  }

  /** The body lines read back as the records, in order. */
  lemma {:induction false} ReadRowsRows(records: seq<Record>)
    requires forall k :: 0 <= k < |records| ==> Reportable(records[k])
    ensures ReadRows(Rows(records)) == Some(records)
    decreases |records|
  {
    if |records| > 0 {
      var rest := Rows(records[1..]);
      var text := Rows(records);
      assert text == Row(records[0]) + "\n" + rest;
      assert |text| > 0;
      ReadRowRow(records[0], rest);
      ReadRowsRows(records[1..]);
      ReadRowsCons(text, records[0], rest, records[1..]);
      assert [records[0]] + records[1..] == records;
    }
  }

  lemma ReadRowsCons(s: string, rec: Record, rest: string, recs: seq<Record>)
    requires |s| > 0
    requires ReadRow(s) == Some((rec, rest))
    requires ReadRows(rest) == Some(recs)
    ensures ReadRows(s) == Some([rec] + recs)
  {
  }

  /**
   * Round trip: the report of any list of reportable records reads back, by
   * field position, as exactly that list — phone, message, status and
   * timestamp of every record, in order.
   */
  lemma ReportRoundTrip(records: seq<Record>)
    requires forall k :: 0 <= k < |records| ==> Reportable(records[k])
    ensures ReadReport(ReportText(records)) == Some(records)
  {
    var head := Header + "\n";
    var text := ReportText(records);
    assert text[..|head|] == head;
    assert text[|head|..] == Rows(records);
    ReadRowsRows(records);
  }
}
