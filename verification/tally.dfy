/**
 * The on-screen summary: how many records count as sent ("Enviado" or
 * "Entregado"), failed (any "Error..." or "No entregado") and pending
 * ("Pendiente" or "Enviando..."). The application classifies the status
 * strings; `StatusTally` is the same count stated on the status datatype.
 */
module Tally {
  import opened Records

  predicate StartsWith(s: string, prefix: string)
  {
    |prefix| <= |s| && s[..|prefix|] == prefix
  }

  predicate CountsAsSent(t: string)
  {
    t == "Enviado" || t == "Entregado"
  }

  predicate CountsAsFailed(t: string)
  {
    StartsWith(t, "Error") || t == "No entregado"
  }

  predicate CountsAsPending(t: string)
  {
    t == "Pendiente" || t == "Enviando..."
  }

  datatype Counts = Counts(sent: nat, failed: nat, pending: nat)
  {
    function Total(): nat
    {
      sent + failed + pending
    }
  }

  /** No string falls into two buckets. */
  lemma BucketsExclusive(t: string)
    ensures !(CountsAsSent(t) && CountsAsFailed(t))
    ensures !(CountsAsSent(t) && CountsAsPending(t))
    ensures !(CountsAsFailed(t) && CountsAsPending(t))
  {
    if StartsWith(t, "Error") {
      assert t[0] == 'E' && t[1] == 'r';
      assert "Enviado"[1] == 'n' && "Entregado"[1] == 'n';
      assert "Pendiente"[0] == 'P' && "Enviando..."[1] == 'n';
    }
  }

  /** The three counts over a list of status strings; they never add up to more than the list. */
  function TallyTexts(texts: seq<string>): (c: Counts)
    ensures c.Total() <= |texts|
    decreases |texts|
  {
    if |texts| == 0 then Counts(0, 0, 0)
    else
      var rest := TallyTexts(texts[1..]);
      var t := texts[0];
      BucketsExclusive(t);
      Counts(rest.sent + (if CountsAsSent(t) then 1 else 0),
             rest.failed + (if CountsAsFailed(t) then 1 else 0),
             rest.pending + (if CountsAsPending(t) then 1 else 0))
  }

  /** One unfolding of `TallyTexts`, with the head's text and the tail's counts named. */
  lemma TallyTextsCons(texts: seq<string>, t: string, rest: Counts)
    requires |texts| > 0 && texts[0] == t && TallyTexts(texts[1..]) == rest
    ensures TallyTexts(texts) == Counts(rest.sent + (if CountsAsSent(t) then 1 else 0),
                                        rest.failed + (if CountsAsFailed(t) then 1 else 0),
                                        rest.pending + (if CountsAsPending(t) then 1 else 0))
  {
  }

  function StatusTexts(records: seq<Record>): (texts: seq<string>)
    ensures |texts| == |records|
  {
    seq(|records|, k requires 0 <= k < |records| => StatusText(records[k].status))
  }

  /** The summary the screen shows for a record list. */
  function TallyRecords(records: seq<Record>): Counts
  {
    TallyTexts(StatusTexts(records))
  }

  /** Which bucket each status lands in. */
  lemma StatusBucket(s: Status)
    ensures CountsAsSent(StatusText(s)) <==> s == Sent || s == Delivered
    ensures CountsAsFailed(StatusText(s)) <==> s.Error? || s == NotDelivered
    ensures CountsAsPending(StatusText(s)) <==> s == Pending || s == Sending
  {
    if s.Error? {
      ErrorTextIsNoFixedText(s.reason);
      assert StatusText(s)[..5] == "Error";
    } else {
      assert "Pendiente"[0] == 'P' && "Enviando..."[1] == 'n' && "Enviado"[1] == 'n';
      assert "Entregado"[1] == 'n' && "No entregado"[0] == 'N';
    }
  }

  /** The same three counts, stated on the status datatype. */
  function StatusTally(records: seq<Record>): Counts
    decreases |records|
  {
    if |records| == 0 then Counts(0, 0, 0)
    else
      var rest := StatusTally(records[1..]);
      var s := records[0].status;
      Counts(rest.sent + (if s == Sent || s == Delivered then 1 else 0),
             rest.failed + (if s.Error? || s == NotDelivered then 1 else 0),
             rest.pending + (if s == Pending || s == Sending then 1 else 0))
  }

  /** The string classification of the screen agrees with the status datatype. */
  lemma {:induction false} TallyMatchesStatuses(records: seq<Record>)
    ensures TallyRecords(records) == StatusTally(records)
    decreases |records|
  {
    if |records| > 0 {
      var texts := StatusTexts(records);
      assert texts[1..] == StatusTexts(records[1..]);
      TallyMatchesStatuses(records[1..]);
      var s := records[0].status;
      StatusBucket(s);
      TallyTextsCons(texts, StatusText(s), StatusTally(records[1..]));
    }
  }

  /** Every record is counted exactly once: the three counts add up to the list length. */
  lemma {:induction false} TallyIsExhaustive(records: seq<Record>)
    ensures TallyRecords(records).Total() == |records|
    decreases |records|
  {
    TallyMatchesStatuses(records);
    StatusTallyTotal(records);
  }

  lemma {:induction false} StatusTallyTotal(records: seq<Record>)
    ensures StatusTally(records).Total() == |records|
    decreases |records|
  {
    if |records| > 0 {
      StatusTallyTotal(records[1..]);
    }
  }
}
