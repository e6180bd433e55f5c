/**
 * The dispatch engine: `SendBatch` hands every record of one batch to the
 * radio, `AwaitBatch` polls until the batch has settled or the poll budget is
 * spent, and `SendInBatches` runs exactly one batch per call.
 *
 * The radio is an oracle: for every record it either accepts the send call
 * or throws at once. Acknowledgements arrive as rounds of events, one round
 * during each one-second poll delay. Delays themselves do nothing here.
 */
module Dispatch {
  import opened Options
  import opened Records
  import opened Callbacks
  import opened Batching

  /** Outcome of the synchronous send call for one record. */
  datatype Attempt =
    | Accepted(parts: nat)               // the platform took the message, split into `parts` segments
    | Rejected(message: string, at: string)  // the call threw; `message` is the exception's text

  /** How the message is handed to the platform. */
  datatype SendCall =
    | TextMessage(token: int)                 // one segment, one pair of intents
    | MultipartMessage(tokens: seq<int>)      // one intent pair per segment

  /**
   * The call made for a message of `parts` segments at list position
   * `globalIndex`: every segment carries the record's own index, so every
   * acknowledgement of every segment is correlated to that one record.
   */
  function CallFor(globalIndex: int, parts: nat): (c: SendCall)
    ensures c.TextMessage? <==> parts == 1
    ensures c.TextMessage? ==> c.token == globalIndex
    ensures c.MultipartMessage? ==>
              |c.tokens| == parts && forall k :: 0 <= k < |c.tokens| ==> c.tokens[k] == globalIndex
  {
    if parts == 1 then TextMessage(globalIndex) else MultipartMessage(seq(parts, _ => globalIndex))
  }

  /** The request codes of a call's intents, one per segment. */
  function Tokens(c: SendCall): seq<int>
  {
    match c
    case TextMessage(token) => [token]
    case MultipartMessage(tokens) => tokens
  }

  /**
   * An acknowledgement raised by any intent of the call made for list
   * position `globalIndex` is addressed to that position, and to no other:
   * with `ApplyAllUntargeted`, the acknowledgements of one record's segments
   * leave every other record alone.
   */
  lemma AcknowledgementTargetsItsRecord(globalIndex: int, parts: nat, e: Event, j: int)
    requires e.index in Tokens(CallFor(globalIndex, parts))
    ensures Targets(e, globalIndex)
    ensures j != globalIndex ==> !Targets(e, j)
  {
  }

  /**
   * The value slot `startIndex + i` holds after the send attempt for batch
   * record `i`. On success the batch's own copy of the record is stored with
   * status "Enviando..."; on failure the list's current record gets the error
   * status and the timestamp.
   */
  function AfterAttempt(current: Record, snapshot: Record, a: Attempt): Record
  {
    match a
    case Accepted(_) => snapshot.(status := Sending)
    case Rejected(message, at) => current.(status := Error(message), timestamp := at)
  }

  /** The whole list after the send loop of one batch. */
  function AfterSends(store: seq<Record>, batch: seq<Record>, startIndex: nat, attempts: seq<Attempt>): (r: seq<Record>)
    requires startIndex + |batch| <= |store|
    requires |attempts| == |batch|
  {
    seq(|store|, j requires 0 <= j < |store| =>
      if startIndex <= j < startIndex + |batch|
      then AfterAttempt(store[j], batch[j - startIndex], attempts[j - startIndex])
      else store[j])
  }

  /**
   * The send loop of one batch. Every record of the batch is attempted, in
   * order; a failed attempt does not stop the loop. Only the slots
   * `startIndex .. startIndex + |batch| - 1` are written, each ending as
   * "Enviando..." or "Error: <message>" with the failure's timestamp.
   */
  method SendBatch(store: seq<Record>, batch: seq<Record>, startIndex: nat, attempts: seq<Attempt>)
    returns (r: seq<Record>, calls: seq<Option<SendCall>>)
    requires startIndex + |batch| <= |store|
    requires |attempts| == |batch|
    ensures |r| == |store|
    ensures forall j :: 0 <= j < |store| && !(startIndex <= j < startIndex + |batch|) ==> r[j] == store[j]
    ensures forall i :: 0 <= i < |batch| ==>
              (attempts[i].Accepted? ==> r[startIndex + i] == batch[i].(status := Sending))
    ensures forall i :: 0 <= i < |batch| ==>
              (attempts[i].Rejected? ==>
                 && r[startIndex + i].status == Error(attempts[i].message)
                 && r[startIndex + i].timestamp == attempts[i].at
                 && r[startIndex + i].phone == store[startIndex + i].phone
                 && r[startIndex + i].message == store[startIndex + i].message)
    ensures r == AfterSends(store, batch, startIndex, attempts)
    ensures |calls| == |batch|
    ensures forall i :: 0 <= i < |batch| ==> (calls[i].Some? <==> attempts[i].Accepted?)
    ensures forall i :: 0 <= i < |batch| && attempts[i].Accepted? ==>
              calls[i] == Some(CallFor(startIndex + i, attempts[i].parts))
  {
    r := store;
    calls := [];
    var i := 0;
    while i < |batch|
      invariant 0 <= i <= |batch|
      invariant |r| == |store|
      invariant |calls| == i
      invariant forall k :: 0 <= k < i ==>
                  calls[k] == if attempts[k].Accepted? then Some(CallFor(startIndex + k, attempts[k].parts)) else None
      invariant forall j :: 0 <= j < |store| && !(startIndex <= j < startIndex + i) ==> r[j] == store[j]
      invariant forall k :: 0 <= k < i ==>
                  r[startIndex + k] == AfterAttempt(store[startIndex + k], batch[k], attempts[k])
    {
      var globalIndex := startIndex + i;
      match attempts[i] {
        case Accepted(parts) =>
          calls := calls + [Some(CallFor(globalIndex, parts))];
          r := r[globalIndex := batch[i].(status := Sending)];
        case Rejected(message, at) =>
          calls := calls + [None];
          r := r[globalIndex := r[globalIndex].(status := Error(message), timestamp := at)];
      }
      i := i + 1;
    }
  }

  /** The poll budget of one batch. */
  const MaxPolls: nat := 30

  /** The batch's range has no record left waiting. */
  predicate Complete(store: seq<Record>, lo: nat, hi: nat)
    requires lo <= hi <= |store|
  {
    forall j :: lo <= j < hi ==> Settled(store[j].status)
  }

  /** The events delivered during poll delay `k`; none once the oracle runs out. */
  function RoundAt(rounds: seq<seq<Event>>, k: nat): seq<Event>
  {
    if k < |rounds| then rounds[k] else []
  }

  /** The list after the first `k` poll delays. */
  function AfterPolls(store: seq<Record>, rounds: seq<seq<Event>>, k: nat): (r: seq<Record>)
    ensures |r| == |store|
  {
    if k == 0 then store else ApplyAll(AfterPolls(store, rounds, k - 1), RoundAt(rounds, k - 1))
  }

  /**
   * The application's completion test on status strings: no record of the
   * range reads "Pendiente" or "Enviando...".
   */
  predicate RangeSettledText(store: seq<Record>, lo: nat, hi: nat)
    requires lo <= hi <= |store|
  {
    forall j :: lo <= j < hi ==> SettledText(StatusText(store[j].status))
  }

  /** `Complete` is the application's string test over the range. */
  lemma CompleteIffText(store: seq<Record>, lo: nat, hi: nat)
    requires lo <= hi <= |store|
    ensures Complete(store, lo, hi) <==> RangeSettledText(store, lo, hi)
  {
    forall j | lo <= j < hi {
      SettledIff(store[j].status);
    }
  }

  /** The batch is complete after `k` poll delays. */
  predicate CompleteAfter(store: seq<Record>, rounds: seq<seq<Event>>, k: nat, lo: nat, hi: nat)
    requires lo <= hi <= |store|
  {
    Complete(AfterPolls(store, rounds, k), lo, hi)
  }

  /** No poll from the first through the `n`-th found the batch complete. */
  ghost predicate IncompleteThrough(store: seq<Record>, rounds: seq<seq<Event>>, n: nat, lo: nat, hi: nat)
    requires lo <= hi <= |store|
  {
    n == 0 || (!CompleteAfter(store, rounds, n, lo, hi) && IncompleteThrough(store, rounds, n - 1, lo, hi))
  }

  lemma {:induction false} IncompleteThroughAll(store: seq<Record>, rounds: seq<seq<Event>>, n: nat, lo: nat, hi: nat)
    requires lo <= hi <= |store|
    requires IncompleteThrough(store, rounds, n, lo, hi)
    ensures forall k :: 1 <= k <= n ==> !CompleteAfter(store, rounds, k, lo, hi)
  {
    if n > 0 {
      IncompleteThroughAll(store, rounds, n - 1, lo, hi);
    }
  }

  /**
   * The completion wait. It polls at least once and at most `MaxPolls`
   * times, stops at the first poll that finds the batch complete, and
   * changes no record itself: the list it returns is the one the
   * acknowledgements made.
   */
  method AwaitBatch(store: seq<Record>, lo: nat, hi: nat, rounds: seq<seq<Event>>)
    returns (r: seq<Record>, polls: nat)
    requires lo <= hi <= |store|
    ensures 1 <= polls <= MaxPolls
    ensures r == AfterPolls(store, rounds, polls)
    ensures polls < MaxPolls ==> Complete(r, lo, hi)
    ensures forall k :: 1 <= k < polls ==> !CompleteAfter(store, rounds, k, lo, hi)
  {
    var allCompleted := false;
    polls := 0;
    r := store;
    while !allCompleted && polls < MaxPolls
      invariant 0 <= polls <= MaxPolls
      invariant r == AfterPolls(store, rounds, polls)
      invariant allCompleted <==> polls >= 1 && CompleteAfter(store, rounds, polls, lo, hi)
      invariant polls >= 1 ==> IncompleteThrough(store, rounds, polls - 1, lo, hi)
      decreases MaxPolls - polls
    {
      // the one-second delay: the acknowledgements of this round arrive
      polls := polls + 1;
      r := AfterPolls(store, rounds, polls);
      allCompleted := RangeSettledText(r, lo, hi);
      CompleteIffText(r, lo, hi);
    }
    IncompleteThroughAll(store, rounds, polls - 1, lo, hi);
  }

  /** Report passed to the batch-complete callback: (batch number, completed). */
  datatype BatchReport = BatchReport(batch: int, completed: bool)

  /**
   * What one call does when it runs batch `b`: the batch range is a
   * non-empty part of the list, the batch is reported once as completed, the
   * list is what the sends and the acknowledgements of `polls` poll delays
   * made of it, and an early exit means the batch had settled.
   */
  ghost predicate RanBatch(store: seq<Record>, size: int, b: int, attempts: seq<Attempt>, rounds: seq<seq<Event>>,
                           r: seq<Record>, reports: seq<BatchReport>, polls: nat)
    requires size >= 1
    requires |attempts| == |store|
  {
    var lo, hi := BatchStart(b, size), BatchEnd(|store|, b, size);
    && 0 <= lo < hi <= |store|
    && reports == [BatchReport(b, true)]
    && 1 <= polls <= MaxPolls
    && r == AfterPolls(AfterSends(store, store[lo..hi], lo, attempts[lo..hi]), rounds, polls)
    && (polls < MaxPolls ==> Complete(r, lo, hi))
    && (forall k :: 1 <= k < polls ==> !CompleteAfter(AfterSends(store, store[lo..hi], lo, attempts[lo..hi]), rounds, k, lo, hi))
  }

  /**
   * One call of the batch scheduler. For a start batch within the total it
   * sends exactly that batch, waits for it, reports it once as completed and
   * returns; past the total (in particular for an empty list) it does
   * nothing. `attempts[j]` is the radio's answer for record `j`.
   */
  method SendInBatches(store: seq<Record>, size: int, startBatch: int,
                       attempts: seq<Attempt>, rounds: seq<seq<Event>>)
    returns (r: seq<Record>, reports: seq<BatchReport>, polls: nat)
    requires size >= 1
    requires startBatch >= 1
    requires |attempts| == |store|
    ensures |r| == |store|
    ensures startBatch > TotalBatches(|store|, size) ==> r == store && reports == [] && polls == 0
    ensures startBatch <= TotalBatches(|store|, size) ==> RanBatch(store, size, startBatch, attempts, rounds, r, reports, polls)
  {
    var totalBatches := TotalBatches(|store|, size);
    r := store;
    reports := [];
    polls := 0;
    var batch := startBatch;
    while batch <= totalBatches
      invariant startBatch <= batch
      invariant batch == startBatch ==> r == store && reports == [] && polls == 0
      invariant batch != startBatch ==>
                  && batch == startBatch + 1 == totalBatches + 1
                  && RanBatch(store, size, startBatch, attempts, rounds, r, reports, polls)
      decreases totalBatches + 1 - batch
    {
      BatchInRange(|store|, size, batch);
      var startIndex := BatchStart(batch, size);
      var endIndex := BatchEnd(|store|, batch, size);
      var batchRecords := store[startIndex..endIndex];
      var sent, _ := SendBatch(r, batchRecords, startIndex, attempts[startIndex..endIndex]);
      r, polls := AwaitBatch(sent, startIndex, endIndex, rounds);
      reports := reports + [BatchReport(batch, true)];
      if batch < totalBatches {
        break;
      }
      batch := batch + 1;
    }
  }

  /** Acknowledgements never take a settled record back to a waiting status. */
  lemma {:induction false} AfterPollsKeepsSettled(store: seq<Record>, rounds: seq<seq<Event>>, k: nat, j: nat)
    requires j < |store|
    requires Settled(store[j].status)
    ensures Settled(AfterPolls(store, rounds, k)[j].status)
  {
    if k > 0 {
      AfterPollsKeepsSettled(store, rounds, k - 1, j);
      ApplyAllKeepsSettled(AfterPolls(store, rounds, k - 1), RoundAt(rounds, k - 1), j);
    }
  }

  /** A record no acknowledgement of the first `k` poll delays names is left as it was. */
  lemma {:induction false} AfterPollsUntargeted(store: seq<Record>, rounds: seq<seq<Event>>, k: nat, j: nat)
    requires j < |store|
    requires forall p, e :: 0 <= p < k && e in RoundAt(rounds, p) ==> !Targets(e, j)
    ensures AfterPolls(store, rounds, k)[j] == store[j]
  {
    if k > 0 {
      AfterPollsUntargeted(store, rounds, k - 1, j);
      var round := RoundAt(rounds, k - 1);
      assert forall q :: 0 <= q < |round| ==> !Targets(round[q], j) by {
        forall q | 0 <= q < |round|
          ensures !Targets(round[q], j)
        {
          assert round[q] in round;
        }
      }
      ApplyAllUntargeted(AfterPolls(store, rounds, k - 1), round, j);
    }
  }

  /**
   * A batch whose every send call threw is complete at the first poll: the
   * wait does not run out its budget.
   */
  lemma AllRejectedSettlesAtFirstPoll(store: seq<Record>, size: int, b: int, attempts: seq<Attempt>,
                                      rounds: seq<seq<Event>>, r: seq<Record>, reports: seq<BatchReport>, polls: nat)
    requires size >= 1
    requires |attempts| == |store|
    requires RanBatch(store, size, b, attempts, rounds, r, reports, polls)
    requires forall j :: BatchStart(b, size) <= j < BatchEnd(|store|, b, size) ==> attempts[j].Rejected?
    ensures polls == 1
  {
    var lo, hi := BatchStart(b, size), BatchEnd(|store|, b, size);
    var sent := AfterSends(store, store[lo..hi], lo, attempts[lo..hi]);
    forall j | lo <= j < hi
      ensures Settled(AfterPolls(sent, rounds, 1)[j].status)
    {
      assert attempts[lo..hi][j - lo] == attempts[j];
      AfterPollsKeepsSettled(sent, rounds, 1, j);
    }
    assert CompleteAfter(sent, rounds, 1, lo, hi);
  }

  /**
   * When the radio accepts every send of the batch and no acknowledgement for
   * it arrives during the poll budget, the wait runs all 30 polls and the
   * batch is still reported, its records left in "Enviando...".
   */
  lemma SilentRadioExhaustsBudget(store: seq<Record>, size: int, b: int, attempts: seq<Attempt>,
                                  rounds: seq<seq<Event>>, r: seq<Record>, reports: seq<BatchReport>, polls: nat)
    requires size >= 1
    requires |attempts| == |store|
    requires RanBatch(store, size, b, attempts, rounds, r, reports, polls)
    requires forall j :: BatchStart(b, size) <= j < BatchEnd(|store|, b, size) ==> attempts[j].Accepted?
    requires forall p, e, j :: 0 <= p < MaxPolls && e in RoundAt(rounds, p) && BatchStart(b, size) <= j < BatchEnd(|store|, b, size)
               ==> !Targets(e, j)
    ensures polls == MaxPolls
    ensures reports == [BatchReport(b, true)]
    ensures forall j :: BatchStart(b, size) <= j < BatchEnd(|store|, b, size) ==> r[j].status == Sending
  {
    var lo, hi := BatchStart(b, size), BatchEnd(|store|, b, size);
    var sent := AfterSends(store, store[lo..hi], lo, attempts[lo..hi]);
    forall j | lo <= j < hi
      ensures r[j].status == Sending
    {
      assert attempts[lo..hi][j - lo] == attempts[j];
      AfterPollsUntargeted(sent, rounds, polls, j);
    }
    assert r[lo].status == Sending;
  }
}
