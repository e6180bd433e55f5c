/**
 * The batch session the screen drives. "Enviar SMS" computes the total,
 * sets the current batch to 1 and runs the scheduler from batch 1; each
 * completed batch is reported back, becomes the current batch and, when
 * batches remain, opens the continue dialog, whose "Continuar" button runs
 * the scheduler again.
 *
 * As written, "Continuar" passes the batch just completed as the start
 * batch, so it runs that batch again and never reaches the next one.
 * `ResumeBatchAsWritten` models that handler; `ResumeBatch` is the handler
 * the dialog's own wording ("continuar con el siguiente lote") describes,
 * and the session below uses it.
 */
module Session {
  import opened Batching

  /** Start batch passed by "Continuar", as written: the batch just completed. */
  function ResumeBatchAsWritten(current: int): int
  {
    current
  }

  /** Start batch passed by "Continuar", corrected: the batch after the one just completed. */
  function ResumeBatch(current: int): int
  {
    current + 1
  }

  /** The continue dialog is offered after batch `b` only while batches remain. */
  predicate OffersContinue(b: int, total: nat)
  {
    b < total
  }

  /**
   * Batches run by "Enviar SMS" followed by `presses` presses of "Continuar"
   * with the handler as written; a press is only possible while the dialog
   * is offered. The scheduler runs exactly its start batch (see
   * `Dispatch.SendInBatches`), so each run adds the start batch it was given.
   */
  function RunBatchesAsWritten(total: nat, presses: nat): (r: seq<int>)
    requires total >= 1
    ensures 1 <= |r| <= presses + 1
    decreases presses
  {
    if presses == 0 then [1]
    else
      var prev := RunBatchesAsWritten(total, presses - 1);
      var last := prev[|prev| - 1];
      if OffersContinue(last, total) then prev + [ResumeBatchAsWritten(last)] else prev
  }

  /** The same session with the corrected handler. */
  function RunBatches(total: nat, presses: nat): (r: seq<int>)
    requires total >= 1
    ensures 1 <= |r| <= presses + 1
    decreases presses
  {
    if presses == 0 then [1]
    else
      var prev := RunBatches(total, presses - 1);
      var last := prev[|prev| - 1];
      if OffersContinue(last, total) then prev + [ResumeBatch(last)] else prev
  }

  /**
   * As written, with two or more batches, every press of "Continuar" runs
   * batch 1 again: batch 2 is never sent, however often the user continues.
   */
  lemma {:induction false} AsWrittenNeverAdvances(total: nat, presses: nat)
    requires total >= 2
    ensures RunBatchesAsWritten(total, presses) == seq(presses + 1, _ => 1)
    ensures 2 !in RunBatchesAsWritten(total, presses)
    decreases presses
  {
    if presses > 0 {
      AsWrittenNeverAdvances(total, presses - 1);
    }
  }

  /**
   * Corrected, the session runs batches 1, 2, 3, ... in order, one per
   * press, and stops offering to continue after the last batch: after
   * `total - 1` presses every batch has run exactly once.
   */
  lemma {:induction false} ResumeAdvances(total: nat, presses: nat)
    requires total >= 1
    ensures var n := if presses < total then presses + 1 else total;
            RunBatches(total, presses) == seq(n, k => k + 1)
    decreases presses
  {
    if presses > 0 {
      ResumeAdvances(total, presses - 1);
    }
  }

  predicate InBatch(n: nat, size: nat, b: int, i: int)
  {
    BatchStart(b, size) <= i < BatchEnd(n, b, size)
  }

  /**
   * With the corrected handler, a full session over `n` records (a start
   * and one press per remaining batch) sends every record in exactly one
   * run.
   */
  lemma SessionSendsEveryRecordOnce(n: nat, size: nat, i: nat)
    requires size >= 1
    requires i < n
    ensures var total := TotalBatches(n, size);
            total >= 1 &&
            var runs := RunBatches(total, total - 1);
            && (exists k :: 0 <= k < |runs| && InBatch(n, size, runs[k], i))
            && (forall k1, k2 ::
                  (0 <= k1 < |runs| && 0 <= k2 < |runs| && InBatch(n, size, runs[k1], i) && InBatch(n, size, runs[k2], i))
                  ==> k1 == k2)
  {
    var total := TotalBatches(n, size);
    BatchesCover(n, size, i);
    ResumeAdvances(total, total - 1);
    var runs := RunBatches(total, total - 1);
    var b := BatchOf(i, size);
    assert runs[b - 1] == b;
    assert InBatch(n, size, runs[b - 1], i);
    forall k1, k2 | 0 <= k1 < |runs| && 0 <= k2 < |runs| && InBatch(n, size, runs[k1], i) && InBatch(n, size, runs[k2], i)
      ensures k1 == k2
    {
      BatchesDisjoint(n, size, runs[k1], runs[k2], i);
    }
  }
}
