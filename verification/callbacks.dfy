/**
 * The two broadcast receivers of the application: the "sent" acknowledgement
 * and the "delivered" acknowledgement, each carrying the record index as its
 * correlation token and a platform result code.
 *
 * The record list is threaded explicitly instead of living in a process-wide
 * mutable list; a callback is a pure step from one list to the next.
 */
module Callbacks {
  import opened Records

  // Platform result codes, with the values the Android platform gives them.
  const ResultOk: int := -1               // Activity.RESULT_OK
  const ResultCanceled: int := 0          // Activity.RESULT_CANCELED
  const ErrorGenericFailure: int := 1     // SmsManager.RESULT_ERROR_GENERIC_FAILURE
  const ErrorRadioOff: int := 2           // SmsManager.RESULT_ERROR_RADIO_OFF
  const ErrorNullPdu: int := 3            // SmsManager.RESULT_ERROR_NULL_PDU
  const ErrorNoService: int := 4          // SmsManager.RESULT_ERROR_NO_SERVICE

  /** The status the "sent" receiver assigns for a result code. */
  function SentStatus(code: int): (s: Status)
    ensures s == Sent <==> code == ResultOk
    ensures s.Error? <==> code != ResultOk
    ensures s == Error("Desconocido") <==>
              code !in {ResultOk, ErrorGenericFailure, ErrorNoService, ErrorNullPdu, ErrorRadioOff}
    ensures Settled(s)
  {
    if code == ResultOk then Sent
    else if code == ErrorGenericFailure then Error("Fallo genérico")
    else if code == ErrorNoService then Error("Sin servicio")
    else if code == ErrorNullPdu then Error("PDU nulo")
    else if code == ErrorRadioOff then Error("Radio apagado")
    else Error("Desconocido")
  }

  predicate InRange(store: seq<Record>, index: int)
  {
    0 <= index < |store|
  }

  /**
   * The "sent" receiver. An index outside the list is ignored; otherwise the
   * record's status is set from the result code alone, whatever it was
   * before, and its timestamp is set to `at`.
   */
  function OnSent(store: seq<Record>, index: int, code: int, at: string): (r: seq<Record>)
    ensures |r| == |store|
    ensures !InRange(store, index) ==> r == store
    ensures InRange(store, index) ==>
              && r[index].status == SentStatus(code)
              && r[index].timestamp == at
              && r[index].phone == store[index].phone
              && r[index].message == store[index].message
    ensures forall j :: 0 <= j < |store| && j != index ==> r[j] == store[j]
  {
    if InRange(store, index) then
      store[index := store[index].(status := SentStatus(code), timestamp := at)]
    else
      store
  }

  /**
   * The "delivered" receiver. It acts only on a record whose status is
   * exactly "Enviado", moving it to "Entregado" on RESULT_OK and to
   * "No entregado" on RESULT_CANCELED; it never touches a timestamp.
   */
  function OnDelivered(store: seq<Record>, index: int, code: int): (r: seq<Record>)
    ensures |r| == |store|
    ensures r != store ==>
              && InRange(store, index)
              && store[index].status == Sent
              && (code == ResultOk || code == ResultCanceled)
    ensures InRange(store, index) && store[index].status == Sent && code == ResultOk ==>
              r[index] == store[index].(status := Delivered)
    ensures InRange(store, index) && store[index].status == Sent && code == ResultCanceled ==>
              r[index] == store[index].(status := NotDelivered)
    ensures forall j :: 0 <= j < |store| && j != index ==> r[j] == store[j]
  {
    if InRange(store, index) && store[index].status == Sent then
      if code == ResultOk then store[index := store[index].(status := Delivered)]
      else if code == ResultCanceled then store[index := store[index].(status := NotDelivered)]
      else store
    else
      store
  }

  /** An acknowledgement broadcast, as it reaches the application. */
  datatype Event =
    | SentReport(index: int, code: int, at: string)
    | DeliveryReport(index: int, code: int)

  function Apply(store: seq<Record>, e: Event): seq<Record>
  {
    match e
    case SentReport(index, code, at) => OnSent(store, index, code, at)
    case DeliveryReport(index, code) => OnDelivered(store, index, code)
  }

  /** Applies a run of acknowledgements in arrival order. */
  function ApplyAll(store: seq<Record>, events: seq<Event>): (r: seq<Record>)
    ensures |r| == |store|
    decreases |events|
  {
    if |events| == 0 then store
    else ApplyAll(Apply(store, events[0]), events[1..])
  }

  /**
   * No acknowledgement ever takes a record back to a waiting status: a
   * settled record stays settled, and the phone number and message of every
   * record are left alone.
   */
  lemma ApplyKeepsSettled(store: seq<Record>, e: Event, j: int)
    requires 0 <= j < |store|
    ensures |Apply(store, e)| == |store|
    ensures Settled(store[j].status) ==> Settled(Apply(store, e)[j].status)
    ensures Apply(store, e)[j].phone == store[j].phone
    ensures Apply(store, e)[j].message == store[j].message
  {
  }

  lemma {:induction false} ApplyAllKeepsSettled(store: seq<Record>, events: seq<Event>, j: int)
    requires 0 <= j < |store|
    ensures Settled(store[j].status) ==> Settled(ApplyAll(store, events)[j].status)
    ensures ApplyAll(store, events)[j].phone == store[j].phone
    ensures ApplyAll(store, events)[j].message == store[j].message
    decreases |events|
  {
    if |events| > 0 {
      ApplyKeepsSettled(store, events[0], j);
      ApplyAllKeepsSettled(Apply(store, events[0]), events[1..], j);
    }
  }

  /** An acknowledgement whose token is not `j` leaves record `j` as it was. */
  predicate Targets(e: Event, j: int)
  {
    e.index == j
  }

  lemma {:induction false} ApplyAllUntargeted(store: seq<Record>, events: seq<Event>, j: int)
    requires 0 <= j < |store|
    requires forall k :: 0 <= k < |events| ==> !Targets(events[k], j)
    ensures ApplyAll(store, events)[j] == store[j]
    decreases |events|
  {
    if |events| > 0 {
      ApplyAllUntargeted(Apply(store, events[0]), events[1..], j);
    }
  }

  /** The status a "sent" acknowledgement leaves does not depend on the status it finds. */
  lemma SentIgnoresPriorStatus(store: seq<Record>, index: int, code: int, at: string, prior: Status)
    requires InRange(store, index)
    ensures OnSent(store[index := store[index].(status := prior)], index, code, at) == OnSent(store, index, code, at)
  {
  }

  /**
   * As written, a late "sent" acknowledgement overwrites a record that was
   * already delivered: "Entregado" becomes an error.
   */
  lemma SentOverwritesDelivered(r: Record, at: string)
    requires r.status == Delivered
    ensures OnSent([r], 0, ErrorGenericFailure, at)[0].status == Error("Fallo genérico")
  {
  }

  /** A "delivered" acknowledgement for a record that failed to send is ignored. */
  lemma DeliveredAfterSendErrorIgnored(store: seq<Record>, index: int, code: int, at: string, delivery: int)
    requires InRange(store, index)
    requires code != ResultOk
    ensures OnDelivered(OnSent(store, index, code, at), index, delivery) == OnSent(store, index, code, at)
  {
  }

  /**
   * Once a delivery outcome (RESULT_OK or RESULT_CANCELED) has been applied,
   * a further "delivered" acknowledgement for the same record has no effect.
   */
  lemma DeliveredAtMostOnce(store: seq<Record>, index: int, code1: int, code2: int)
    requires code1 == ResultOk || code1 == ResultCanceled
    ensures OnDelivered(OnDelivered(store, index, code1), index, code2) == OnDelivered(store, index, code1)
  {
    var once := OnDelivered(store, index, code1);
    if once != store {
      assert once[index].status != Sent;
    }
  }
}
