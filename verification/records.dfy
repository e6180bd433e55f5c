/**
 * The dispatch record of the bulk SMS sender and the vocabulary of its status.
 *
 * The application keeps each status as a display string. Here the status is a
 * datatype, and `StatusText` gives the exact string the application shows,
 * stores and writes into its report.
 */
module Records {
  import opened Options

  /** Lifecycle of one message. */
  datatype Status =
    | Pending                // "Pendiente": loaded, not yet handed to the radio
    | Sending                // "Enviando...": handed to the radio, no acknowledgement yet
    | Sent                   // "Enviado": the radio acknowledged the send
    | Delivered              // "Entregado": the carrier confirmed delivery
    | NotDelivered           // "No entregado": the carrier reported non-delivery
    | Error(reason: string)  // "Error: <reason>"

  /** One recipient/message pair with its status and the time of its last stamped change. */
  datatype Record = Record(phone: string, message: string, status: Status, timestamp: string)

  /** A freshly loaded record: status "Pendiente" and an empty timestamp. */
  function NewRecord(phone: string, message: string): Record
  {
    Record(phone, message, Pending, "")
  }

  const ErrorPrefix: string := "Error: "

  /** The display string the application stores for a status. */
  function StatusText(s: Status): string
  {
    match s
    case Pending => "Pendiente"
    case Sending => "Enviando..."
    case Sent => "Enviado"
    case Delivered => "Entregado"
    case NotDelivered => "No entregado"
    case Error(reason) => ErrorPrefix + reason
  }

  /** Reads a status back from its display string. */
  function ParseStatus(t: string): Option<Status>
  {
    if t == "Pendiente" then Some(Pending)
    else if t == "Enviando..." then Some(Sending)
    else if t == "Enviado" then Some(Sent)
    else if t == "Entregado" then Some(Delivered)
    else if t == "No entregado" then Some(NotDelivered)
    else if |t| >= |ErrorPrefix| && t[..|ErrorPrefix|] == ErrorPrefix then Some(Error(t[|ErrorPrefix|..]))
    else None
  }

  /** Every status is recovered from its display string, so no two statuses share a string. */
  lemma StatusTextRoundTrip(s: Status)
    ensures ParseStatus(StatusText(s)) == Some(s)
  {
    if s.Error? {
      var t := StatusText(s);
      ErrorTextIsNoFixedText(s.reason);
      assert t[..|ErrorPrefix|] == ErrorPrefix;
      assert t[|ErrorPrefix|..] == s.reason;
    }
  }

  /** An error string begins with 'E' and so differs from the five fixed status strings. */
  lemma ErrorTextIsNoFixedText(reason: string)
    ensures ErrorPrefix + reason != "Pendiente"
    ensures ErrorPrefix + reason != "Enviando..."
    ensures ErrorPrefix + reason != "Enviado"
    ensures ErrorPrefix + reason != "Entregado"
    ensures ErrorPrefix + reason != "No entregado"
  {
    var t := ErrorPrefix + reason;
    assert t[0] == 'E' && t[1] == 'r';
    assert "Pendiente"[0] == 'P';
    assert "Enviando..."[1] == 'n';
    assert "Enviado"[1] == 'n';
    assert "Entregado"[1] == 'n';
    assert "No entregado"[0] == 'N';
  }

  lemma StatusTextInjective(a: Status, b: Status)
    ensures StatusText(a) == StatusText(b) <==> a == b
  {
    if StatusText(a) == StatusText(b) {
      StatusTextRoundTrip(a);
      StatusTextRoundTrip(b);
    }
  }

  /**
   * The completion test of the dispatch loop, on display strings: a status is
   * settled when it is neither "Pendiente" nor "Enviando...".
   */
  predicate SettledText(t: string)
  {
    t != "Pendiente" && t != "Enviando..."
  }

  /** A settled status no longer waits for the send step or for the send acknowledgement. */
  predicate Settled(s: Status)
  {
    !(s.Pending? || s.Sending?)
  }

  /** The application's string test singles out exactly the two waiting statuses. */
  lemma SettledIff(s: Status)
    ensures SettledText(StatusText(s)) <==> Settled(s)
  {
    if s.Error? {
      ErrorTextIsNoFixedText(s.reason);
    }
  }
}
