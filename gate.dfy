/**
 * The carrier-sense decision of `transmit_thread` and what it puts on the
 * shared UART1 line, together with what the peer's line reader makes of it.
 */
module Gate {
  import opened Chars
  import opened LineAssembly

  datatype TxResult = Idle | Sent | Collision

  /** What line 150 puts on the wire as written: the C string of the message, unterminated. */
  function TransmissionAsWritten(message: seq<byte>): seq<byte> {
    CString(message)
  }

  /** The corrected transmission: the C string of the message followed by a line feed. */
  function Transmission(message: seq<byte>): seq<byte> {
    CString(message) + [LF]
  }

  /** Each byte sent, as the peer's polls see them arrive back to back. */
  function Polled(s: seq<byte>): (polls: seq<Option<byte>>)
    ensures Received(polls) == s
  {
    if s == [] then [] else [Some(s[0])] + Polled(s[1..])
  }

  /**
   * As written, a transmitted message never completes a line at the peer,
   * whatever partial line `q` the peer's reader already holds: it only grows
   * the peer's pending characters.
   */
  lemma AsWrittenNeverDelivered(q: seq<byte>, limit: nat, message: seq<byte>)
    requires NoTerminator(q) && NoTerminator(CString(message))
    ensures var t := Run(Take(q, limit), limit, Polled(TransmissionAsWritten(message)));
            t.lines == [] && t.pending == Take(q + CString(message), limit)
  {
    var w := CString(message);
    RunMatchesLines(q, limit, Polled(w));
    assert NoTerminator(q + w);
    UnterminatedDeliversNothing(q + w, limit);
  }

  /** Concretely: the user types "hi", the peer receives `h`, `i` and delivers no line. */
  lemma AsWrittenExample()
    ensures Run([], MsgSize - 1, Polled(TransmissionAsWritten([104, 105, NUL]))).lines == []
  {
    var message: seq<byte> := [104, 105, NUL];
    assert CString(message) == [104, 105] by { CStringAt(message, 2); }
    AsWrittenNeverDelivered([], MsgSize - 1, message);
  }

  /**
   * Corrected, a fresh peer reader delivers exactly the message that was sent,
   * once, and is left with nothing pending.
   */
  lemma TransmissionDelivered(limit: nat, message: seq<byte>)
    requires NoTerminator(CString(message)) && 0 < |CString(message)| <= limit
    ensures Run([], limit, Polled(Transmission(message))) == Transcript([], [CString(message)])
  {
    var w := CString(message);
    ReaderTranscript(limit, Polled(w + [LF]));
    ShortLineDelivered(w, limit, [LF]);
    SplitAtTerminator(w, LF, [], limit);
    assert w + [LF] == w + [LF] + [];
    TermIndexAt([], []);
  }
}
