/**
 * What the line readers (`uart0_read_line`, `uart1_read_line`) compute, stated on
 * values: the characters pending since the last completed line, and the lines
 * delivered so far. `limit` is `len - 1`, the most characters a line can keep.
 */
module LineAssembly {
  import opened Chars

  /** The effect of one poll: the new pending characters and the line completed, if any. */
  datatype Feed = Feed(pending: seq<byte>, line: Option<seq<byte>>)

  /** What a whole sequence of polls leaves behind. */
  datatype Transcript = Transcript(pending: seq<byte>, lines: seq<seq<byte>>)

  /** One poll: store a character while there is room, complete a non-empty line on CR/LF. */
  function Absorb(pending: seq<byte>, limit: nat, c: Option<byte>): (r: Feed)
    ensures |pending| <= limit ==> |r.pending| <= limit
    ensures NoTerminator(pending) ==> NoTerminator(r.pending)
    ensures r.line.Some? ==> r.pending == [] && r.line.value == pending && pending != []
  {
    match c
    case None => Feed(pending, None)
    case Some(ch) =>
      if IsTerminator(ch) then
        if |pending| > 0 then Feed([], Some(pending)) else Feed(pending, None)
      else if |pending| < limit then Feed(pending + [ch], None)
      else Feed(pending, None)
  }

  function Delivered(f: Feed): seq<seq<byte>> {
    if f.line.Some? then [f.line.value] else []
  }

  /** Polls fed one at a time, starting from `pending`. */
  function Run(pending: seq<byte>, limit: nat, polls: seq<Option<byte>>): Transcript
    decreases |polls|
  {
    if polls == [] then Transcript(pending, [])
    else
      var f := Absorb(pending, limit, polls[0]);
      var rest := Run(f.pending, limit, polls[1..]);
      Transcript(rest.pending, Delivered(f) + rest.lines)
  }

  /** The characters that polls actually returned. */
  function Received(polls: seq<Option<byte>>): (s: seq<byte>)
    ensures |s| <= |polls|
  {
    if polls == [] then []
    else (if polls[0].Some? then [polls[0].value] else []) + Received(polls[1..])
  }

  // ---- Reference definition: split the whole character stream at once ----

  function Take(s: seq<byte>, n: nat): seq<byte> {
    if |s| <= n then s else s[..n]
  }

  /** Index of the first CR or LF in `s`, or `|s|` if there is none. */
  function TermIndex(s: seq<byte>): (i: nat)
    ensures i <= |s|
    ensures NoTerminator(s[..i])
    ensures i < |s| ==> IsTerminator(s[i])
  {
    if s == [] || IsTerminator(s[0]) then 0
    else
      var j := TermIndex(s[1..]);
      assert s[..j + 1] == [s[0]] + s[1..][..j];
      j + 1
  }

  /**
   * The lines in the stream `s`: every terminated segment, cut to `limit`
   * characters, and skipped when that leaves it empty.
   */
  function Lines(s: seq<byte>, limit: nat): seq<seq<byte>>
    decreases |s|
  {
    var i := TermIndex(s);
    if i == |s| then []
    else
      var line := Take(s[..i], limit);
      (if line == [] then [] else [line]) + Lines(s[i + 1..], limit)
  }

  /** The segment after the last terminator of `s`. */
  function Tail(s: seq<byte>): seq<byte>
    decreases |s|
  {
    var i := TermIndex(s);
    if i == |s| then s else Tail(s[i + 1..])
  }

  // ---- Lemmas ----

  lemma TermIndexAt(q: seq<byte>, rest: seq<byte>)
    requires NoTerminator(q)
    requires rest != [] ==> IsTerminator(rest[0])
    ensures TermIndex(q + rest) == |q|
    decreases |q|
  {
    if q != [] {
      assert (q + rest)[1..] == q[1..] + rest;
      TermIndexAt(q[1..], rest);
    }
  }

  lemma TakeNoTerminator(s: seq<byte>, n: nat)
    requires NoTerminator(s)
    ensures NoTerminator(Take(s, n))
  {
  }

  lemma TakeSnoc(q: seq<byte>, ch: byte, limit: nat)
    ensures Take(q + [ch], limit) == if |Take(q, limit)| < limit then Take(q, limit) + [ch] else Take(q, limit)
  {
  }

  /** A partial line `q` ended by a terminator: its kept part is a line, and splitting resumes after it. */
  lemma SplitAtTerminator(q: seq<byte>, ch: byte, r: seq<byte>, limit: nat)
    requires NoTerminator(q) && IsTerminator(ch)
    ensures Lines(q + [ch] + r, limit) == Kept(q, limit) + Lines(r, limit)
    ensures Tail(q + [ch] + r) == Tail(r)
  {
    var s := q + [ch] + r;
    TermIndexAt(q, [ch] + r);
    assert s == q + ([ch] + r);
    assert s[..|q|] == q;
    assert s[|q| + 1..] == r;
  }

  /** A stream without a terminator delivers nothing: its characters stay pending. */
  lemma UnterminatedDeliversNothing(s: seq<byte>, limit: nat)
    requires NoTerminator(s)
    ensures Lines(s, limit) == [] && Tail(s) == s
  {
  }

  /** The transcript the reference predicts for the whole stream `s`. */
  function Predicted(s: seq<byte>, limit: nat): Transcript {
    Transcript(Take(Tail(s), limit), Lines(s, limit))
  }

  /** The kept part of a partial line, as the list of lines it contributes when ended. */
  function Kept(q: seq<byte>, limit: nat): seq<seq<byte>> {
    var line := Take(q, limit);
    if line == [] then [] else [line]
  }

  /** A terminator after a partial line `q` delivers its kept part and restarts from nothing. */
  lemma TerminatorStep(q: seq<byte>, ch: byte, limit: nat, rest: seq<Option<byte>>)
    requires IsTerminator(ch)
    ensures var t := Run([], limit, rest);
            Run(Take(q, limit), limit, [Some(ch)] + rest) == Transcript(t.pending, Kept(q, limit) + t.lines)
  {
  }

  /** A character after a partial line `q` leaves the kept part of `q + [ch]` pending. */
  lemma CharStep(q: seq<byte>, ch: byte, limit: nat, rest: seq<Option<byte>>)
    requires !IsTerminator(ch)
    ensures Run(Take(q, limit), limit, [Some(ch)] + rest) == Run(Take(q + [ch], limit), limit, rest)
  {
    TakeSnoc(q, ch, limit);
    assert ([Some(ch)] + rest)[1..] == rest;
  }

  /**
   * Feeding polls one at a time, from a reader whose pending characters are the
   * first `limit` characters of a partial line `q`, yields exactly the lines and
   * the pending tail that splitting `q` followed by the received stream gives.
   */
  lemma {:induction false} RunMatchesLines(q: seq<byte>, limit: nat, polls: seq<Option<byte>>)
    requires NoTerminator(q)
    ensures Run(Take(q, limit), limit, polls) == Predicted(q + Received(polls), limit)
    decreases |polls|
  {
    if polls == [] {
      assert q + Received(polls) == q;
      UnterminatedDeliversNothing(q, limit);
    } else {
      var rest := polls[1..];
      var r := Received(rest);
      assert polls == [polls[0]] + rest;
      match polls[0]
      case None =>
        assert Received(polls) == r;
        RunMatchesLines(q, limit, rest);
      case Some(ch) =>
        assert q + Received(polls) == q + [ch] + r;
        if IsTerminator(ch) {
          RunMatchesLines([], limit, rest);
          assert [] + r == r;
          TerminatorStep(q, ch, limit, rest);
          SplitAtTerminator(q, ch, r, limit);
        } else {
          assert NoTerminator(q + [ch]);
          RunMatchesLines(q + [ch], limit, rest);
          CharStep(q, ch, limit, rest);
        }
    }
  }

  /** From a fresh reader: the delivered lines and the pending characters, by the reference. */
  lemma ReaderTranscript(limit: nat, polls: seq<Option<byte>>)
    ensures Run([], limit, polls) == Transcript(Take(Tail(Received(polls)), limit), Lines(Received(polls), limit))
  {
    RunMatchesLines([], limit, polls);
    assert Take([], limit) == [];
    assert [] + Received(polls) == Received(polls);
  }

  /** Feeding one more poll extends the run by exactly one step. */
  lemma {:induction false} RunSnoc(pending: seq<byte>, limit: nat, polls: seq<Option<byte>>, c: Option<byte>)
    ensures var t := Run(pending, limit, polls);
            var f := Absorb(t.pending, limit, c);
            Run(pending, limit, polls + [c]) == Transcript(f.pending, t.lines + Delivered(f))
    decreases |polls|
  {
    if polls == [] {
      assert [] + [c] == [c];
    } else {
      assert (polls + [c])[1..] == polls[1..] + [c];
      var f0 := Absorb(pending, limit, polls[0]);
      RunSnoc(f0.pending, limit, polls[1..], c);
    }
  }

  /** The characters of consecutive poll sequences are those of each, in order. */
  lemma {:induction false} ReceivedAppend(a: seq<Option<byte>>, b: seq<Option<byte>>)
    ensures Received(a + b) == Received(a) + Received(b)
    decreases |a|
  {
    if a == [] {
      assert a + b == b;
    } else {
      var head := if a[0].Some? then [a[0].value] else [];
      assert (a + b)[0] == a[0] && (a + b)[1..] == a[1..] + b;
      assert Received(a + b) == head + Received(a[1..] + b);
      ReceivedAppend(a[1..], b);
      assert Received(a) == head + Received(a[1..]);
    }
  }

  /** A poll that returned nothing contributes nothing, wherever it falls. */
  lemma EmptyPollIgnored(a: seq<Option<byte>>, b: seq<Option<byte>>)
    ensures Received(a + [None] + b) == Received(a + b)
  {
    ReceivedAppend(a, [None] + b);
    ReceivedAppend([None], b);
    ReceivedAppend(a, b);
    assert a + [None] + b == a + ([None] + b);
  }

  /** Every delivered line is non-empty, holds no terminator and at most `limit` characters. */
  lemma {:induction false} LinesWellFormed(s: seq<byte>, limit: nat)
    ensures forall l :: l in Lines(s, limit) ==> 0 < |l| <= limit && NoTerminator(l)
    decreases |s|
  {
    var i := TermIndex(s);
    if i < |s| {
      LinesWellFormed(s[i + 1..], limit);
      TakeNoTerminator(s[..i], limit);
    }
  }

  /** A line that fits, followed by CR/LF or by CR LF, is delivered intact and only once. */
  lemma ShortLineDelivered(w: seq<byte>, limit: nat, t: seq<byte>)
    requires NoTerminator(w) && 0 < |w| <= limit
    requires t == [LF] || t == [CR] || t == [CR, LF]
    ensures Lines(w + t, limit) == [w]
  {
    var r := t[1..];
    assert w + t == w + [t[0]] + r;
    SplitAtTerminator(w, t[0], r, limit);
    if r != [] {
      assert r == [] + [LF] + [];
      SplitAtTerminator([], LF, [], limit);
    }
  }

  /** With `len == 1` no character is ever kept, so no line is ever delivered. */
  lemma {:induction false} NoRoomNoLines(s: seq<byte>)
    ensures Lines(s, 0) == []
    decreases |s|
  {
    var i := TermIndex(s);
    if i < |s| {
      NoRoomNoLines(s[i + 1..]);
    }
  }
}
