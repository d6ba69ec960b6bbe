/** The polled line readers `uart0_read_line` and `uart1_read_line`. */
module LineReaders {
  import opened Chars
  import opened LineAssembly

  /**
   * The state behind one line-reading function: its `static int pos` and the
   * caller's buffer `buf` of size `len` (each caller always passes the same
   * buffer and size). Characters accumulate in `buf[..pos]`; a CR or LF ends a
   * non-empty line, which is NUL-terminated in place.
   */
  class LineReader {
    const buf: array<byte>
    const len: nat
    var pos: int
    /** Every poll result fed so far, and every line delivered so far. */
    ghost var polls: seq<Option<byte>>
    ghost var lines: seq<seq<byte>>

    ghost predicate Valid()
      reads this, buf
    {
      1 <= len <= buf.Length &&
      0 <= pos <= len - 1 &&
      Run([], len - 1, polls) == Transcript(buf[..pos], lines)
    }

    /** The characters accepted since the last completed line, in arrival order. */
    function Pending(): seq<byte>
      reads this, buf
      requires Valid()
    {
      buf[..pos]
    }

    /** `static int pos = 0`; `len == 0` is excluded because `len - 1` would wrap in `size_t`. */
    constructor (buf: array<byte>, len: nat)
      requires 1 <= len <= buf.Length
      ensures Valid()
      ensures this.buf == buf && this.len == len
      ensures pos == 0 && polls == [] && lines == []
    {
      this.buf := buf;
      this.len := len;
      pos := 0;
      polls := [];
      lines := [];
    }

    /** Whether the character `c` is stored: it is not a terminator and there is room. */
    predicate Accepts(c: Option<byte>)
      reads this
    {
      c.Some? && !IsTerminator(c.value) && pos < len - 1
    }

    /** One call of the reader, `c` being what `uart_poll_in` returned; `done` is its return value. */
    method Step(c: Option<byte>) returns (done: bool)
      requires Valid()
      modifies this, buf
      ensures Valid()
      ensures done <==> c.Some? && IsTerminator(c.value) && old(pos) > 0
      ensures done ==> pos == 0 && buf[..] == old(buf[..])[old(pos) := NUL]
      ensures old(Accepts(c)) ==> pos == old(pos) + 1 && buf[..] == old(buf[..])[old(pos) := c.value]
      ensures !done && !old(Accepts(c)) ==> pos == old(pos) && buf[..] == old(buf[..])
      ensures var f := Absorb(old(Pending()), len - 1, c);
              Pending() == f.pending && lines == old(lines) + Delivered(f)
      ensures polls == old(polls) + [c]
    {
      ghost var before := buf[..pos];
      RunSnoc([], len - 1, polls, c);
      done := false;
      if c.Some? {
        var ch := c.value;
        if IsTerminator(ch) {
          if pos > 0 {
            buf[pos] := NUL;
            pos := 0;
            done := true;
          }
        } else if pos < len - 1 {
          buf[pos] := ch;
          pos := pos + 1;
          assert buf[..pos] == before + [ch];
        }
      }
      polls := polls + [c];
      lines := lines + Delivered(Absorb(before, len - 1, c));
    }
  }

  /** Whatever the polls, a reader only ever delivers the lines of the stream it received. */
  lemma ReaderDeliversLines(r: LineReader)
    requires r.Valid()
    ensures r.lines == Lines(Received(r.polls), r.len - 1)
    ensures r.Pending() == Take(Tail(Received(r.polls)), r.len - 1)
  {
    ReaderTranscript(r.len - 1, r.polls);
  }
}
