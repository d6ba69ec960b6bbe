/**
 * One node of the polling chat: the mailbox and flags it shares between its
 * threads, and one pass of each thread's loop.
 */
module Chat {
  import opened Chars
  import opened LineAssembly
  import opened LineReaders
  import opened Uart
  import opened Gate

  /** The command word a peer sends to blink the red LED. */
  const Red: seq<byte> := [114, 101, 100]

  /** What the receive loop does with UART1 in one pass. */
  datatype PeerEvent =
    | NoPeerLine
      /** A line from the other node: `text` is what is displayed, `red` whether it was the command. */
    | PeerLine(text: seq<byte>, red: bool)

  /** The two `atomic_t` globals shared by the threads, read and written as plain fields. */
  class Shared {
    /** `g_channel_occupied`: a character was seen on UART1 since the transmitter last cleared it. */
    var channelOccupied: bool
    /** `g_message_ready`: a console line waits in the mailbox. */
    var messageReady: bool

    constructor ()
      ensures !channelOccupied && !messageReady
    {
      channelOccupied := false;
      messageReady := false;
    }
  }

  class Node {
    /** `g_user_message`: the console reader's buffer, read directly by the transmitter. */
    const userMessage: array<byte>
    /** `rx_data_mcu`: the receive loop's buffer for lines from the other node. */
    const rxData: array<byte>
    /** The state of `uart0_read_line` (the terminal) and of `uart1_read_line` (the other node). */
    const console: LineReader
    const peer: LineReader
    const flags: Shared

    ghost predicate Valid()
      reads this, console, peer, userMessage, rxData
    {
      userMessage.Length == MsgSize && rxData.Length == MsgSize &&
      console.buf == userMessage && console.len == MsgSize &&
      peer.buf == rxData && peer.len == MsgSize &&
      console != peer && userMessage != rxData &&
      console.Valid() && peer.Valid() &&
      // no character is ever stored in the last cell, so the mailbox always holds a C string
      userMessage[MsgSize - 1] == NUL &&
      // the console reader stores only non-terminators and NUL, so no CR or LF reaches the mailbox
      NoTerminator(userMessage[..])
    }

    /** Start-up: both flags clear, the mailbox zeroed, `rx_data_mcu` holding whatever `rxStack` says. */
    constructor (rxStack: seq<byte>)
      requires |rxStack| == MsgSize
      ensures Valid()
      ensures fresh(userMessage) && fresh(rxData) && fresh(console) && fresh(peer) && fresh(flags)
      ensures !flags.channelOccupied && !flags.messageReady
      ensures userMessage[..] == seq(MsgSize, _ => NUL) && rxData[..] == rxStack
      ensures console.polls == [] && peer.polls == []
    {
      var mailbox := new byte[MsgSize](_ => NUL);
      var rx := new byte[MsgSize](i requires 0 <= i < MsgSize => rxStack[i]);
      userMessage := mailbox;
      rxData := rx;
      console := new LineReader(mailbox, MsgSize);
      peer := new LineReader(rx, MsgSize);
      flags := new Shared();
    }

    /** `uart0_read_line`: the console line is assembled directly in the mailbox. */
    method Uart0ReadLine(c: Option<byte>) returns (done: bool)
      requires Valid()
      modifies console, userMessage
      ensures Valid()
      ensures done <==> c.Some? && IsTerminator(c.value) && old(console.pos) > 0
      ensures done ==> userMessage[..] == old(userMessage[..])[old(console.pos) := NUL]
      ensures old(console.Accepts(c)) ==> userMessage[..] == old(userMessage[..])[old(console.pos) := c.value]
      ensures !done && !old(console.Accepts(c)) ==> userMessage[..] == old(userMessage[..])
      ensures var f := Absorb(old(console.Pending()), MsgSize - 1, c);
              console.Pending() == f.pending && console.lines == old(console.lines) + Delivered(f)
      ensures done ==> console.lines != [] && CString(userMessage[..]) == CString(console.lines[|console.lines| - 1])
      ensures console.polls == old(console.polls) + [c]
    {
      ghost var line := console.Pending();
      ghost var after := userMessage[console.pos + 1..];
      done := console.Step(c);
      if done {
        assert userMessage[..] == line + [NUL] + after;
        CStringTruncates(line, after);
      }
    }

    /** `uart1_read_line`: every character received marks the channel occupied, then it is assembled. */
    method Uart1ReadLine(c: Option<byte>) returns (done: bool)
      requires Valid()
      modifies flags, peer, rxData
      ensures Valid()
      ensures flags.channelOccupied == (old(flags.channelOccupied) || c.Some?)
      ensures flags.messageReady == old(flags.messageReady)
      ensures done <==> c.Some? && IsTerminator(c.value) && old(peer.pos) > 0
      ensures done ==> rxData[..] == old(rxData[..])[old(peer.pos) := NUL]
      ensures old(peer.Accepts(c)) ==> rxData[..] == old(rxData[..])[old(peer.pos) := c.value]
      ensures !done && !old(peer.Accepts(c)) ==> rxData[..] == old(rxData[..])
      ensures var f := Absorb(old(peer.Pending()), MsgSize - 1, c);
              peer.Pending() == f.pending && peer.lines == old(peer.lines) + Delivered(f)
      ensures done ==> peer.lines != [] && CString(rxData[..]) == CString(peer.lines[|peer.lines| - 1])
      ensures peer.polls == old(peer.polls) + [c]
    {
      if c.Some? {
        flags.channelOccupied := true;
      }
      ghost var line := peer.Pending();
      ghost var after := rxData[peer.pos + 1..];
      done := peer.Step(c);
      if done {
        assert rxData[..] == line + [NUL] + after;
        CStringTruncates(line, after);
      }
    }

    /** The UART0 block of a `receive_thread` pass: a completed terminal line raises the ready flag. */
    method PollConsole(c0: Option<byte>) returns (userLine: bool)
      requires Valid()
      modifies flags, console, userMessage
      ensures Valid()
      ensures userLine <==> c0.Some? && IsTerminator(c0.value) && old(console.pos) > 0
      ensures flags.messageReady == (old(flags.messageReady) || userLine)
      ensures flags.channelOccupied == old(flags.channelOccupied)
      ensures var f := Absorb(old(console.Pending()), MsgSize - 1, c0);
              console.Pending() == f.pending && console.lines == old(console.lines) + Delivered(f)
      ensures console.polls == old(console.polls) + [c0]
      ensures userLine ==> userMessage[..] == old(userMessage[..])[old(console.pos) := NUL]
      ensures old(console.Accepts(c0)) ==> userMessage[..] == old(userMessage[..])[old(console.pos) := c0.value]
      ensures !userLine && !old(console.Accepts(c0)) ==> userMessage[..] == old(userMessage[..])
      ensures userLine ==> CString(userMessage[..]) == CString(console.lines[|console.lines| - 1])
    {
      userLine := Uart0ReadLine(c0);
      if userLine {
        flags.messageReady := true;
      }
    }

    /** The UART1 block of a `receive_thread` pass: a completed peer line is displayed and compared with "red". */
    method PollPeer(c1: Option<byte>) returns (event: PeerEvent)
      requires Valid()
      modifies flags, peer, rxData
      ensures Valid()
      ensures flags.channelOccupied == (old(flags.channelOccupied) || c1.Some?)
      ensures flags.messageReady == old(flags.messageReady)
      ensures var f := Absorb(old(peer.Pending()), MsgSize - 1, c1);
              peer.Pending() == f.pending && peer.lines == old(peer.lines) + Delivered(f)
      ensures peer.polls == old(peer.polls) + [c1]
      ensures event.PeerLine? ==> rxData[..] == old(rxData[..])[old(peer.pos) := NUL]
      ensures old(peer.Accepts(c1)) ==> rxData[..] == old(rxData[..])[old(peer.pos) := c1.value]
      ensures event.NoPeerLine? && !old(peer.Accepts(c1)) ==> rxData[..] == old(rxData[..])
      ensures event.PeerLine? <==> |peer.lines| > old(|peer.lines|)
      ensures event.PeerLine? ==>
                (event.text == CString(peer.lines[|peer.lines| - 1]) && (event.red <==> event.text == Red))
    {
      var peerLine := Uart1ReadLine(c1);
      event := NoPeerLine;
      if peerLine {
        var text := CString(rxData[..]);
        event := PeerLine(text, text == Red);
      }
    }

    /**
     * One pass of `receive_thread`: `c0` and `c1` are what UART0 and UART1 returned.
     * A completed console line raises the ready flag; a completed peer line is
     * displayed up to its first NUL and compared with "red".
     */
    method ReceiveIteration(c0: Option<byte>, c1: Option<byte>) returns (userLine: bool, event: PeerEvent)
      requires Valid()
      modifies flags, console, peer, userMessage, rxData
      ensures Valid()
      ensures userLine <==> c0.Some? && IsTerminator(c0.value) && old(console.pos) > 0
      ensures flags.messageReady == (old(flags.messageReady) || userLine)
      ensures flags.channelOccupied == (old(flags.channelOccupied) || c1.Some?)
      ensures var f := Absorb(old(console.Pending()), MsgSize - 1, c0);
              console.Pending() == f.pending && console.lines == old(console.lines) + Delivered(f)
      ensures var f := Absorb(old(peer.Pending()), MsgSize - 1, c1);
              peer.Pending() == f.pending && peer.lines == old(peer.lines) + Delivered(f)
      ensures console.polls == old(console.polls) + [c0] && peer.polls == old(peer.polls) + [c1]
      ensures userLine ==> userMessage[..] == old(userMessage[..])[old(console.pos) := NUL]
      ensures old(console.Accepts(c0)) ==> userMessage[..] == old(userMessage[..])[old(console.pos) := c0.value]
      ensures !userLine && !old(console.Accepts(c0)) ==> userMessage[..] == old(userMessage[..])
      ensures userLine ==> CString(userMessage[..]) == CString(console.lines[|console.lines| - 1])
      ensures event.PeerLine? ==> rxData[..] == old(rxData[..])[old(peer.pos) := NUL]
      ensures old(peer.Accepts(c1)) ==> rxData[..] == old(rxData[..])[old(peer.pos) := c1.value]
      ensures event.NoPeerLine? && !old(peer.Accepts(c1)) ==> rxData[..] == old(rxData[..])
      ensures event.PeerLine? <==> |peer.lines| > old(|peer.lines|)
      ensures event.PeerLine? ==>
                (event.text == CString(peer.lines[|peer.lines| - 1]) && (event.red <==> event.text == Red))
    {
      ghost var peerLines, peerPending, received := peer.lines, peer.Pending(), rxData[..];
      userLine := PollConsole(c0);
      assert peer.lines == peerLines && peer.Pending() == peerPending && rxData[..] == received;
      ghost var consoleLines, consolePending, mailbox := console.lines, console.Pending(), userMessage[..];
      event := PollPeer(c1);
      assert console.lines == consoleLines && console.Pending() == consolePending && userMessage[..] == mailbox;
    }

    /** `memcpy(msg_to_send, g_user_message, MSG_SIZE)`: a fresh copy of the whole mailbox. */
    method CopyMailbox() returns (copy: array<byte>)
      requires Valid()
      ensures fresh(copy) && copy[..] == userMessage[..]
    {
      copy := new byte[MsgSize];
      forall i | 0 <= i < MsgSize {
        copy[i] := userMessage[i];
      }
    }

    /**
     * One pass of `transmit_thread`. `arrivedInWindow` says whether a character
     * came in on UART1 (so the receive loop raised the occupancy flag) during
     * the sense window. `asWritten` is what `print_uart` puts on UART1; `wire`
     * is the corrected transmission, the same bytes followed by a line feed.
     */
    method TransmitIteration(arrivedInWindow: bool) returns (result: TxResult, asWritten: seq<byte>, wire: seq<byte>)
      requires Valid()
      modifies flags
      ensures Valid()
      ensures result == Idle <==> !old(flags.messageReady)
      ensures result == Collision <==> old(flags.messageReady) && arrivedInWindow
      ensures asWritten == if result == Sent then TransmissionAsWritten(userMessage[..]) else []
      ensures NoTerminator(asWritten)
      ensures wire == if result == Sent then Transmission(userMessage[..]) else []
      ensures result == Sent ==> wire == asWritten + [LF]
      ensures !flags.messageReady
      ensures flags.channelOccupied == if old(flags.messageReady) then arrivedInWindow else old(flags.channelOccupied)
    {
      result, asWritten, wire := Idle, [], [];
      if flags.messageReady {
        var msgToSend := CopyMailbox();
        flags.messageReady := false;
        flags.channelOccupied := false;
        if arrivedInWindow {
          flags.channelOccupied := true;
        }
        if !flags.channelOccupied {
          asWritten := PrintUart(msgToSend);
          assert asWritten == TransmissionAsWritten(userMessage[..]);
          CStringNoTerminator(userMessage[..]);
          wire := asWritten + [LF];
          result := Sent;
        } else {
          result := Collision;
        }
      }
    }
  }

  /** A pass in which the terminal delivers a character that fits and UART1 stays silent. */
  method Keystroke(node: Node, ch: byte)
    requires node.Valid() && !IsTerminator(ch) && |node.console.Pending()| < MsgSize - 1
    modifies node.flags, node.console, node.peer, node.userMessage, node.rxData
    ensures node.Valid() && node.flags.messageReady == old(node.flags.messageReady)
    ensures node.console.Pending() == old(node.console.Pending()) + [ch]
    ensures node.userMessage[..] == old(node.userMessage[..])[old(|node.console.Pending()|) := ch]
  {
    var typed, event := node.ReceiveIteration(Some(ch), None);
  }

  /** A pass in which the terminal delivers Enter after a non-empty line and UART1 stays silent. */
  method Enter(node: Node)
    requires node.Valid() && node.console.Pending() != []
    modifies node.flags, node.console, node.peer, node.userMessage, node.rxData
    ensures node.Valid() && node.flags.messageReady && node.console.Pending() == []
    ensures node.userMessage[..] == old(node.userMessage[..])[old(|node.console.Pending()|) := NUL]
  {
    var typed, event := node.ReceiveIteration(Some(CR), None);
  }

  /** The terminal types `h` and `i`, one pass each, into an empty line. */
  method TypeHi(node: Node)
    requires node.Valid() && node.console.Pending() == [] && node.userMessage[2] == NUL
    modifies node.flags, node.console, node.peer, node.userMessage, node.rxData
    ensures node.Valid() && node.flags.messageReady == old(node.flags.messageReady)
    ensures node.console.Pending() == [104, 105] && node.userMessage[1] == 105 && node.userMessage[2] == NUL
  {
    Keystroke(node, 104);
    Keystroke(node, 105);
  }

  /**
   * The terminal types `hi`, Enter and `x`, one pass each, while the transmitter
   * has not yet consumed the mailbox: the ready flag is up and the `x` has
   * overwritten the first character of the line waiting in the mailbox.
   */
  method TypeHiThenX(node: Node)
    requires node.Valid() && node.console.Pending() == [] && node.userMessage[2] == NUL
    modifies node.flags, node.console, node.peer, node.userMessage, node.rxData
    ensures node.Valid() && node.flags.messageReady
    ensures node.userMessage[..3] == [120, 105, NUL]
  {
    TypeHi(node);
    Enter(node);
    Keystroke(node, 120);
  }

  /** The mailbox race from start-up: the transmitter then sends `xi`, not the line `hi` that was entered. */
  method MailboxOverwritten(rxStack: seq<byte>) returns (sent: seq<byte>)
    requires |rxStack| == MsgSize
    ensures sent == [120, 105]
  {
    var node := new Node(rxStack);
    TypeHiThenX(node);
    CStringAt(node.userMessage[..], 2);
    var result, wire;
    result, sent, wire := node.TransmitIteration(false);
  }

  /** The "red" command matches exactly the line "red" (for a line holding no NUL). */
  lemma RedCommandIsExactLine(line: seq<byte>, rest: seq<byte>)
    requires NUL !in line
    ensures CString(line + [NUL] + rest) == Red <==> line == Red
  {
    CStringTruncates(line, rest);
    CStringWhole(line);
  }

  /**
   * A line typed on one node's terminal, once consumed by its transmitter with
   * a clear window, is delivered intact by a fresh reader on the other node.
   */
  lemma RelayedLineDelivered(typed: seq<Option<byte>>, mailbox: seq<byte>)
    requires var ls := Lines(Received(typed), MsgSize - 1);
             (ls != [] && NUL !in ls[|ls| - 1] && CString(mailbox) == CString(ls[|ls| - 1]))
    ensures var ls := Lines(Received(typed), MsgSize - 1);
            Run([], MsgSize - 1, Polled(Transmission(mailbox))) == Transcript([], [ls[|ls| - 1]])
  {
    var ls := Lines(Received(typed), MsgSize - 1);
    var line := ls[|ls| - 1];
    LinesWellFormed(Received(typed), MsgSize - 1);
    assert line in ls;
    CStringWhole(line);
    TransmissionDelivered(MsgSize - 1, mailbox);
  }
}
