# Polling CSMA/CD chat node: a Dafny model

This project models the core of `src/main.c`, a Zephyr program that links two
boards over a shared serial line (UART1) and lets a user on each board's
terminal (UART0) chat with the other board. It has three parts.

- **Line readers.** `uart0_read_line` and `uart1_read_line` each keep a
  `static int pos`. On every poll they store one character at `buf[pos]` while
  `pos < len - 1`, and drop characters when the buffer is full. A CR or LF
  completes the line when it is non-empty. The line is then NUL-terminated in
  place and `pos` is reset. A terminator that arrives with `pos == 0` is
  ignored, which covers the LF of a CRLF pair.
- **Carrier-sense transmit gate.** `transmit_thread` waits for
  `g_message_ready`. It then copies the mailbox `g_user_message`, clears the
  ready flag and the occupancy flag `g_channel_occupied`, and waits a 5 ms
  sense window. If no character came in on UART1 during the window, it sends
  the message with `print_uart`. Otherwise it reports a collision and drops
  the message.
- **Receive dispatch.** `receive_thread` polls both UARTs. A completed
  terminal line raises the ready flag. The line is assembled directly in the
  mailbox, which the transmitter reads. A completed line from the other board
  is displayed up to its first NUL. It is also compared with `"red"`, the one
  command the node knows.

The wire format is plain text: a line is its characters, ended by CR or LF.
The program has no framing, checksum or scheduling beyond the two polling
loops.

Files and modules:

- `chars.dfy` (`Chars`): the `byte` type, `'\r'`, `'\n'`, `NUL`, `MSG_SIZE`,
  and C strings (`CString`, the bytes before the first NUL).
- `uart.dfy` (`Uart`): `print_uart` as a method with the source's two loops,
  `strlen` and then the byte-by-byte output.
- `line_assembly.dfy` (`LineAssembly`): what a line reader computes, stated on
  values. `Absorb` is one poll and `Run` is a sequence of polls. `Lines` and
  `Tail` are an independent reference that splits the whole received stream
  at once. The lemmas prove that the two agree.
- `line_reader.dfy` (`LineReaders`): the class `LineReader`. It holds `pos`
  and the caller's buffer, and its `Step` is one call of a read-line function.
  Ghost fields record every poll and every delivered line. The class
  invariant ties them to `Run`.
- `gate.dfy` (`Gate`): what the transmitter puts on the wire, and what the
  other board's reader makes of it.
- `chat.dfy` (`Chat`): the class `Node`. It holds the mailbox, the receive
  buffer, the two reader states and the shared flags. It has one pass of each
  thread's loop. It also plays out the mailbox race as a sequence of passes.

Hardware access is abstracted. A `uart_poll_in` result is an
`Option<byte>` parameter. Bytes given to `uart_poll_out` on UART1 are
returned as a `seq<byte>`. Whether a character arrived on UART1 during the
sense window is a `bool` parameter of the transmit pass.

## Model

| member | source | states |
|---|---|---|
| `Chars.CString` | src/main.c:55 | The C string of a buffer is a prefix of it, contains no NUL, and is followed by a NUL whenever it is shorter than the buffer. |
| `Chars.CStringAt` | src/main.c:55-57 | If index `k` holds the first NUL, `strlen` is `k`: the C string is exactly `buf[..k]`. |
| `Chars.CStringTruncates` | src/main.c:81 | A line NUL-terminated in place reads, as a C string, the same whatever follows the NUL. |
| `Chars.CStringNoTerminator` | src/main.c:55 | The C string of a buffer with no CR or LF has none either. |
| `Chars.CStringWhole` | src/main.c:188 | A NUL-free line is its own C string, so `%s` shows all of it. |
| `Uart.PrintUart` | src/main.c:53-59 | `print_uart` emits exactly the bytes of the buffer before its first NUL, in index order, and nothing else. It needs a NUL inside the buffer. |
| `LineAssembly.Absorb` | src/main.c:75-89 | One poll keeps the pending characters within `len - 1` and free of terminators. A line is delivered only when non-empty, it is exactly the pending characters, and delivery empties them. |
| `LineAssembly.Received` | src/main.c:75 | The characters a sequence of polls returns are at most as many as the polls. |
| `LineAssembly.ReceivedAppend` | src/main.c:75 | The characters returned by two consecutive runs of polls are those of the first run followed by those of the second. |
| `LineAssembly.EmptyPollIgnored` | src/main.c:75 | A poll that returned nothing contributes no character, wherever it falls among the polls. |
| `LineAssembly.TermIndex` | src/main.c:79 | Finds the first CR or LF of a stream: none before it, and a terminator at it. |
| `LineAssembly.UnterminatedDeliversNothing` | src/main.c:79-87 | Characters with no CR or LF among them never complete a line. They all remain the pending segment. |
| `LineAssembly.SplitAtTerminator` | src/main.c:79-84 | A terminator after a partial line delivers that line's kept prefix, if non-empty. Splitting then resumes after the terminator. |
| `LineAssembly.TerminatorStep` | src/main.c:79-84 | A terminator delivers the kept pending characters, if any, and the reader goes on from an empty line. |
| `LineAssembly.CharStep` | src/main.c:85-87 | A non-terminator arriving after a partial line leaves pending the first `len - 1` characters of the longer line. |
| `LineAssembly.RunMatchesLines` | src/main.c:69-90 | Feeding polls one at a time, from any partial line, yields exactly the lines and pending tail of splitting the whole stream at once. Each terminated segment is cut to `len - 1` characters, and empty ones are skipped. |
| `LineAssembly.ReaderTranscript` | src/main.c:69-90 | From `pos == 0`, the delivered lines and the pending characters are those of the reference split of the received stream. |
| `LineAssembly.RunSnoc` | src/main.c:69-90 | One more poll extends a run by exactly one `Absorb` step. Successive calls therefore compose. |
| `LineAssembly.LinesWellFormed` | src/main.c:80-86 | Every delivered line is non-empty, holds no CR or LF, and holds at most `len - 1` characters. |
| `LineAssembly.ShortLineDelivered` | src/main.c:79-84 | A line that fits is delivered intact and once, whether it ends with CR, LF or CR LF. The second character of CR LF is ignored. |
| `LineAssembly.NoRoomNoLines` | src/main.c:80-85 | With `len == 1` no character is ever stored, so no line is ever delivered. |
| `LineReaders.LineReader.constructor` | src/main.c:71 | A reader starts with `pos == 0`, having read and delivered nothing. It requires `len >= 1`, because `len - 1` is computed in `size_t`. |
| `LineReaders.LineReader.Step` | src/main.c:69-90 | One call stores a non-terminator at `buf[pos]` and increments `pos` only when `pos < len - 1`. Otherwise it drops the character. On CR/LF with `pos > 0` it writes NUL at the old `pos`, resets `pos` and returns true. An empty poll or an empty line changes nothing. `0 <= pos <= len - 1` is kept. |
| `LineReaders.ReaderDeliversLines` | src/main.c:69-125 | Whatever was polled, a reader's delivered lines and pending characters are those of the reference split of the characters it received. This holds for either read-line function. |
| `Chat.Shared.constructor` | src/main.c:38-48 | Both shared flags start clear: `g_channel_occupied` (line 38) and `g_message_ready` (line 48). |
| `Chat.Node.constructor` | src/main.c:47-48 | The mailbox starts zeroed, both flags clear and both readers at `pos == 0`. The receive buffer holds arbitrary stack contents. |
| `Chat.Node.Uart0ReadLine` | src/main.c:69-90 | The terminal line is assembled in the mailbox itself. A stored character is written at the old `pos` of the mailbox. A completed line writes NUL there, and the mailbox's C string is then the new line's. Any other poll leaves the mailbox unchanged. |
| `Chat.Node.Uart1ReadLine` | src/main.c:99-125 | Every character received on UART1, whether terminator, stored or dropped, sets the occupancy flag. An empty poll leaves the flag as it was. The line is assembled in `rx_data_mcu` as on UART0: a stored character is written at the old `pos`, a completed line writes NUL there, and any other poll leaves the buffer unchanged. |
| `Chat.Node.PollConsole` | src/main.c:178-183 | The UART0 block of a receive pass. The ready flag is raised exactly when a terminal line completes and is otherwise left as it was. The occupancy flag is untouched. The terminal reader advances by one `Absorb` step, and the mailbox changes as in `uart0_read_line`. |
| `Chat.Node.PollPeer` | src/main.c:186-202 | The UART1 block of a receive pass. A peer line event occurs exactly when a line is delivered. Its text is that line up to its first NUL, and it is red exactly when the text is `"red"`. The occupancy flag is raised by any character, and the ready flag is untouched. |
| `Chat.Node.ReceiveIteration` | src/main.c:172-206 | A completed terminal line raises the ready flag. A completed peer line produces an event whose text is the line up to its first NUL, marked red exactly when that text is `"red"`. Both readers advance by one poll, with their pending characters and delivered lines as one `Absorb` step gives. The mailbox and `rx_data_mcu` change exactly as in the two read-line functions: a stored character at the old `pos`, a NUL on a completed line, otherwise nothing. A character typed while the ready flag is up is therefore written into the message waiting to be sent. |
| `Chat.Node.CopyMailbox` | src/main.c:138 | `memcpy` gives a fresh buffer holding exactly the mailbox's 32 bytes. |
| `Chat.Node.TransmitIteration` | src/main.c:129-170 | Nothing happens unless the ready flag is set. A ready message is consumed, clearing the ready flag and, before the window, the occupancy flag. It is sent exactly when nothing arrived during the window. Otherwise it is a collision with nothing written. `asWritten` is what `print_uart` emits, the mailbox's C string, and it holds no CR or LF. `wire`, the corrected transmission (see Findings), is those bytes followed by a line feed. |
| `Chat.Keystroke` | src/main.c:176-183 | A receive pass in which the terminal returns a character that fits appends it to the pending line, writes it into the mailbox at the old `pos`, and leaves the ready flag as it was. |
| `Chat.Enter` | src/main.c:176-183 | A receive pass in which the terminal returns CR after a non-empty line raises the ready flag, empties the pending line and writes NUL into the mailbox at the old `pos`. |
| `Chat.TypeHi` | src/main.c:176-183 | Typing `h` and `i` into an empty line leaves `hi` pending, `i` in the mailbox's second cell and the ready flag as it was. |
| `Chat.TypeHiThenX` | src/main.c:176-183 | Typing `hi`, Enter and `x`, one pass each, leaves the ready flag up and the mailbox beginning `x`, `i`, NUL. |
| `Chat.MailboxOverwritten` | src/main.c:138-183 | The mailbox race: after `hi`, Enter and `x` are typed before the transmitter copies the mailbox, `print_uart` sends `xi`, not the line `hi` that was entered. |
| `Chat.RedCommandIsExactLine` | src/main.c:196 | For a NUL-free line, the `strcmp` test against `"red"` holds exactly when the line is `red`. |
| `Chat.RelayedLineDelivered` | src/main.c:138-150 | A typed line that the transmitter sends, as corrected, is delivered intact and alone by a fresh reader on the other board. |
| `Gate.Polled` | src/main.c:58 | Bytes sent one by one are received as exactly those bytes. |
| `Gate.AsWrittenNeverDelivered` | src/main.c:150 | As written, a sent message never completes a line at the other board, whatever partial line that board's reader holds. The message only grows the pending characters. |
| `Gate.AsWrittenExample` | src/main.c:150 | Typing `hi` on one board makes the other board's reader receive `h` and `i` and deliver no line. |
| `Gate.TransmissionDelivered` | src/main.c:150 | The corrected transmission, the message followed by LF, is delivered at a fresh reader exactly once and leaves nothing pending. |

## Findings

| source | as written | input that shows it | evidently intended | confidence | as-written member | corrected member |
|---|---|---|---|---|---|---|
| src/main.c:150 | The transmitter sends only the bytes of the message. `uart0_read_line` stripped the CR/LF, and `uart1_read_line` on the other board completes a line only on CR/LF. | The user types `hi` followed by Enter. UART1 carries `h`, `i`. The other board's reader keeps `hi` pending and never returns true, and later messages pile onto the same pending line. | Each sent message is displayed by the other board as one line, so a terminator follows it on the wire. | high (not executed) | `Gate.TransmissionAsWritten`, the `asWritten` output of `Chat.Node.TransmitIteration`. That output holds no CR or LF, because `Chat.Node.Valid` keeps the mailbox free of them. It therefore meets the premise of `Gate.AsWrittenNeverDelivered`, which proves the bug together with `Gate.AsWrittenExample` | `Gate.Transmission`, proved by `Gate.TransmissionDelivered` and `Chat.RelayedLineDelivered`; `Chat.Node.TransmitIteration` sends it |

## Left out

- Threads, `k_thread_create`, `k_msleep`/`k_sleep` and the endless loops: each loop body is one method call. The interleaving of the two threads is not modelled.
- `atomic_set`/`atomic_get`: the two flags are plain fields of `Chat.Shared`.
- Chat.Node.TransmitIteration: the 5 ms sense window is one `bool` input, "a character arrived on UART1". It drives the occupancy flag, but the character itself is not fed to the UART1 reader during the window.
- The mailbox race is modelled only between whole passes, as `Chat.MailboxOverwritten` shows. While `g_message_ready` is set, the terminal reader keeps writing into `g_user_message`, and a character typed before the transmitter copies the mailbox changes the message it sends. A write that lands while `memcpy` (src/main.c:138) is half done is not modelled, because each pass is atomic here.
- The echo of every terminal character back to UART0 (src/main.c:77), `printk` and `LOG_*` output, and LED blinking: they are user-interface effects only. The receive event records what would be displayed and whether the red LED would blink.
- Device readiness checks and GPIO setup in `main`: board bring-up.
- The C integer types of `pos` (`int`), `len` (`size_t`) and `msg_len` (`int`): with buffers of 32 bytes no value comes near a limit. The only wrap, `len - 1` at `len == 0`, is excluded by the reader's constructor.
- Each reader keeps its caller's buffer and size as constants, because `receive_thread` always passes the same ones.
