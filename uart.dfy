/** The polled transmit side of a UART. */
module Uart {
  import opened Chars

  /**
   * `print_uart`: measures the C string in `buf` (`strlen`) and then sends its
   * bytes one by one; `out` is the sequence of bytes handed to the driver, in order.
   * `strlen` needs a NUL inside the buffer, which every caller provides.
   */
  method PrintUart(buf: array<byte>) returns (out: seq<byte>)
    requires NUL in buf[..]
    ensures out == CString(buf[..])
  {
    var msgLen := 0;
    while buf[msgLen] != NUL
      invariant 0 <= msgLen < buf.Length
      invariant NUL !in buf[..msgLen]
      invariant NUL in buf[msgLen..]
      decreases buf.Length - msgLen
    {
      assert buf[msgLen..] == [buf[msgLen]] + buf[msgLen + 1..];
      assert buf[..msgLen + 1] == buf[..msgLen] + [buf[msgLen]];
      msgLen := msgLen + 1;
    }
    out := [];
    var i := 0;
    while i < msgLen
      invariant 0 <= i <= msgLen
      invariant out == buf[..i]
    {
      out := out + [buf[i]];
      i := i + 1;
    }
    CStringAt(buf[..], msgLen);
  }
}
