/** hue's append-only byte buffer. */
module Buffers {
  import opened Wrappers
  import opened Text

  class Buffer {
    var bytes: Bytes

    /** An empty buffer{}. */
    constructor ()
      ensures bytes == []
    {
      bytes := [];
    }

    /** A buffer holding b (the copy a clipped slice turns into on its next append). */
    constructor Of(b: Bytes)
      ensures bytes == b
    {
      bytes := b;
    }

    /** Appends p; never fails. The error result is None for a nil error. */
    method Write(p: Bytes) returns (n: int, err: Option<Bytes>)
      modifies this
      ensures bytes == old(bytes) + p
      ensures old(bytes) <= bytes
      ensures n == |p| && err.None?
    {
      bytes := bytes + p;
      n, err := |p|, None;
    }

    method WriteString(s: Bytes) returns (n: int, err: Option<Bytes>)
      modifies this
      ensures bytes == old(bytes) + s
      ensures n == |s| && err.None?
    {
      n, err := Write(s);
    }

    /** Appends quote(s), where quote is strconv.Quote. */
    method WriteQuoted(quote: Bytes -> Bytes, s: Bytes) returns (n: int, err: Option<Bytes>)
      modifies this
      ensures bytes == old(bytes) + quote(s)
      ensures n == |quote(s)| && err.None?
    {
      n, err := WriteString(quote(s));
    }
  }
}
