/** Reading a file: every `read` may return fewer bytes than asked for. */
module FileReader {
  import opened Bytes

  /** An open file whose content does not change while it is read. */
  class Reader {
    const data: Blob
    var at: nat

    ghost predicate Valid()
      reads this
    {
      at <= |data|
    }

    constructor (content: Blob)
      ensures Valid() && data == content && at == 0
    {
      data := content;
      at := 0;
    }

    /** `Read::read` into `buf[from..]`: any positive amount that fits, and zero
        only when there is no room left or the file is exhausted. */
    method Read(buf: array<byte>, from: nat) returns (n: nat)
      requires Valid() && from <= buf.Length
      modifies this`at, buf
      ensures Valid() && at == old(at) + n && from + n <= buf.Length
      ensures n == 0 <==> from == buf.Length || old(at) == |data|
      ensures buf[..from] == old(buf[..from])
      ensures buf[from..from + n] == data[old(at)..at]
    {
      n := 0;
      if from < buf.Length && at < |data| {
        var most := Min(buf.Length - from, |data| - at);
        assert 1 <= 1 <= most;
        n :| 1 <= n <= most;
        forall i | 0 <= i < n {
          buf[from + i] := data[at + i];
        }
        at := at + n;
      }
    }

    /** `read_full`: keep reading until the buffer is full or the file ends. */
    method ReadFull(buf: array<byte>) returns (filled: nat)
      requires Valid()
      modifies this`at, buf
      ensures Valid() && at == old(at) + filled
      ensures filled == Min(buf.Length, |data| - old(at))
      ensures buf[..filled] == data[old(at)..at]
    {
      filled := 0;
      while filled < buf.Length
        invariant Valid() && filled <= buf.Length && at == old(at) + filled
        invariant buf[..filled] == data[old(at)..at]
      {
        var before := at;
        var n := Read(buf, filled);
        if n == 0 {
          break;
        }
        assert buf[..filled + n] == buf[..filled] + buf[filled..filled + n];
        assert data[old(at)..before] + data[before..at] == data[old(at)..at];
        filled := filled + n;
      }
    }
  }
}
