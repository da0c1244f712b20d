/** Binary file input as the program uses it: a stream that hands out the file in blocks. */
module Files {

  type byte = b: int | 0 <= b < 256
  type Bytes = seq<byte>

  function Min(a: nat, b: nat): (m: nat)
    ensures m <= a && m <= b && (m == a || m == b)
  {
    if a < b then a else b
  }

  /** A binary input stream over a file whose bytes do not change while it is open. */
  class InputStream {
    const content: Bytes
    var pos: nat
    var failed: bool

    ghost predicate Valid()
      reads this
    {
      pos <= |content| && (failed ==> pos == |content|)
    }

    constructor (content: Bytes)
      ensures Valid() && !failed && pos == 0 && this.content == content
    {
      this.content := content;
      pos, failed := 0, false;
    }

    /**
     * Fills buf as far as the file goes. `ok` is the stream's state afterwards and `count` what
     * gcount() reports: a short block sets the stream's failure state but still counts its bytes.
     */
    method Read(buf: array<byte>) returns (ok: bool, count: nat)
      requires Valid()
      modifies this, buf
      ensures Valid()
      ensures old(failed) ==> !ok && count == 0
      ensures !old(failed) ==> count == Min(buf.Length, |content| - old(pos)) && ok == (count == buf.Length)
      ensures failed == !ok && pos == old(pos) + count
      ensures count <= buf.Length && buf[..count] == content[old(pos)..pos]
      ensures buf[count..] == old(buf[..])[count..]
    {
      if failed {
        return false, 0;
      }
      count := Min(buf.Length, |content| - pos);
      for i := 0 to count
        invariant pos == old(pos) && buf[..i] == content[pos..pos + i]
        invariant buf[i..] == old(buf[..])[i..]
      {
        buf[i] := content[pos + i];
      }
      pos := pos + count;
      ok := count == buf.Length;
      failed := !ok;
    }
  }
}
