/** The byte stream the parser reads from: an in-memory buffer with a cursor
    (Python's `io.BytesIO`, and `io.StringIO` for the header block). The
    cursor may sit past the end after a seek; reads there return nothing. */
module Streams {
  import opened Wrappers
  import opened Text

  /** One past the line feed that ends the line starting at `i`, or the end
      of the data when no line feed follows. */
  function LineEnd(data: string, i: nat): (j: nat)
    requires i <= |data|
    ensures i <= j <= |data|
    ensures i < |data| ==> i < j
    ensures forall k :: i <= k < j - 1 ==> data[k] != '\n'
    ensures j < |data| ==> data[j - 1] == '\n'
  {
    match IndexOf(data[i..], '\n')
    case None => |data|
    case Some(k) =>
      assert forall m :: i <= m < i + k ==> data[m] == data[i..][..k][m - i];
      i + k + 1
  }

  /** `readline()`: the bytes up to and including the next line feed (or to
      the end), and the new cursor. At or past the end: nothing, and the
      cursor stays. */
  function ReadLineAt(data: string, pos: nat): (r: (string, nat))
    ensures pos >= |data| ==> r.0 == [] && r.1 == pos
    ensures pos < |data| ==> pos < r.1 <= |data| && r.0 == data[pos..r.1]
    ensures forall k :: 0 <= k < |r.0| - 1 ==> r.0[k] != '\n'
    ensures r.0 != [] && r.1 < |data| ==> r.0[|r.0| - 1] == '\n'
  {
    if pos >= |data| then ([], pos)
    else
      var j := LineEnd(data, pos);
      (data[pos..j], j)
  }

  /** `read(n)`: up to `n` bytes, all remaining bytes when `n` is negative,
      and the new cursor. */
  function ReadAt(data: string, pos: nat, n: int): (r: (string, nat))
    ensures pos >= |data| ==> r.0 == [] && r.1 == pos
    ensures pos < |data| ==> pos <= r.1 <= |data| && r.0 == data[pos..r.1]
    ensures n >= 0 ==> (|r.0| == n <==> n == 0 || pos + n <= |data|)
    ensures |r.0| == n ==> r.1 == pos + n
    ensures pos < |data| && (n < 0 || pos + n > |data|) ==> r.0 == data[pos..] && r.1 == |data|
  {
    if pos >= |data| then ([], pos)
    else
      var end := if n < 0 || pos + n > |data| then |data| else pos + n;
      (data[pos..end], end)
  }

  /** `seek(offset, SEEK_CUR)`: relative move, clamped at the start. */
  function SeekCur(pos: nat, offset: int): (p: nat)
    ensures pos + offset >= 0 ==> p == pos + offset
    ensures pos + offset < 0 ==> p == 0
  {
    if pos + offset < 0 then 0 else pos + offset
  }

  /** A line of the stream is recognised exactly where it stands. */
  lemma ReadLineExact(data: string, pos: nat, line: string)
    requires line != [] && line[|line| - 1] == '\n' && '\n' !in line[..|line| - 1]
    requires pos + |line| <= |data| && data[pos..pos + |line|] == line
    ensures ReadLineAt(data, pos).0 == line && ReadLineAt(data, pos).1 == pos + |line|
  {
    var j := LineEnd(data, pos);
    assert forall k :: pos <= k < pos + |line| - 1 ==> data[k] == line[..|line| - 1][k - pos];
    assert data[pos + |line| - 1] == '\n';
  }

  class ByteStream {
    const data: string
    var pos: nat

    constructor (bytes: string)
      ensures data == bytes && pos == 0
    {
      data := bytes;
      pos := 0;
    }

    method ReadLine() returns (line: string)
      modifies this
      ensures (line, pos) == ReadLineAt(data, old(pos))
    {
      if pos >= |data| {
        return [];
      }
      var j := pos;
      while j < |data| && data[j] != '\n'
        invariant pos <= j <= |data|
        invariant '\n' !in data[pos..j]
        invariant LineEnd(data, pos) == LineEnd(data, j)
      {
        j := j + 1;
      }
      if j < |data| {
        j := j + 1;
      }
      line := data[pos..j];
      pos := j;
    }

    method Read(n: int) returns (bytes: string)
      modifies this
      ensures (bytes, pos) == ReadAt(data, old(pos), n)
    {
      if pos >= |data| {
        return [];
      }
      var end := if n < 0 || pos + n > |data| then |data| else pos + n;
      bytes := data[pos..end];
      pos := end;
    }

    method Seek(offset: int)
      modifies this
      ensures pos == SeekCur(old(pos), offset)
    {
      pos := if pos + offset < 0 then 0 else pos + offset;
    }
  }
}
