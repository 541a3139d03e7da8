/** The ring buffer with three cursors: bytes are written at the head, handed to the network at the send
    position, and released at the tail. */
module RingBuffer {
  import opened Wire

  // ---- Bytes of a ring -----------------------------------------------------------------------

  /** A cursor after it may have passed the end once. */
  function Wrap(p: nat, capacity: nat): (q: nat)
    requires p < 2 * capacity
    ensures q < capacity
  {
    if p < capacity then p else p - capacity
  }

  /** The code wraps cursors with `%`. */
  lemma ModIsWrap(p: nat, capacity: nat)
    requires p < 2 * capacity
    ensures p % capacity == Wrap(p, capacity)
  {
    if p >= capacity { assert p == capacity * 1 + (p - capacity); }
  }

  /** `n` bytes from position `start` on, going round. */
  function Ring(buf: seq<Byte>, start: nat, n: nat): (bs: seq<Byte>)
    requires start < |buf| && n <= |buf|
    ensures |bs| == n && forall i :: 0 <= i < n ==> bs[i] == buf[Wrap(start + i, |buf|)]
  {
    seq(n, i requires 0 <= i < n => buf[Wrap(start + i, |buf|)])
  }

  lemma RingIsContiguous(buf: seq<Byte>, start: nat, n: nat)
    requires start < |buf| && start + n <= |buf|
    ensures Ring(buf, start, n) == buf[start..start + n]
  {
    forall i | 0 <= i < n ensures Ring(buf, start, n)[i] == buf[start..start + n][i] {
    }
  }

  lemma RingSplits(buf: seq<Byte>, start: nat, k: nat, n: nat)
    requires start < |buf| && k <= n <= |buf|
    ensures Ring(buf, start, n)[k..] == Ring(buf, Wrap(start + k, |buf|), n - k)
    ensures Ring(buf, start, n)[..k] == Ring(buf, start, k)
  {
    forall i | 0 <= i < n - k ensures Ring(buf, start, n)[k..][i] == Ring(buf, Wrap(start + k, |buf|), n - k)[i] {
    }
    forall i | 0 <= i < k ensures Ring(buf, start, n)[..k][i] == Ring(buf, start, k)[i] {
    }
  }

  /** `buf` after copying `data` to position `at`. */
  function Overwrite(buf: seq<Byte>, at: nat, data: seq<Byte>): (buf': seq<Byte>)
    requires at + |data| <= |buf|
    ensures |buf'| == |buf|
  {
    buf[..at] + data + buf[at + |data|..]
  }

  /** Writing to the free space leaves the contents alone. */
  lemma OverwriteKeeps(buf: seq<Byte>, tail: nat, size: nat, data: seq<Byte>)
    requires tail < |buf| && size < |buf| && size + |data| <= |buf| && Wrap(tail + size, |buf|) + |data| <= |buf|
    ensures Ring(Overwrite(buf, Wrap(tail + size, |buf|), data), tail, size) == Ring(buf, tail, size)
  {
    var at := Wrap(tail + size, |buf|);
    forall i | 0 <= i < size ensures Ring(Overwrite(buf, at, data), tail, size)[i] == Ring(buf, tail, size)[i] {
      var p := Wrap(tail + i, |buf|);
      assert p < at || p >= at + |data|;
      OverwriteAt(buf, at, data, p);
    }
  }

  lemma OverwriteAt(buf: seq<Byte>, at: nat, data: seq<Byte>, i: nat)
    requires at + |data| <= |buf| && i < |buf| && !(at <= i < at + |data|)
    ensures Overwrite(buf, at, data)[i] == buf[i]
  {
  }

  /** Bytes copied to free space behind the contents extend the contents. */
  lemma OverwriteExtends(buf: seq<Byte>, tail: nat, size: nat, data: seq<Byte>)
    requires tail < |buf| && size + |data| <= |buf| && size < |buf|
    requires Wrap(tail + size, |buf|) + |data| <= |buf|
    ensures Ring(Overwrite(buf, Wrap(tail + size, |buf|), data), tail, size + |data|) == Ring(buf, tail, size) + data
  {
    var at := Wrap(tail + size, |buf|);
    var buf' := Overwrite(buf, at, data);
    OverwriteKeeps(buf, tail, size, data);
    OverwriteReads(buf, at, data);
    JoinRing(buf', tail, size, |data|);
  }

  lemma JoinRing(buf: seq<Byte>, tail: nat, size: nat, n: nat)
    requires tail < |buf| && size + n <= |buf|
    ensures Ring(buf, tail, size + n) == Ring(buf, tail, size) + Ring(buf, Wrap(tail + size, |buf|), n)
  {
    var all := Ring(buf, tail, size + n);
    RingSplits(buf, tail, size, size + n);
    assert all == all[..size] + all[size..];
  }

  lemma OverwriteReads(buf: seq<Byte>, at: nat, data: seq<Byte>)
    requires at < |buf| && at + |data| <= |buf|
    ensures Ring(Overwrite(buf, at, data), at, |data|) == data
  {
    var buf' := Overwrite(buf, at, data);
    RingIsContiguous(buf', at, |data|);
    assert buf'[at..at + |data|] == data;
  }

  /** `buf` after copying `n` bytes within it. */
  function Shift(buf: seq<Byte>, to: nat, from: nat, n: nat): (buf': seq<Byte>)
    requires to + n <= |buf| && from + n <= |buf|
    ensures |buf'| == |buf|
  {
    Overwrite(buf, to, buf[from..from + n])
  }

  lemma KeptPiece(buf: seq<Byte>, tail: nat, size: nat)
    requires tail < |buf| && tail + size <= |buf|
    ensures Ring(Shift(buf, 0, tail, size), 0, size) == Ring(buf, tail, size)
  {
    RingIsContiguous(buf, tail, size);
    RingIsContiguous(Shift(buf, 0, tail, size), 0, size);
  }

  lemma ShiftAt(buf: seq<Byte>, to: nat, from: nat, n: nat, i: nat)
    requires to + n <= |buf| && from + n <= |buf| && i < |buf|
    ensures Shift(buf, to, from, n)[i] == if to <= i < to + n then buf[from + (i - to)] else buf[i]
  {
  }

  /** The left piece copied behind the right one, then the right one to the front. */
  function TwoCopies(buf: seq<Byte>, tail: nat, right: nat, left: nat): (buf2: seq<Byte>)
    requires left < tail < |buf| == tail + right
    ensures |buf2| == |buf|
  {
    Shift(Shift(buf, right, 0, left), 0, tail, right)
  }

  lemma TwoCopiesAt(buf: seq<Byte>, tail: nat, right: nat, left: nat, i: nat)
    requires left < tail < |buf| == tail + right && i < right + left
    ensures TwoCopies(buf, tail, right, left)[i] ==
            if i >= right then buf[i - right]
            else if right <= tail + i < right + left then buf[tail + i - right]
            else buf[tail + i]
  {
    var buf' := Shift(buf, right, 0, left);
    ShiftAt(buf', 0, tail, right, i);
    ShiftAt(buf, right, 0, left, if i < right then tail + i else i);
  }

  /** Contents in two pieces are kept if they fit before the tail, or if there is only one piece. */
  lemma KeptPieces(buf: seq<Byte>, tail: nat, right: nat, left: nat, size: nat)
    requires left < tail < |buf| == tail + right && size == right + left && (size <= tail || left == 0)
    ensures Ring(TwoCopies(buf, tail, right, left), 0, size) == Ring(buf, tail, size)
  {
    var buf2 := TwoCopies(buf, tail, right, left);
    forall i | 0 <= i < size ensures Ring(buf2, 0, size)[i] == Ring(buf, tail, size)[i] {
      TwoCopiesAt(buf, tail, right, left, i);
    }
  }

  /** Where the tail is after AdjustPos. */
  function AdjustedTail(capacity: nat, tail: nat, size: nat): (t: nat)
    requires tail < capacity && size <= capacity
    ensures t < capacity && (t == 0 || (t == tail && tail + size <= capacity - capacity / 3))
  {
    var head := Wrap(tail + size, capacity);
    if head > tail && capacity - head >= capacity / 3 then tail else 0
  }

  /** The memory after AdjustPos: contents in one piece are moved only if little room is left behind them, contents
      in two pieces are moved by two copies, and the full buffer is taken for an empty one. */
  function Adjusted(buf: seq<Byte>, tail: nat, size: nat): (buf': seq<Byte>)
    requires tail < |buf| && size <= |buf|
    ensures |buf'| == |buf|
  {
    var head := Wrap(tail + size, |buf|);
    if head == tail then buf
    else if head > tail then
      if |buf| - head < |buf| / 3 then Shift(buf, 0, tail, size) else buf
    else
      TwoCopies(buf, tail, |buf| - tail, head)
  }

  /** The contents stay where they are exactly if they begin behind the start, do not reach the end of the memory, and
      leave at least a third of it free behind them, give or take the rounding. */
  lemma StaysInPlaceExactly(capacity: nat, tail: nat, size: nat)
    requires tail < capacity && size <= capacity
    ensures AdjustedTail(capacity, tail, size) == tail > 0 <==>
            tail > 0 && size > 0 && tail + size < capacity && 3 * (capacity - tail - size) > capacity - 3
  {
  }

  ghost predicate KeptByAdjust(buf: seq<Byte>, tail: nat, size: nat)
    requires tail < |buf| && size <= |buf|
  {
    Ring(Adjusted(buf, tail, size), AdjustedTail(|buf|, tail, size), size) == Ring(buf, tail, size)
  }

  /** The cursors for which no contents are lost: they do not wrap, or fit in front of the tail. */
  predicate Adjustable(capacity: nat, tail: nat, size: nat) {
    tail + size <= capacity || size <= tail
  }

  /** The wrapped case of AdjustPos. */
  lemma AdjustedPieces(buf: seq<Byte>, tail: nat, right: nat, left: nat, size: nat)
    requires left < tail < |buf| == tail + right && size == right + left
    ensures Adjusted(buf, tail, size) == TwoCopies(buf, tail, right, left)
    ensures AdjustedTail(|buf|, tail, size) == 0
  {
  }

  lemma AdjustKeeps(buf: seq<Byte>, tail: nat, size: nat)
    requires tail < |buf| && size <= |buf| && Adjustable(|buf|, tail, size)
    ensures KeptByAdjust(buf, tail, size)
  {
    if tail + size < |buf| {
      KeptPiece(buf, tail, size);
    } else if tail > 0 {
      var right, left := |buf| - tail, tail + size - |buf|;
      AdjustedPieces(buf, tail, right, left, size);
      KeptPieces(buf, tail, right, left, size);
    }
  }

  /** All bytes zero but one. */
  function Marked(capacity: nat, at: nat): (buf: seq<Byte>)
    requires at < capacity
    ensures |buf| == capacity && forall i :: 0 <= i < capacity ==> buf[i] == if i == at then 1 else 0
  {
    seq(capacity, i => if i == at then 1 else 0)
  }

  /** A full buffer whose contents do not start at the front. */
  lemma FullIsLost(capacity: nat, tail: nat)
    requires 0 < tail < capacity
    ensures !KeptByAdjust(Marked(capacity, 0), tail, capacity)
  {
    var buf := Marked(capacity, 0);
    assert Ring(buf, 0, capacity)[0] == 1 && Ring(buf, tail, capacity)[0] == 0;
  }

  /** Two overlapping copies put some byte where another one should be. */
  lemma PiecesAreLost(capacity: nat, tail: nat, right: nat, left: nat, size: nat)
    requires 0 < left < tail < capacity == tail + right && size == right + left > tail
    ensures !KeptByAdjust(Marked(capacity, if right < tail then tail else right), tail, size)
  {
    var p := if right < tail then tail else right;
    var buf := Marked(capacity, p);
    AdjustedPieces(buf, tail, right, left, size);
    TwoCopiesAt(buf, tail, right, left, p - tail);
    var kept, had := Ring(TwoCopies(buf, tail, right, left), 0, size), Ring(buf, tail, size);
    assert kept[p - tail] == 0 && had[p - tail] == 1;
  }

  lemma AdjustLoses(capacity: nat, tail: nat, size: nat)
    requires tail < capacity && size <= capacity && !Adjustable(capacity, tail, size)
    ensures exists buf: seq<Byte> :: |buf| == capacity && !KeptByAdjust(buf, tail, size)
  {
    if size == capacity {
      FullIsLost(capacity, tail);
    } else {
      PiecesAreLost(capacity, tail, capacity - tail, tail + size - capacity, size);
    }
  }

  /** For every capacity and every position of the cursors, AdjustPos keeps all contents exactly then. */
  lemma AdjustKeepsExactly(capacity: nat, tail: nat, size: nat)
    requires tail < capacity && size <= capacity
    ensures (forall buf: seq<Byte> :: |buf| == capacity ==> KeptByAdjust(buf, tail, size)) <==>
            Adjustable(capacity, tail, size)
  {
    if Adjustable(capacity, tail, size) {
      forall buf: seq<Byte> | |buf| == capacity ensures KeptByAdjust(buf, tail, size) {
        AdjustKeeps(buf, tail, size);
      }
    } else {
      AdjustLoses(capacity, tail, size);
    }
  }

  // ---- The class -----------------------------------------------------------------------------

  class RioBuffer {
    const capacity: nat
    const buffer: array<Byte>
    var size: nat
    var headPos: nat
    var tailPos: nat
    var sendPos: nat
    ghost var unsent: nat    // bytes written and not yet handed to the network

    ghost predicate Valid()
      reads this
    {
      && buffer.Length == capacity > 0
      && size <= capacity && headPos < capacity && tailPos < capacity && sendPos < capacity
      && headPos == Wrap(tailPos + size, capacity)
    }

    /** The send position is in step with the other two; it is not in a buffer that only receives. */
    ghost predicate Sends()
      reads this
    {
      Valid() && unsent <= size && sendPos == Wrap(tailPos + (size - unsent), capacity)
    }

    ghost function Contents(): (bs: seq<Byte>)
      reads this, buffer
      requires Valid()
    {
      Ring(buffer[..], tailPos, size)
    }

    /** Handed to the network, not yet released. */
    ghost function InFlight(): (bs: seq<Byte>)
      reads this, buffer
      requires Sends()
    {
      Contents()[..size - unsent]
    }

    ghost function Unsent(): (bs: seq<Byte>)
      reads this, buffer
      requires Sends()
    {
      Contents()[size - unsent..]
    }

    constructor (capacity: nat)
      requires capacity > 0
      ensures Sends() && this.capacity == capacity && Contents() == [] && unsent == 0 && tailPos == 0
      ensures fresh(buffer)
    {
      this.capacity := capacity;
      buffer := new Byte[capacity](_ => 0);
      size, headPos, tailPos, sendPos, unsent := 0, 0, 0, 0, 0;
    }

    function GetDataSize(): nat
      reads this
    {
      size
    }

    function GetFreeSize(): int
      reads this
    {
      capacity - size
    }

    function GetChunkWriteSize(): int
      reads this
    {
      if headPos >= tailPos then capacity - headPos else tailPos - headPos
    }

    /** The unsent bytes that lie in one piece from the send position on. */
    function GetChunkSendSize(): (n: int)
      reads this
      ensures Sends() && unsent < capacity ==> 0 <= n <= unsent && sendPos + n <= capacity
      ensures Sends() && 0 < unsent < capacity ==> n > 0 && (n == unsent || sendPos + n == capacity)
    {
      if headPos >= sendPos then headPos - sendPos else capacity - sendPos
    }

    /** All unsent bytes, except that a buffer full of unsent bytes looks like one with none. */
    function GetSendDataSize(): (n: int)
      reads this
      ensures Sends() ==> n == if unsent == capacity then 0 else unsent
    {
      if headPos >= sendPos then headPos - sendPos else capacity - sendPos + headPos
    }

    /** The piece in front of the send position is the beginning of the unsent bytes. */
    lemma ChunkIsUnsent()
      requires Sends() && unsent < capacity
      ensures buffer[sendPos..sendPos + GetChunkSendSize()] == Unsent()[..GetChunkSendSize()]
    {
      var n := GetChunkSendSize();
      RingSplits(buffer[..], tailPos, size - unsent, size);
      RingSplits(buffer[..], sendPos, n, unsent);
      RingIsContiguous(buffer[..], sendPos, n);
    }

    /** `memcpy(&m_buffer[at], ...)` */
    method CopyIn(at: nat, data: seq<Byte>)
      requires at + |data| <= buffer.Length
      modifies buffer
      ensures buffer[..] == Overwrite(old(buffer[..]), at, data)
    {
      forall i | 0 <= i < |data| { buffer[at + i] := data[i]; }
    }

    /** While a write is under way the head is ahead of the recorded size. */
    ghost predicate Filled(filled: nat)
      reads this
    {
      && buffer.Length == capacity > 0
      && filled <= capacity && headPos < capacity && tailPos < capacity
      && headPos == Wrap(tailPos + filled, capacity)
    }

    /** One turn of the write loop. */
    method WriteChunk(chunk: seq<Byte>, ghost filled: nat)
      requires Filled(filled) && 0 < |chunk| <= GetChunkWriteSize() && filled + |chunk| <= capacity
      modifies this`headPos, buffer
      ensures Filled(filled + |chunk|)
      ensures Ring(buffer[..], tailPos, filled + |chunk|) == Ring(old(buffer[..]), tailPos, filled) + chunk
    {
      OverwriteExtends(buffer[..], tailPos, filled, chunk);
      CopyIn(headPos, chunk);
      ModIsWrap(headPos + |chunk|, capacity);
      headPos := (headPos + |chunk|) % capacity;
    }

    /** The write loop. */
    method WriteChunks(data: seq<Byte>)
      requires Valid() && size + |data| <= capacity
      modifies this`headPos, buffer
      ensures Filled(size + |data|) && Ring(buffer[..], tailPos, size + |data|) == old(Contents()) + data
    {
      var need: nat, pos: nat := |data|, 0;
      while need > 0
        invariant need + pos == |data|
        invariant Filled(size + pos) && Ring(buffer[..], tailPos, size + pos) == old(Contents()) + data[..pos]
      {
        var chunk := GetChunkWriteSize();
        var n := if chunk < need then chunk else need;
        WriteChunk(data[pos..pos + n], size + pos);
        Joined(old(Contents()), data, pos, n);
        pos, need := pos + n, need - n;
      }
      assert data[..pos] == data;
    }

    /** Copies all of the data, in chunks, or none of it. */
    method WriteBuffer(data: seq<Byte>) returns (ok: bool)
      requires Valid()
      modifies this, buffer
      ensures Valid() && ok == (|data| <= old(GetFreeSize()))
      ensures Contents() == if ok then old(Contents()) + data else old(Contents())
      ensures old(Sends()) ==> Sends() && unsent == old(unsent) + if ok then |data| else 0
      ensures old(Sends()) ==> InFlight() == old(InFlight()) && Unsent() == old(Unsent()) + if ok then data else []
      ensures size == old(size) + (if ok then |data| else 0) && sendPos == old(sendPos) && tailPos == old(tailPos)
    {
      if GetFreeSize() < |data| { return false; }
      WriteChunks(data);
      size, unsent := size + |data|, unsent + |data|;
      ok := true;
    }

    /** Takes over bytes the network has placed behind the contents. */
    method OnWriteBuffer(writeSize: nat) returns (ok: bool)
      requires Valid()
      modifies this
      ensures Valid() && ok == (writeSize <= old(GetFreeSize())) && tailPos == old(tailPos)
      ensures ok ==> size == old(size) + writeSize && Contents()[..old(size)] == old(Contents())
      ensures !ok ==> Contents() == old(Contents())
    {
      if GetFreeSize() < writeSize { return false; }
      ModIsWrap(headPos + writeSize, capacity);
      RingSplits(buffer[..], tailPos, size, size + writeSize);
      headPos := (headPos + writeSize) % capacity;
      size := size + writeSize;
      ok := true;
    }

    /** Releases bytes at the tail. */
    method OnReadBuffer(readSize: nat) returns (ok: bool)
      requires Valid()
      modifies this
      ensures Valid() && ok == (readSize <= old(size))
      ensures Contents() == if ok then old(Contents())[readSize..] else old(Contents())
      ensures tailPos == if ok then Wrap(old(tailPos) + readSize, capacity) else old(tailPos)
      ensures old(Sends()) && readSize <= old(size - unsent) ==>
                Sends() && unsent == old(unsent) && size == old(size) - readSize
      ensures old(Sends()) && readSize <= old(size - unsent) ==>
                Unsent() == old(Unsent()) && InFlight() == old(InFlight())[readSize..]
    {
      if GetDataSize() < readSize { return false; }
      ModIsWrap(tailPos + readSize, capacity);
      RingSplits(buffer[..], tailPos, readSize, size);
      tailPos := (tailPos + readSize) % capacity;
      size := size - readSize;
      ok := true;
    }

    /** Counts bytes handed to the network. */
    method OnSendBuffer(sendSize: nat) returns (ok: bool)
      requires Sends()
      modifies this
      ensures Sends() && ok == (sendSize <= old(GetSendDataSize())) && size == old(size) && tailPos == old(tailPos)
      ensures unsent == if ok then old(unsent) - sendSize else old(unsent)
      ensures Contents() == old(Contents()) && Unsent() == if ok then old(Unsent())[sendSize..] else old(Unsent())
      ensures InFlight() == if ok then old(InFlight()) + old(Unsent())[..sendSize] else old(InFlight())
      ensures sendPos == if ok then Wrap(old(sendPos) + sendSize, capacity) else old(sendPos)
    {
      if GetSendDataSize() < sendSize { return false; }
      Split(Contents(), size - unsent, sendSize);
      ModIsWrap(sendPos + sendSize, capacity);
      sendPos := (sendPos + sendSize) % capacity;
      unsent := unsent - sendSize;
      ok := true;
    }

    /** `memcpy` within the buffer. */
    method Move(to: nat, from: nat, n: nat)
      requires to + n <= buffer.Length && from + n <= buffer.Length
      modifies buffer
      ensures buffer[..] == Shift(old(buffer[..]), to, from, n)
    {
      forall i | 0 <= i < n { buffer[to + i] := buffer[from + i]; }
    }

    /** Moves the contents to the front when little room is left behind them. */
    method AdjustPos()
      requires Valid()
      modifies this, buffer
      ensures Valid() && size == old(size)
      ensures buffer[..] == Adjusted(old(buffer[..]), old(tailPos), size)
      ensures tailPos == AdjustedTail(capacity, old(tailPos), size)
      ensures Adjustable(capacity, old(tailPos), size) ==> Contents() == old(Contents())
    {
      if Adjustable(capacity, tailPos, size) { AdjustKeeps(buffer[..], tailPos, size); }
      AdjustMemory();
      AdjustCursors();
    }

    method AdjustCursors()
      requires Valid()
      modifies this`headPos, this`tailPos
      ensures Valid() && tailPos == AdjustedTail(capacity, old(tailPos), size)
    {
      if headPos >= tailPos {
        if headPos == tailPos {
          headPos, tailPos := 0, 0;
        } else if GetChunkWriteSize() < capacity / 3 {
          tailPos := 0;
          headPos := GetDataSize();
        }
      } else {
        headPos := capacity - tailPos + headPos;
        tailPos := 0;
      }
    }

    method CopyPieces(right: nat)
      requires Valid() && headPos < tailPos && tailPos + right == capacity
      modifies buffer
      ensures buffer[..] == TwoCopies(old(buffer[..]), tailPos, right, headPos)
    {
      Move(right, 0, headPos);
      Move(0, tailPos, right);
    }

    /** The copies of AdjustPos, before the cursors are set. */
    method AdjustMemory()
      requires Valid()
      modifies buffer
      ensures buffer[..] == Adjusted(old(buffer[..]), tailPos, size)
    {
      if headPos < tailPos {
        var right := capacity - tailPos;
        AdjustedPieces(buffer[..], tailPos, right, headPos, size);
        CopyPieces(right);
      } else if headPos > tailPos && GetChunkWriteSize() < capacity / 3 {
        Move(0, tailPos, GetDataSize());
      }
    }
  }

  lemma Split(s: seq<Byte>, m: nat, n: nat)
    requires m + n <= |s|
    ensures s[..m + n] == s[..m] + s[m..][..n] && s[m..][n..] == s[m + n..]
  {
  }

  lemma Joined(before: seq<Byte>, data: seq<Byte>, pos: nat, n: nat)
    requires pos + n <= |data|
    ensures before + data[..pos] + data[pos..pos + n] == before + data[..pos + n]
  {
  }
}
