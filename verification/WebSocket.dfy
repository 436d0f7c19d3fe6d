/** The WebSocket client object: a receive buffer that grows and is parsed in place, and a send path.
    Each method is proved against modules Receiving and Sending. */
module WebSocketClient {
  import opened Frames
  import R = Receiving
  import S = Sending

  /** What one read of the channel returns; bytes only with status Normal. */
  datatype ReadStatus = Normal | Again | Eof | Error

  /** No read is larger than the room the buffer has for it; reads after a loss do not happen. */
  ghost predicate WithinRoom(chunks: seq<Bytes>) {
    forall i :: 0 <= i < |chunks| && !R.Receive(chunks[..i]).lost ==>
      |R.Receive(chunks[..i]).rest| + |chunks[i]| <= R.Grown(R.SizeAfter(chunks[..i]), |R.Receive(chunks[..i]).rest|)
  }

  class GssWebsocket {
    const kind: S.Kind

    var firedConnLost: bool
    var io: bool                  // the channel exists
    var pendingMsgs: seq<Bytes>

    var inBuf: array<byte>
    var inBufPtr: nat             // offset of the first byte not consumed
    var inBufSize: nat
    var inBufAvail: nat           // bytes not consumed

    ghost var wire: Bytes
    ghost var signals: nat
    ghost var calls: seq<Bytes>
    ghost var sent: seq<Bytes>
    ghost var delivered: seq<Bytes>   // message-received signals

    ghost function Chan(): S.Channel
      reads this
    {
      S.Channel(kind, firedConnLost, io, pendingMsgs, wire, signals, calls, sent)
    }

    ghost predicate Buffered()
      reads this
    {
      inBuf.Length == inBufSize && 0 < inBufSize && inBufPtr + inBufAvail <= inBufSize
    }

    /** At every callback boundary the consumed bytes have been moved out of the buffer. */
    ghost predicate Valid()
      reads this
    {
      Buffered() && inBufPtr == 0
    }

    ghost function Unconsumed(): Bytes
      reads this, inBuf
      requires Buffered()
    {
      inBuf[inBufPtr..inBufPtr + inBufAvail]
    }

    /** Space for the next read; a full buffer is doubled first. */
    function Room(): (n: nat)
      reads this
      requires Buffered()
      ensures n > 0
    {
      R.Grown(inBufSize, inBufAvail) - inBufAvail
    }

    constructor (kind: S.Kind)
      ensures Valid() && Unconsumed() == [] && Chan() == S.Open(kind) && delivered == [] && fresh(inBuf)
      ensures inBufSize == R.INITIAL_SIZE
    {
      this.kind := kind;
      inBuf := new byte[R.INITIAL_SIZE](_ => 0);
      inBufPtr, inBufSize, inBufAvail := 0, R.INITIAL_SIZE, 0;
      firedConnLost, io, pendingMsgs := false, false, [];
      wire, signals, calls, sent, delivered := [], 0, [], [], [];
    }

    method ConnectionLost()
      modifies this`firedConnLost, this`io, this`signals
      ensures Chan() == S.ConnectionLost(old(Chan()))
      ensures old(Buffered()) ==> Buffered() && Unconsumed() == old(Unconsumed())
    {
      if firedConnLost {
        return;
      }
      firedConnLost := true;
      io := false;
      signals := signals + 1;
    }

    // -------------------------------------------------------------- receiving

    /** The header of the frame at the front: its size, the payload's, and how many bytes the code
        believes to have after it. */
    method ReadHeader() returns (wait: bool, head: nat, fragSize: nat, avail: nat)
      requires Buffered() && inBufAvail < WORD
      ensures wait ==> Parse(Unconsumed()) == NeedMore
      ensures |Unconsumed()| == inBufAvail
      ensures !wait ==>
                && 2 <= inBufAvail && 2 <= head <= inBufAvail && Unconsumed()[1] == inBuf[inBufPtr + 1]
                && Parse(Unconsumed()) == Judge(Unconsumed(), head, fragSize, avail)
    {
      hide FromBigEndian, Judge;
      wait, head, fragSize, avail := true, 2, 0, inBufAvail;
      if inBufAvail < 2 {
        return;
      }
      var p := inBufPtr;
      ghost var b := Unconsumed();
      assert inBuf[p + 1] == b[1];
      fragSize := inBuf[p + 1] as int % 128;
      if fragSize < 126 {
        avail := avail - 2;
      } else if fragSize == 126 {
        if avail < 4 {
          return;
        }
        SubSlice(inBuf[..], p, p + inBufAvail, 2, 4);
        fragSize := FromBigEndian(inBuf[p + 2..p + 4]);
        head := 4;
        avail := (avail - 8) % WORD;
      } else {
        if avail < 10 {
          return;
        }
        SubSlice(inBuf[..], p, p + inBufAvail, 2, 10);
        fragSize := FromBigEndian(inBuf[p + 2..p + 10]);
        head := 10;
        avail := (avail - 8) % WORD;
      }
      wait := false;
    }

    /** One call of the parser. */
    method TryParseFragment() returns (more: bool)
      requires Buffered() && inBufAvail < WORD
      requires Parse(Unconsumed()) != OutOfBounds
      modifies this`inBufPtr, this`inBufAvail, this`delivered, this`firedConnLost, this`io, this`signals
      ensures Buffered()
      ensures
        match Parse(old(Unconsumed()))
        case NeedMore =>
          !more && Unconsumed() == old(Unconsumed()) && delivered == old(delivered) && Chan() == old(Chan())
        case Deliver(message, consumed) =>
          && more && consumed <= |old(Unconsumed())| && Unconsumed() == old(Unconsumed())[consumed..]
          && delivered == old(delivered) + [message] && Chan() == old(Chan())
        case Unmasked(consumed) =>
          && more && consumed <= |old(Unconsumed())| && Unconsumed() == old(Unconsumed())[consumed..]
          && delivered == old(delivered) && Chan() == S.ConnectionLost(old(Chan()))
        case OutOfBounds => false
    {
      hide Xor, Parse, Judge, Unconsumed;
      ghost var b := Unconsumed();
      var wait, head, fragSize, avail := ReadHeader();
      if wait {
        return false;
      }
      JudgeCases(b, head, fragSize, avail);
      var consumed := head + fragSize;
      if inBuf[inBufPtr + 1] < 128 {
        ConnectionLost();
      } else {
        if avail < (4 + fragSize) % WORD {
          return false;
        }
        var decoded := Decoded(head, fragSize);
        Deliver(decoded);
        consumed := consumed + 4;
      }
      Consume(consumed);
      more := true;
    }

    /** The message-received signal. */
    method Deliver(message: Bytes)
      requires Buffered()
      modifies this`delivered
      ensures delivered == old(delivered) + [message] && Chan() == old(Chan())
      ensures Buffered() && Unconsumed() == old(Unconsumed())
    {
      delivered := delivered + [message];
    }

    method Consume(n: nat)
      requires Buffered() && n <= inBufAvail
      modifies this`inBufPtr, this`inBufAvail
      ensures Buffered() && Unconsumed() == old(Unconsumed())[n..]
      ensures inBufAvail == old(inBufAvail) - n && Chan() == old(Chan())
    {
      SubSlice(inBuf[..], inBufPtr, inBufPtr + inBufAvail, n, inBufAvail);
      inBufAvail := inBufAvail - n;
      inBufPtr := inBufPtr + n;
    }

    /** The unmasking loop: the mask follows the header, the payload the mask. */
    method Decoded(head: nat, size: nat) returns (decoded: Bytes)
      requires Buffered() && head + 4 + size <= inBufAvail
      ensures decoded == Xor(Unconsumed()[head + 4..head + 4 + size], Unconsumed()[head..head + 4])
    {
      hide Xor;
      var from := inBufPtr + head;
      var mask := inBuf[from..from + 4];
      SubSlice(inBuf[..], inBufPtr, inBufPtr + inBufAvail, head, head + 4);
      SubSlice(inBuf[..], inBufPtr, inBufPtr + inBufAvail, head + 4, head + 4 + size);
      from := from + 4;
      decoded := [];
      var i := 0;
      XorNext(inBuf[from..from + size], mask, 0);
      while i < size
        invariant 0 <= i <= size == |Xor(inBuf[from..from + size], mask)|
        invariant decoded == Xor(inBuf[from..from + size], mask)[..i]
      {
        XorNext(inBuf[from..from + size], mask, i);
        decoded := decoded + [XorByte(inBuf[from + i], mask[i % 4])];
        i := i + 1;
      }
      XorNext(inBuf[from..from + size], mask, size);
    }

    /** The parser is called until it waits for more. */
    method DrainBuffer()
      requires Buffered() && inBufAvail < WORD
      requires !R.Drain(Unconsumed()).outOfBounds
      modifies this`inBufPtr, this`inBufAvail, this`delivered, this`firedConnLost, this`io, this`signals
      ensures Buffered()
      ensures
        var d := R.Drain(old(Unconsumed()));
        && delivered == old(delivered) + d.messages
        && Unconsumed() == d.rest
        && Chan() == if d.lost then S.ConnectionLost(old(Chan())) else old(Chan())
    {
      hide Parse, R.Drain;
      ghost var d := R.Drain(Unconsumed());
      ghost var delivered0, chan0 := delivered, Chan();
      var more := true;
      while inBufAvail > 0 && more
        invariant Buffered() && inBufAvail < WORD
        invariant !R.Drain(Unconsumed()).outOfBounds
        invariant delivered + R.Drain(Unconsumed()).messages == delivered0 + d.messages
        invariant R.Drain(Unconsumed()).rest == d.rest
        invariant (if R.Drain(Unconsumed()).lost then S.ConnectionLost(Chan()) else Chan()) ==
                  (if d.lost then S.ConnectionLost(chan0) else chan0)
        invariant !more ==> Parse(Unconsumed()) == NeedMore
        decreases inBufAvail, more
      {
        ghost var b := Unconsumed();
        R.DrainOnce(b);
        R.DrainWild(b);
        R.ParseProgress(b);
        more := TryParseFragment();
      }
      R.EmptyWaits();
      assert inBufAvail == 0 ==> Unconsumed() == [];
      R.DrainStops(Unconsumed());
    }

    /** Room is made, the bytes read are appended, the parser runs, and what it left moves to the front. */
    method TakeInput(failed: bool, read: Bytes)
      requires Valid() && |read| <= Room() && (failed ==> read == [])
      requires inBufAvail + |read| < WORD
      requires !R.Drain(Unconsumed() + read).outOfBounds
      modifies this, inBuf
      ensures Valid() && (inBuf == old(inBuf) || fresh(inBuf))
      ensures
        var d := R.Drain(old(Unconsumed()) + read);
        && delivered == old(delivered) + d.messages
        && Unconsumed() == d.rest
        && Chan() == if failed || d.lost then S.ConnectionLost(old(Chan())) else old(Chan())
      ensures inBufSize == R.Grown(old(inBufSize), old(inBufAvail))
    {
      hide R.Drain;
      if inBufSize <= inBufAvail {
        Grow();
      }
      Append(read);
      if failed {
        ConnectionLost();
      }
      DrainBuffer();
      if inBufPtr != 0 {
        Compact();
      }
    }

    /** One event of the channel: hang-up, or bytes to read. read is empty unless the status is Normal. */
    method IoCallback(hup: bool, input: bool, status: ReadStatus, read: Bytes) returns (keep: bool)
      requires Valid() && |read| <= Room() && (status != Normal ==> read == [])
      requires inBufAvail + |read| < WORD
      requires input && !hup ==> !R.Drain(Unconsumed() + read).outOfBounds
      modifies this, inBuf
      ensures Valid() && (inBuf == old(inBuf) || fresh(inBuf))
      ensures
        var d := if hup || !input then R.Drained([], old(Unconsumed()), false, false)
                 else R.Drain(old(Unconsumed()) + read);
        && delivered == old(delivered) + d.messages
        && Unconsumed() == d.rest
        && (Chan() == if hup || (input && (status == Error || status == Eof)) || d.lost
                      then S.ConnectionLost(old(Chan())) else old(Chan()))
      ensures keep <==> !hup && !(input && status == Eof)
      ensures inBufSize == if input && !hup then R.Grown(old(inBufSize), old(inBufAvail)) else old(inBufSize)
    {
      hide R.Drain;
      if hup {
        ConnectionLost();
        return false;
      }
      if input {
        TakeInput(status == Error, read);
        if status == Eof {
          ConnectionLost();
          return false;
        }
      }
      return true;
    }

    /** A whole conversation: the main loop calls back for each read until the connection is lost. */
    method ReceiveAll(chunks: seq<Bytes>)
      requires Valid() && inBufSize == R.INITIAL_SIZE && inBufAvail == 0 && delivered == [] && !firedConnLost
      requires WithinRoom(chunks) && |R.Concat(chunks)| < WORD
      requires !R.Receive(chunks).outOfBounds
      modifies this, inBuf
      ensures Valid()
      ensures
        var d := R.Receive(chunks);
        && delivered == d.messages
        && Unconsumed() == d.rest
        && Chan() == if d.lost then S.ConnectionLost(old(Chan())) else old(Chan())
    {
      hide R.Drain;
      ghost var b0, chan0 := inBuf, Chan();
      var i := 0;
      assert R.Receive(chunks[..0]) == R.Drained([], [], false, false);
      while i < |chunks| && !firedConnLost
        invariant 0 <= i <= |chunks| && Valid() && (inBuf == b0 || fresh(inBuf))
        invariant inBufSize == R.SizeAfter(chunks[..i]) && delivered == R.Receive(chunks[..i]).messages
        invariant Unconsumed() == R.Receive(chunks[..i]).rest
        invariant Chan() == if R.Receive(chunks[..i]).lost then S.ConnectionLost(chan0) else chan0
      {
        ReadsSoFar(chunks, i);
        assert |Unconsumed()| == inBufAvail;
        var keep := IoCallback(false, true, Normal, chunks[i]);
        i := i + 1;
      }
      assert chunks[..|chunks|] == chunks;
      if i < |chunks| {
        R.LostStays(chunks, i);
      }
    }

    method Grow()
      requires Valid()
      modifies this`inBuf, this`inBufSize
      ensures Valid() && fresh(inBuf) && Unconsumed() == old(Unconsumed()) && inBufSize == 2 * old(inBufSize)
    {
      inBufSize := inBufSize * 2;
      var bigger := new byte[inBufSize];
      forall i | 0 <= i < inBuf.Length {
        bigger[i] := inBuf[i];
      }
      inBuf := bigger;
    }

    method Append(read: Bytes)
      requires Valid() && inBufAvail + |read| <= inBufSize
      modifies this`inBufAvail, inBuf
      ensures Valid() && Unconsumed() == old(Unconsumed()) + read
      ensures inBufAvail == old(inBufAvail) + |read|
    {
      forall i | 0 <= i < |read| {
        inBuf[inBufAvail + i] := read[i];
      }
      assert inBuf[..inBufAvail] == old(Unconsumed());
      assert inBuf[inBufAvail..inBufAvail + |read|] == read;
      inBufAvail := inBufAvail + |read|;
    }

    /** memmove of the unconsumed bytes to the front. */
    method Compact()
      requires Buffered()
      modifies this`inBufPtr, inBuf
      ensures Valid() && Unconsumed() == old(Unconsumed())
    {
      forall i | 0 <= i < inBufAvail {
        inBuf[i] := inBuf[inBufPtr + i];
      }
      inBufPtr := 0;
    }

    // -------------------------------------------------------------- sending

    method WriteFragment(body: Bytes, o: S.Outcome)
      requires |body| < WORD
      modifies this`wire, this`sent, this`firedConnLost, this`io, this`signals
      ensures Chan() == S.WriteFragment(old(Chan()), body, o)
    {
      var header: Bytes := [TEXT];
      if |body| < 126 {
        header := header + [|body| as byte];
      } else if |body| < 65536 {
        header := header + [126] + BigEndian(|body|, 2);
      } else {
        header := header + [127] + BigEndian(|body|, 8);
      }
      assert header == S.TextHeader(body);
      if !o.header {
        ConnectionLost();
        return;
      }
      wire := wire + header;
      if !o.body {
        ConnectionLost();
        return;
      }
      wire := wire + body;
      sent := sent + [body];
    }

    method Transmit(body: Bytes, o: S.Outcome)
      requires |body| < WORD
      modifies this`wire, this`sent, this`firedConnLost, this`io, this`signals, this`pendingMsgs
      ensures Chan() == S.SendMessage(old(Chan()), body, o)
    {
      if firedConnLost {
        return;
      }
      if kind == S.Chunked {
        wire, sent := wire + body, sent + [body];
        return;
      }
      if kind == S.Single {
        wire, sent := body, [body];
        ConnectionLost();
        return;
      }
      if io {
        WriteFragment(body, o);
        return;
      }
      pendingMsgs := pendingMsgs + [body];
    }

    method SendMessage(body: Bytes, o: S.Outcome)
      requires |body| < WORD
      modifies this`wire, this`sent, this`firedConnLost, this`io, this`signals, this`pendingMsgs, this`calls
      ensures Chan() == S.Step(old(Chan()), S.Send(body, o))
    {
      calls := calls + [body];
      Transmit(body, o);
    }

    /** The channel exists now; what waited is sent and removed, oldest first. */
    method WroteHeaders(outcomes: seq<S.Outcome>)
      requires kind == S.WebSocket && |outcomes| == |pendingMsgs|
      requires forall body :: body in pendingMsgs ==> |body| < WORD
      modifies this`wire, this`sent, this`firedConnLost, this`io, this`signals, this`pendingMsgs
      ensures Chan() == S.Step(old(Chan()), S.WroteHeaders(outcomes))
    {
      io := true;
      var i := 0;
      while pendingMsgs != []
        invariant 0 <= i <= |outcomes| && |outcomes| - i == |pendingMsgs|
        invariant forall body :: body in pendingMsgs ==> |body| < WORD
        invariant firedConnLost || io
        invariant S.Flush(Chan(), outcomes[i..]) == S.Flush(old(Chan()).(ready := true), outcomes)
        decreases |pendingMsgs|
      {
        ghost var c := Chan();
        Transmit(pendingMsgs[0], outcomes[i]);
        SendKeepsQueue(c, c.pending[0], outcomes[i]);
        pendingMsgs := pendingMsgs[1..];
        assert outcomes[i..][1..] == outcomes[i + 1..];
        i := i + 1;
      }
    }

    method Disconnect()
      modifies this`firedConnLost, this`io, this`signals
      ensures Chan() == S.Step(old(Chan()), S.Disconnect)
    {
      ConnectionLost();
    }
  }

  lemma ReadsSoFar(chunks: seq<Bytes>, i: nat)
    requires i < |chunks| && |R.Concat(chunks)| < WORD && !R.Receive(chunks).outOfBounds
    requires !R.Receive(chunks[..i]).lost
    ensures
      var before := R.Receive(chunks[..i]);
      && R.Receive(chunks[..i + 1]) == R.Then(before, R.Drain(before.rest + chunks[i]))
      && !R.Drain(before.rest + chunks[i]).outOfBounds
      && |before.rest| + |chunks[i]| < WORD
      && R.SizeAfter(chunks[..i + 1]) == R.Grown(R.SizeAfter(chunks[..i]), |before.rest|)
  {
    hide R.Drain;
    R.BoundsKept(chunks, i);
    R.BoundsKept(chunks, i + 1);
    R.RestWithin(chunks[..i]);
    R.ConcatGrows(chunks, i + 1);
    assert chunks[..i + 1][..i] == chunks[..i];
  }

  lemma XorNext(data: Bytes, mask: Bytes, i: nat)
    requires |mask| == 4 && i <= |data|
    ensures |Xor(data, mask)| == |data| && Xor(data, mask)[..|data|] == Xor(data, mask)
    ensures i < |data| ==> Xor(data, mask)[..i + 1] == Xor(data, mask)[..i] + [XorByte(data[i], mask[i % 4])]
  {
    hide XorByte;
  }

  lemma JudgeCases(b: Bytes, head: nat, size: nat, avail: nat)
    requires |b| >= 2 && head >= 2 && Judge(b, head, size, avail) != OutOfBounds
    ensures b[1] < 128 ==> Judge(b, head, size, avail) == Unmasked(head + size) && head + size <= |b|
    ensures b[1] >= 128 && avail < (4 + size) % WORD ==> Judge(b, head, size, avail) == NeedMore
    ensures b[1] >= 128 && avail >= (4 + size) % WORD ==>
              var end := head + 4 + size;
              && end <= |b|
              && Judge(b, head, size, avail) == Deliver(Xor(b[head + 4..end], b[head..head + 4]), end)
  {
    hide Xor;
  }

  lemma SubSlice(s: Bytes, i: nat, j: nat, a: nat, b: nat)
    requires i <= j <= |s| && a <= b <= j - i
    ensures s[i..j][a..b] == s[i + a..i + b]
  {
    forall k | 0 <= k < b - a ensures s[i..j][a..b][k] == s[i + a..i + b][k] {
      assert s[i..j][a + k] == s[i + a + k];
    }
  }

  lemma SendKeepsQueue(c: S.Channel, body: Bytes, o: S.Outcome)
    requires c.lost || (c.ready && c.kind == S.WebSocket)
    ensures S.SendMessage(c, body, o).pending == c.pending
    ensures S.SendMessage(c, body, o).lost || S.SendMessage(c, body, o).ready
  {
  }
}
