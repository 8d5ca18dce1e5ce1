/** The listener object of the reader, updated in place. Each method is one of
    the listener functions and does to the object what ListenerState says. */
module DvbListener {
  import opened Bytes
  import opened TsFormat
  import opened PidTable
  import opened ListenerState
  import opened WriteLoops

  class ReaderListener {
    const fd: int
    const callback: nat         // identity of the callback; 0 for none
    var filter: FilterType
    var messageQueue: seq<Message>
    const buffer: array<Byte>
    var bufferSize: nat
    var havePat: bool
    var havePmt: bool
    var writeError: bool
    var eos: bool
    var terminate: bool
    var running: bool

    // What the descriptor has taken and what the callback has been given.
    var written: seq<Byte>
    var given: seq<seq<Byte>>

    /** The batch buffer always has room for one more packet. */
    ghost predicate Valid()
      reads this
    {
      Fits() && bufferSize % TS_SIZE == 0 && bufferSize <= 20 * TS_SIZE
    }

    ghost predicate Fits()
      reads this
    {
      buffer.Length == BUFFER_SIZE && bufferSize <= BUFFER_SIZE
    }

    ghost function Abs(): Listener
      requires Fits()
      reads this, buffer
    {
      Listener(filter, buffer[..bufferSize], messageQueue, havePat, havePmt, writeError, eos, terminate, running)
    }

    constructor (fd: int, callback: nat, filter: FilterType)
      ensures Valid() && fresh(buffer) && this.fd == fd && this.callback == callback
      ensures Abs() == Registration(filter) && written == [] && given == []
    {
      written, given := [], [];
      this.fd, this.callback, this.filter := fd, callback, filter;
      messageQueue := [];
      buffer := new Byte[BUFFER_SIZE](_ => 0);
      bufferSize := 0;
      havePat, havePmt, writeError, eos, terminate, running := false, false, false, false, false, false;
    }

    /** The found branch of set_listener. */
    method Renew(filter: FilterType)
      requires Valid()
      modifies this
      ensures Valid() && Abs() == Registration(filter) && written == old(written) && given == old(given)
    {
      messageQueue := [];
      terminate, writeError, eos := false, false, false;
      havePat, havePmt, running := false, false, false;
      this.filter := filter;
      bufferSize := 0;
      assert buffer[..0] == [];
    }

    method SendMessage(m: Message, immediately: bool)
      requires Fits()
      modifies this`messageQueue
      ensures Abs() == Send(old(Abs()), m, immediately)
    {
      if immediately {
        messageQueue := [m] + messageQueue;
      } else {
        messageQueue := messageQueue + [m];
      }
    }

    /** Takes the head of the queue unless the worker has to wait. */
    method PopMessage() returns (m: Option<Message>)
      requires Valid()
      modifies this`messageQueue
      ensures Valid() && (m.Some? <==> CanPop(old(Abs())))
      ensures m.Some? ==> old(messageQueue) == [m.value] + messageQueue
      ensures m.None? ==> Abs() == old(Abs())
    {
      if messageQueue == [] || (!running && !messageQueue[0].Continue? && !messageQueue[0].Quit?) {
        return None;
      }
      m := Some(messageQueue[0]);
      messageQueue := messageQueue[1..];
    }

    /** Removes the DATA messages, link by link. */
    method DropDataMessages()
      requires Valid()
      modifies this`messageQueue
      ensures Valid() && Abs() == old(Abs()).(queue := WithoutData(old(messageQueue)))
    {
      var kept, rest := [], messageQueue;
      while rest != []
        invariant kept + WithoutData(rest) == WithoutData(old(messageQueue))
        decreases |rest|
      {
        if !rest[0].Data? {
          kept := kept + [rest[0]];
        }
        rest := rest[1..];
      }
      assert kept + [] == kept;
      messageQueue := kept;
    }

    /** Queues the packet's bytes; a full batch goes out as one message. */
    method PushPacket(kinds: FilterType, packet: seq<Byte>)
      requires Valid() && |packet| == TS_SIZE
      modifies this`messageQueue, this`bufferSize, buffer
      ensures Valid() && Abs() == ListenerState.PushPacket(old(Abs()), kinds, packet)
    {
      ghost var l := Abs();
      if Wants(filter, kinds) {
        forall k | 0 <= k < TS_SIZE {
          buffer[bufferSize + k] := packet[k];
        }
        bufferSize := bufferSize + TS_SIZE;
        assert buffer[..bufferSize] == l.buffer + packet;
      }
      assert (BUFFER_SIZE / TS_SIZE) * TS_SIZE == BATCH;
      if bufferSize >= (BUFFER_SIZE / TS_SIZE) * TS_SIZE {
        SendMessage(Data(buffer[..bufferSize], FromStream), false);
        bufferSize := 0;
        assert buffer[..0] == [];
      }
    }

    /** The loop that cuts a table into messages. */
    method SendTable(data: seq<Byte>)
      requires Valid()
      modifies this`messageQueue
      ensures Valid() && Abs() == old(Abs()).(queue := old(messageQueue) + TableMessages(data))
    {
      var remaining, offset := |data|, 0;
      assert data[0..] == data;
      while remaining > 0
        invariant 0 <= offset && 0 <= remaining && offset + remaining == |data|
        invariant messageQueue + TableMessages(data[offset..]) == old(messageQueue) + TableMessages(data)
      {
        var size := if remaining < BUFFER_SIZE then remaining else BUFFER_SIZE;
        ghost var rest := data[offset..];
        ghost var m := Data(data[offset..offset + size], FromTable);
        assert data[offset..offset + size] == rest[..size] && data[offset + size..] == rest[size..];
        assert size < BUFFER_SIZE ==> rest[..size] == rest && rest[size..] == [];
        assert TableMessages(rest) == [m] + TableMessages(rest[size..]);
        ghost var before := messageQueue;
        SendMessage(Data(data[offset..offset + size], FromTable), false);
        assert before + ([m] + TableMessages(rest[size..])) == before + [m] + TableMessages(rest[size..]);
        remaining := remaining - size;
        offset := offset + size;
      }
      assert messageQueue + [] == messageQueue;
    }

    method SendPat(pat: seq<Byte>, count: nat)
      requires Valid()
      modifies this`messageQueue, this`havePat
      ensures Valid() && Abs() == ListenerState.SendPat(old(Abs()), pat, count)
    {
      if count == 0 || havePat {
        return;
      }
      SendTable(pat);
      havePat := true;
    }

    method SendPmt(pmt: seq<Byte>, count: nat)
      requires Valid()
      modifies this`messageQueue, this`havePmt
      ensures Valid() && Abs() == ListenerState.SendPmt(old(Abs()), pmt, count)
    {
      if count == 0 || !havePat || havePmt {
        return;
      }
      SendTable(pmt);
      havePmt := true;
    }

    /** What resetting the reader does to this listener. */
    method Reset()
      requires Valid()
      modifies this`messageQueue, this`havePat, this`havePmt
      ensures Valid() && Abs() == ResetListener(old(Abs()))
    {
      messageQueue := [];
      havePat, havePmt := false, false;
    }

    method Pause()
      requires Valid()
      modifies this`running
      ensures Valid() && Abs() == old(Abs()).(running := false)
    {
      running := false;
    }

    /** Hands the data of a message to the descriptor, unless a write failed
        before, and to the callback. */
    method HandOut(data: seq<Byte>, turns: seq<Attempt>)
      requires Valid() && Transfer(|data|, turns, 0, 0).result != Running
      modifies this`writeError, this`written, this`given
      ensures Descriptor(written, writeError) ==
              if fd >= 0 then TakeUp(old(Descriptor(written, writeError)), data, turns)
              else old(Descriptor(written, writeError))
      ensures given == old(given) + if callback != 0 then [data] else []
    {
      if fd >= 0 && !writeError {
        var o, taken := WriteDataFull(data, turns);
        written := written + taken;
        if o.result == Failed {
          writeError := true;
        }
      }
      if callback != 0 {
        given := given + [data];
      }
    }

    /** One turn of the worker's loop after it took m; false when the thread ends.
        The write loop comes to an end. */
    method HandleMessage(m: Message, turns: seq<Attempt>) returns (goOn: bool)
      requires Valid() && (m.Data? ==> Transfer(|m.bytes|, turns, 0, 0).result != Running)
      modifies this`messageQueue, this`writeError, this`eos, this`terminate, this`running, this`written, this`given
      ensures Valid() && (goOn <==> !m.Quit?)
      ensures var tried := m.Data? && fd >= 0 && !old(writeError);
              && Abs() == Process(old(Abs()), m, tried && Transfer(|m.bytes|, turns, 0, 0).result == Failed)
              && written == old(written) + (if tried then m.bytes[..Transfer(|m.bytes|, turns, 0, 0).offset] else [])
              && given == old(given) + if m.Data? && callback != 0 then [m.bytes] else []
    {
      goOn := true;
      match m {
        case Data(bytes, _) => HandOut(bytes, turns);
        case Drop => DropDataMessages();
        case Continue => running := true;
        case Quit =>
          terminate := true;
          goOn := false;
        case Eos => eos := true;
      }
    }
  }
}
