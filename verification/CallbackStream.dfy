/** The buffered byte sink of the C interface: a 64 KiB put area in front of the caller's callback. */
module CallbackStream {
  import opened Bytes

  const BUFFER_SIZE := 65536

  /** What a callback may answer; every value but the first two counts as a failure, as does an exception. */
  datatype Answer = Continue | Cancel | Fail

  datatype Failure = NoFailure | Cancelled | WriteFailed

  function FailureOf(answer: Answer): Failure
  {
    match answer
    case Continue => NoFailure
    case Cancel => Cancelled
    case Fail => WriteFailed
  }

  /** The caller's side: a fixed but unknown answer for every call, and what it has been handed. */
  class Callback {
    const answers: nat -> Answer
    var spans: seq<bytes>

    constructor (answers: nat -> Answer)
      ensures this.answers == answers && spans == []
    {
      this.answers, spans := answers, [];
    }

    method Call(span: bytes) returns (answer: Answer)
      modifies this
      ensures answer == answers(old(|spans|)) && spans == old(spans) + [span]
    {
      answer := answers(|spans|);
      spans := spans + [span];
    }
  }

  /** The call log of a stream that has not failed or failed at its last call. */
  ghost predicate Orderly(answers: nat -> Answer, spans: seq<bytes>, failure: Failure)
  {
    && (forall i :: 0 <= i < |spans| ==> 1 <= |spans[i]| <= BUFFER_SIZE)
    && (forall i :: 0 <= i < |spans| - 1 ==> answers(i) == Continue)
    && (failure == NoFailure ==> spans != [] ==> answers(|spans| - 1) == Continue)
    && (failure != NoFailure ==> spans != [] && failure == FailureOf(answers(|spans| - 1)))
  }

  /** The octets the callback took: all spans but a refused one. */
  function Accepted(spans: seq<bytes>, failure: Failure): bytes
  {
    if failure != NoFailure && spans != [] then Concat(spans[..|spans| - 1]) else Concat(spans)
  }

  /** One more call: the log stays in order and the answer decides what was accepted. */
  lemma CallLogged(answers: nat -> Answer, spans: seq<bytes>, span: bytes)
    requires Orderly(answers, spans, NoFailure) && 1 <= |span| <= BUFFER_SIZE
    ensures var failure := FailureOf(answers(|spans|));
            && Orderly(answers, spans + [span], failure)
            && Accepted(spans + [span], failure) ==
               Accepted(spans, NoFailure) + if failure == NoFailure then span else []
  {
    hide Concat;
    ConcatSnoc(spans, span);
    assert (spans + [span])[..|spans|] == spans;
    assert Concat(spans) + [] == Concat(spans);
  }

  class CallbackStreambuf {
    const buffer: array<byte>
    const callback: Callback
    var used: nat
    var failure: Failure
    /** Every octet the stream has taken. */
    ghost var written: bytes

    ghost predicate Valid()
      reads this, buffer, callback
    {
      && buffer.Length == BUFFER_SIZE && used <= BUFFER_SIZE
      && Orderly(callback.answers, callback.spans, failure)
      && written == Accepted(callback.spans, failure) + buffer[..used]
    }

    constructor (callback: Callback)
      requires callback.spans == []
      ensures Valid() && this.callback == callback && fresh(buffer) && written == [] && failure == NoFailure
    {
      this.callback := callback;
      buffer := new byte[BUFFER_SIZE](_ => 0);
      used, failure, written := 0, NoFailure, [];
      new;
      assert buffer[..used] == [];
    }

    /** Hands the put area to the callback; a refused span stays in the put area. */
    method FlushPending() returns (ok: bool)
      requires Valid()
      modifies this`used, this`failure, callback
      ensures Valid() && ok == (failure == NoFailure) && used == (if ok then 0 else old(used))
      ensures old(failure) != NoFailure ==> failure == old(failure) && callback.spans == old(callback.spans)
    {
      hide Accepted, Orderly;
      if failure != NoFailure {
        return false;
      }
      if used == 0 {
        return true;
      }
      CallLogged(callback.answers, callback.spans, buffer[..used]);
      var answer := callback.Call(buffer[..used]);
      if answer == Continue {
        used := 0;
        assert buffer[..used] == [];
        return true;
      }
      failure := FailureOf(answer);
      return false;
    }

    /** Makes room and stores the character that did not fit. */
    method Overflow(character: byte) returns (ok: bool)
      requires Valid()
      modifies this, buffer, callback
      ensures Valid() && ok == (failure == NoFailure)
      ensures written == old(written) + if ok then [character] else []
      ensures old(failure) != NoFailure ==> failure == old(failure) && callback.spans == old(callback.spans)
      ensures !ok ==> used == old(used)
    {
      hide Concat, Orderly, Accepted;
      ok := FlushPending();
      if !ok {
        return;
      }
      buffer[used] := character;
      used := used + 1;
      written := written + [character];
      assert buffer[..1] == [character];
    }

    /** The standard library's block write: fill the put area, overflow, repeat. */
    method Xsputn(data: bytes) returns (count: nat)
      requires Valid()
      modifies this, buffer, callback
      ensures Valid() && count <= |data| && written == old(written) + data[..count]
      ensures count < |data| ==> failure != NoFailure
      ensures old(failure) != NoFailure ==> failure == old(failure) && callback.spans == old(callback.spans)
      ensures old(failure) == NoFailure && failure != NoFailure ==> count < |data|
    {
      hide Orderly, Accepted;
      count := 0;
      while count < |data|
        invariant Valid() && count <= |data| && written == old(written) + data[..count]
        invariant old(failure) != NoFailure ==> failure == old(failure) && callback.spans == old(callback.spans)
        invariant old(failure) == NoFailure ==> failure == NoFailure
      {
        if used < BUFFER_SIZE {
          var size := if |data| - count < BUFFER_SIZE - used then |data| - count else BUFFER_SIZE - used;
          Append(data[count..count + size]);
          assert data[..count] + data[count..count + size] == data[..count + size];
          count := count + size;
        } else {
          var ok := Overflow(data[count]);
          if !ok {
            return;
          }
          assert data[..count] + [data[count]] == data[..count + 1];
          count := count + 1;
        }
      }
      assert data[..count] == data;
    }

    /** Copies octets that fit into the put area. */
    method Append(data: bytes)
      requires Valid() && used + |data| <= BUFFER_SIZE
      modifies this`used, this`written, buffer
      ensures Valid() && used == old(used) + |data| && written == old(written) + data
    {
      hide Orderly, Accepted;
      ghost var accepted, before := Accepted(callback.spans, failure), buffer[..used];
      for i := 0 to |data|
        invariant used == old(used) && written == accepted + before && buffer[..used + i] == before + data[..i]
      {
        buffer[used + i] := data[i];
        assert buffer[..used + i + 1] == buffer[..used + i] + [data[i]];
      }
      assert data[..|data|] == data;
      assert accepted + before + data == accepted + (before + data);
      used := used + |data|;
      written := written + data;
    }

    method Sync() returns (ok: bool)
      requires Valid()
      modifies this`used, this`failure, callback
      ensures Valid() && ok == (failure == NoFailure)
      ensures ok ==> Accepted(callback.spans, failure) == written
      ensures old(failure) != NoFailure ==> failure == old(failure) && callback.spans == old(callback.spans)
    {
      hide Concat, Orderly, Accepted;
      ok := FlushPending();
      assert buffer[..0] == [];
    }
  }

  /** The stream object in front of the buffer, with exceptions switched on for its bad and fail bits. The memory to
      make up what is to be written may give out, too: then nothing is written any more, though the callback refused
      nothing. */
  class OutputStream {
    const buf: CallbackStreambuf
    /** How many writes there is memory for, if not for all. */
    const memory: Option<nat>
    var writes: nat
    var bad: bool

    ghost predicate Valid()
      reads this, buf, buf.buffer, buf.callback
    {
      buf.Valid() && (bad <==> buf.failure != NoFailure || Exhausted())
    }

    /** There was a write the memory did not suffice for. */
    predicate Exhausted()
      reads this
    {
      memory.Some? && writes > memory.value
    }

    ghost function Repr(): set<object>
    {
      {this, buf, buf.buffer, buf.callback}
    }

    constructor (buf: CallbackStreambuf, memory: Option<nat>)
      requires buf.Valid() && buf.failure == NoFailure
      ensures Valid() && !bad && this.buf == buf && this.memory == memory
    {
      this.buf, this.memory, writes, bad := buf, memory, 0, false;
    }

    /** Throws unless every octet was taken; without a refusal nothing is written in part. */
    method Write(data: bytes) returns (thrown: bool)
      requires Valid()
      modifies this, buf, buf.buffer, buf.callback
      ensures Valid() && thrown == bad
      ensures !thrown ==> buf.written == old(buf.written) + data
      ensures thrown ==> exists n :: 0 <= n <= |data| && buf.written == old(buf.written) + data[..n]
      ensures thrown && buf.failure == NoFailure ==> buf.written == old(buf.written)
      ensures !thrown ==> buf.failure == NoFailure
      ensures old(buf.failure) != NoFailure ==> buf.failure == old(buf.failure)
      ensures old(bad) ==> bad && buf.callback.spans == old(buf.callback.spans) && buf.failure == old(buf.failure)
    {
      hide buf.Valid;
      if bad {
        assert buf.written == old(buf.written) + data[..0];
        return true;
      }
      writes := writes + 1;
      if Exhausted() {
        bad := true;
        assert buf.written == old(buf.written) + data[..0];
        return true;
      }
      var count := buf.Xsputn(data);
      bad := count != |data|;
      thrown := bad;
      assert count == |data| ==> data[..count] == data;
    }

    method Flush() returns (thrown: bool)
      requires Valid()
      modifies this, buf, buf.callback
      ensures Valid() && thrown == bad && buf.written == old(buf.written)
      ensures thrown && !old(bad) ==> buf.failure != NoFailure
      ensures !thrown ==> buf.failure == NoFailure
      ensures old(buf.failure) != NoFailure ==> buf.failure == old(buf.failure)
      ensures !thrown ==> Accepted(buf.callback.spans, buf.failure) == buf.written
      ensures old(bad) ==> bad && buf.callback.spans == old(buf.callback.spans) && buf.failure == old(buf.failure)
    {
      hide buf.Valid;
      if bad {
        return true;
      }
      var ok := buf.Sync();
      bad := !ok;
      thrown := bad;
    }
  }

  /** What the callback has taken is always a prefix of what was written, handed over in spans of bounded size; once it
      has refused a span, that span is the last. */
  lemma AcceptedIsPrefix(b: CallbackStreambuf)
    requires b.Valid()
    ensures Accepted(b.callback.spans, b.failure) <= b.written
    ensures |b.written| <= |Accepted(b.callback.spans, b.failure)| + BUFFER_SIZE
    ensures forall i :: 0 <= i < |b.callback.spans| ==> 1 <= |b.callback.spans[i]| <= BUFFER_SIZE
    ensures forall i :: 0 <= i < |b.callback.spans| && b.callback.answers(i) != Continue ==>
                          i == |b.callback.spans| - 1 && b.failure == FailureOf(b.callback.answers(i))
  {
    hide Concat, Accepted;
  }
}
