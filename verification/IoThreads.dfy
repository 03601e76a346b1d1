/**
  The loops of the reader, writer and pump threads (io.rs, session.rs), each run
  on its own against a fixed outside world. SessionModel interleaves the same
  steps; here they are the loops themselves.
 */
module IoThreads {
  import opened Common
  import opened SessionModel
  import opened SessionChannel
  import opened SessionDelivery
  import opened SessionFrames

  const READ_SIZE := 8192

  // ---------- the reader ----------

  /** What the reader sends for the results of ReadFile; an empty one is a failure or the end of the pipe. */
  function Sends(chunks: seq<seq<Byte>>): seq<IoEvent> {
    if chunks == [] || chunks[0] == [] then [Eof] else [Bytes(chunks[0])] + Sends(chunks[1..])
  }

  class ReaderThread {
    const buf: array<Byte>
    /** Messages sent into the channel. */
    var sent: seq<IoEvent>

    constructor ()
      ensures buf.Length == READ_SIZE && sent == [] && fresh(buf)
    {
      buf := new Byte[READ_SIZE];
      sent := [];
    }

    /** ReadFile: overwrites the front of the buffer. */
    method ReadFile(bytes: seq<Byte>) returns (read: nat)
      requires |bytes| <= buf.Length
      modifies buf
      ensures read == |bytes| && buf[..read] == bytes
    {
      for i := 0 to |bytes|
        invariant buf[..i] == bytes[..i]
      {
        buf[i] := bytes[i];
      }
      read := |bytes|;
    }

    /** One buffer is reused for every read, and still each message carries what its own read returned. */
    method Run(chunks: seq<seq<Byte>>)
      requires buf.Length == READ_SIZE
      requires forall i | 0 <= i < |chunks| :: |chunks[i]| <= READ_SIZE
      modifies this, buf
      ensures sent == old(sent) + Sends(chunks)
    {
      var k := 0;
      while true
        invariant k <= |chunks|
        invariant sent + Sends(chunks[k..]) == old(sent) + Sends(chunks)
        decreases |chunks| - k
      {
        var read := 0;
        if k < |chunks| {
          read := ReadFile(chunks[k]);
        }
        if read == 0 {
          sent := sent + [Eof];
          return;
        }
        Reassociate(sent, Bytes(chunks[k]), Sends(chunks[k + 1..]));
        assert chunks[k..][1..] == chunks[k + 1..];
        sent := sent + [Bytes(buf[..read])];
        k := k + 1;
      }
    }
  }

  lemma Reassociate<T>(a: seq<T>, x: T, b: seq<T>)
    ensures a + [x] + b == a + ([x] + b)
  {}

  // ---------- the writer ----------

  class WriterThread {
    /** Buffers handed to WriteFile. */
    var written: seq<seq<Byte>>

    constructor ()
      ensures written == []
    {
      written := [];
    }

    /** Runs until the empty buffer, or until every sender is gone. */
    method Run(queue: seq<seq<Byte>>)
      modifies this
      ensures written == old(written) + BeforeSentinel(queue)
    {
      var rx := queue;
      while rx != []
        invariant written + BeforeSentinel(rx) == old(written) + BeforeSentinel(queue)
      {
        var buf := rx[0];
        if buf == [] {
          break;
        }
        Reassociate(written, buf, BeforeSentinel(rx[1..]));
        rx := rx[1..];
        written := written + [buf];
      }
    }
  }

  // ---------- the pump ----------

  /** The last frame shows all that was applied, and the exit path has not delivered one. */
  predicate UpToDate(frames: seq<Shown>, applied: seq<Byte>) {
    OnDisplay(frames) == applied && forall i | 0 <= i < |frames| :: !frames[i].last
  }

  /** The exit path has delivered one more, with all there is. */
  predicate Ended(frames: seq<Shown>, applied: seq<Byte>) {
    && frames != [] && frames[|frames| - 1] == Shown(applied, true)
    && UpToDate(frames[..|frames| - 1], applied)
  }

  lemma FrameBrings(frames: seq<Shown>, shown: seq<Byte>, applied: seq<Byte>)
    requires UpToDate(frames, shown)
    ensures UpToDate(frames + [Shown(applied, false)], applied)
    ensures shown == applied ==> Ended(frames + [Shown(applied, true)], applied)
  {
    var more := frames + [Shown(applied, true)];
    assert more[..|more| - 1] == frames;
  }

  class Pump {
    /** Bytes given to the terminal. */
    var applied: seq<Byte>
    /** Frames delivered, with what they show, and whether the exit path was taken. */
    var frames: seq<Shown>
    var sawEof: bool

    constructor ()
      ensures applied == [] && frames == [] && !sawEof
    {
      applied, frames, sawEof := [], [], false;
    }

    /** The snapshot of a frame, and its delivery. */
    method Deliver(last: bool)
      modifies this`frames
      ensures frames == old(frames) + [Shown(applied, last)]
    {
      frames := frames + [Shown(applied, last)];
    }

    /**
      The inner loop: takes messages until the channel is found empty. `arrived`
      says, for the k-th message, whether it is there when `try_recv` asks for it.
     */
    method DrainChannel(events: seq<IoEvent>, start: nat, arrived: nat -> bool) returns (next: nat, eof: bool)
      requires start <= |events|
      modifies this`applied
      ensures start <= next <= |events|
      ensures var (before, after) := (OneAtATime(events[start..]), OneAtATime(events[next..]));
        if eof then (applied, true) == (old(applied) + before.0, before.1)
        else (applied + after.0, after.1) == (old(applied) + before.0, before.1)
    {
      next, eof := start, false;
      while next < |events| && arrived(next)
        invariant start <= next <= |events| && !eof
        invariant applied + OneAtATime(events[next..]).0 == old(applied) + OneAtATime(events[start..]).0
        invariant OneAtATime(events[next..]).1 == OneAtATime(events[start..]).1
      {
        NextMessage(events, next);
        match events[next]
        case Bytes(more) =>
          assert applied + (more + OneAtATime(events[next + 1..]).0) == applied + more + OneAtATime(events[next + 1..]).0;
          applied := applied + more;
          next := next + 1;
        case Eof =>
          assert applied + [] == applied;
          eof := true;
          next := next + 1;
          return;
      }
    }

    /**
      The outer loop. However the messages happen to arrive, the terminal is given
      what one message per round would give it, and the exit path is taken exactly
      if an Eof is among them. Each time it goes back to the channel, and at the end,
      the last frame shows everything given to the terminal; the exit path delivers one
      more, and there is at most one frame for each message besides.
     */
    method Run(events: seq<IoEvent>, arrived: nat -> bool)
      requires applied == [] && frames == [] && !sawEof
      modifies this
      ensures (applied, sawEof) == OneAtATime(events)
      ensures if sawEof then Ended(frames, applied) else UpToDate(frames, applied)
      ensures |frames| <= |events| + 1 && (events != [] ==> frames != [])
    {
      var next := 0;
      assert events[0..] == events;
      while next < |events|
        invariant next <= |events| && !sawEof && |frames| <= next && (next > 0 ==> frames != [])
        invariant UpToDate(frames, applied)
        invariant applied + OneAtATime(events[next..]).0 == OneAtATime(events).0
        invariant OneAtATime(events[next..]).1 == OneAtATime(events).1
      {
        NextMessage(events, next);
        var eof := false;
        var ev := events[next];
        next := next + 1;
        match ev {
          case Bytes(buf) =>
            assert applied + (buf + OneAtATime(events[next..]).0) == applied + buf + OneAtATime(events[next..]).0;
            ghost var shown := applied;
            applied := applied + buf;
            next, eof := DrainChannel(events, next, arrived);
            FrameBrings(frames, shown, applied);
            Deliver(false);
          case Eof =>
            assert applied + [] == applied;
            eof := true;
        }
        if eof {
          FrameBrings(frames, applied, applied);
          Deliver(true);
          sawEof := true;
          return;
        }
      }
      assert applied + [] == applied;
    }
  }

  lemma NextMessage(events: seq<IoEvent>, i: nat)
    requires i < |events|
    ensures OneAtATime(events[i..]) ==
            match events[i]
            case Eof => ([], true)
            case Bytes(buf) => (buf + OneAtATime(events[i + 1..]).0, OneAtATime(events[i + 1..]).1)
  {
    assert events[i..][1..] == events[i + 1..];
  }

  // ---------- end to end ----------

  function Flatten(bufs: seq<seq<Byte>>): seq<Byte> {
    if bufs == [] then [] else bufs[0] + Flatten(bufs[1..])
  }

  /** From pipe to terminal: every byte read before the end of the pipe, in order, and then the exit path. */
  lemma {:induction false} PipeToTerminal(chunks: seq<seq<Byte>>)
    ensures OneAtATime(Sends(chunks)) == (Flatten(BeforeSentinel(chunks)), true)
    ensures Sends(chunks) != [] && EndsAtFirstEof(Sends(chunks))
  {
    if chunks != [] && chunks[0] != [] {
      PipeToTerminal(chunks[1..]);
      EndsLater(Bytes(chunks[0]), Sends(chunks[1..]));
      assert BeforeSentinel(chunks)[1..] == BeforeSentinel(chunks[1..]);
    }
  }

  lemma EndsLater(ev: IoEvent, rest: seq<IoEvent>)
    requires ev.Bytes? && EndsAtFirstEof(rest)
    ensures EndsAtFirstEof([ev] + rest)
    ensures OneAtATime([ev] + rest) == (ev.buf + OneAtATime(rest).0, OneAtATime(rest).1)
  {
    var all := [ev] + rest;
    assert all[1..] == rest && all[..|all| - 1] == [ev] + rest[..|rest| - 1];
  }
}
