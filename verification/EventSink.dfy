/** The queue between the emulator and the host (listener.rs), and the title it keeps up to date (term.rs). */
module EventSink {
  import opened Common
  import opened SessionModel

  class EventSink {
    var queue: seq<TermEvent>

    constructor ()
      ensures queue == []
    {
      queue := [];
    }

    /** `send_event`, called by the emulator while it consumes bytes. */
    method Push(ev: TermEvent)
      modifies this
      ensures queue == old(queue) + [ev]
    {
      queue := queue + [ev];
    }

    /** Hands everything over and leaves an empty queue. */
    method Drain() returns (events: seq<TermEvent>)
      modifies this
      ensures events == old(queue) && queue == []
    {
      events := queue;
      queue := [];
    }
  }

  /** The title after some events. */
  function TitleAfter(title: string, events: seq<TermEvent>): string {
    if events == [] then title
    else match events[|events| - 1]
      case Title(t) => t
      case ResetTitle => ""
      case _ => TitleAfter(title, events[..|events| - 1])
  }

  predicate SetsTitle(ev: TermEvent) {
    ev.Title? || ev.ResetTitle?
  }

  function TitleOf(ev: TermEvent): string {
    if ev.Title? then ev.title else ""
  }

  /** The part of the terminal host that keeps the title. */
  class TitleTracker {
    const sink: EventSink
    var currentTitle: string

    constructor (sink: EventSink)
      ensures this.sink == sink && currentTitle == ""
    {
      this.sink, currentTitle := sink, "";
    }

    /** Empties the queue; all events go on to the pump, title events also update the title. */
    method DrainEvents() returns (events: seq<TermEvent>)
      modifies this`currentTitle, sink
      ensures events == old(sink.queue) && sink.queue == []
      ensures currentTitle == TitleAfter(old(currentTitle), events)
    {
      events := sink.Drain();
      for i := 0 to |events|
        invariant sink.queue == [] && currentTitle == TitleAfter(old(currentTitle), events[..i])
      {
        assert events[..i + 1][..i] == events[..i];
        match events[i]
        case Title(t) => currentTitle := t;
        case ResetTitle => currentTitle := "";
        case _ =>
      }
      assert events[..|events|] == events;
    }
  }

  /** It does not matter where the pump cuts the stream of events into batches. */
  lemma {:induction false} BatchesDoNotMatter(title: string, a: seq<TermEvent>, b: seq<TermEvent>)
    ensures TitleAfter(title, a + b) == TitleAfter(TitleAfter(title, a), b)
    decreases |b|
  {
    if b == [] {
      assert a + b == a;
    } else {
      BatchesDoNotMatter(title, a, b[..|b| - 1]);
      assert (a + b)[..|a + b| - 1] == a + b[..|b| - 1];
    }
  }

  /** The title is that of the last title event, whatever else comes after it. */
  lemma {:induction false} TitleIsLastSet(title: string, events: seq<TermEvent>, i: nat)
    requires i < |events| && SetsTitle(events[i])
    requires forall j | i < j < |events| :: !SetsTitle(events[j])
    ensures TitleAfter(title, events) == TitleOf(events[i])
    decreases |events|
  {
    if i < |events| - 1 {
      TitleIsLastSet(title, events[..|events| - 1], i);
    }
  }
}
