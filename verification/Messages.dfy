/** What travels through the queues, and the atomic queue it travels in. */
module Messages {

  /** A MiddlewareMessage: data, the stop condition, or an error. */
  datatype Message<+T> = Content(value: T) | Stop | Error

  /** The data of a list of messages, in order. */
  function Payloads<T>(ms: seq<Message<T>>): seq<T> {
    if ms == [] then []
    else
      var front, last := ms[..|ms| - 1], ms[|ms| - 1];
      Payloads(front) + (if last.Content? then [last.value] else [])
  }

  ghost predicate AllContent<T>(ms: seq<Message<T>>) {
    forall i :: 0 <= i < |ms| ==> ms[i].Content?
  }

  /** Nothing but data, followed, once the producer has closed it, by exactly one Stop. */
  ghost predicate Produced<T>(ms: seq<Message<T>>, closed: bool) {
    if closed then ms != [] && ms[|ms| - 1].Stop? && AllContent(ms[..|ms| - 1]) else AllContent(ms)
  }

  lemma PayloadsOfAppend<T>(ms: seq<Message<T>>, m: Message<T>)
    ensures Payloads(ms + [m]) == Payloads(ms) + (if m.Content? then [m.value] else [])
  {
    assert (ms + [m])[..|ms|] == ms;
  }

  lemma PayloadsOfOne<T>(x: T)
    ensures AllContent([Content(x)]) && Payloads([Content(x)]) == [x]
  {
    assert [Content(x)][..0] == [];
  }

  lemma {:induction false} PayloadsOfConcat<T>(ms: seq<Message<T>>, ns: seq<Message<T>>)
    ensures Payloads(ms + ns) == Payloads(ms) + Payloads(ns)
    decreases |ns|
  {
    if ns == [] {
      assert ms + ns == ms;
    } else {
      var front, last := ns[..|ns| - 1], ns[|ns| - 1];
      PayloadsOfConcat(ms, front);
      assert ms + ns == (ms + front) + [last];
      PayloadsOfAppend(ms + front, last);
    }
  }

  lemma {:induction false} ContentKeepsLength<T>(ms: seq<Message<T>>)
    requires AllContent(ms)
    ensures |Payloads(ms)| == |ms| && forall i :: 0 <= i < |ms| ==> Payloads(ms)[i] == ms[i].value
    decreases |ms|
  {
    if ms == [] {
    } else {
      ContentKeepsLength(ms[..|ms| - 1]);
    }
  }

  /** A queue remembered whole: everything ever pushed, and how much of it has been popped. That pushes and
      pops may be taken as single steps is what the refinement in module BlockingQueue shows. */
  datatype Fifo<T> = Fifo(log: seq<T>, taken: nat) {
    predicate HasItem() { taken < |log| }

    function Front(): T
      requires HasItem()
    {
      log[taken]
    }

    function Push(x: T): Fifo<T> { Fifo(log + [x], taken) }

    function Pop(): Fifo<T> { Fifo(log, taken + 1) }
  }

  /** What a consumer that stops at the first non-data message has taken. */
  ghost predicate Consumed<T>(log: seq<Message<T>>, taken: nat, open: bool) {
    && taken <= |log|
    && (if open then AllContent(log[..taken])
        else taken > 0 && !log[taken - 1].Content? && AllContent(log[..taken - 1]))
  }

  lemma ConsumedAfterPush<T>(log: seq<Message<T>>, taken: nat, open: bool, m: Message<T>)
    requires Consumed(log, taken, open)
    ensures Consumed(log + [m], taken, open)
    ensures (log + [m])[..taken] == log[..taken]
  {
    assert (log + [m])[..taken] == log[..taken];
    if !open { assert (log + [m])[..taken - 1] == log[..taken - 1]; }
  }

  lemma ConsumedAfterPop<T>(log: seq<Message<T>>, taken: nat)
    requires Consumed(log, taken, true) && taken < |log|
    ensures Consumed(log, taken + 1, log[taken].Content?)
    ensures Payloads(log[..taken + 1])
         == Payloads(log[..taken]) + (if log[taken].Content? then [log[taken].value] else [])
  {
    assert log[..taken + 1] == log[..taken] + [log[taken]];
    PayloadsOfAppend(log[..taken], log[taken]);
  }

  /** A consumer that is still open has not reached a Stop that is in the log. */
  lemma StopStillAhead<T>(log: seq<Message<T>>, taken: nat)
    requires Consumed(log, taken, true)
    requires exists i :: 0 <= i < |log| && log[i].Stop?
    ensures taken < |log|
  {
    assert forall j :: 0 <= j < taken ==> log[..taken][j] == log[j];
  }

  /** A closed consumer of a log with one closing Stop has taken all of it. */
  lemma ClosedConsumerTookAll<T>(log: seq<Message<T>>, taken: nat, closed: bool)
    requires Produced(log, closed) && Consumed(log, taken, false)
    ensures closed && taken == |log|
  {
    if closed {
      assert forall j :: 0 <= j < |log| - 1 ==> log[..|log| - 1][j] == log[j];
    }
  }
}
