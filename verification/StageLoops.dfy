/** The loops of the pipeline threads as they are written, each run by one thread on queues that nobody else
    touches meanwhile, and proved to produce what the state machine's threads produce. */
module StageLoops {
  import opened Wrappers
  import opened Sequences
  import opened Messages
  import opened BlockingQueue
  import opened Pipeline
  import opened PipelineInvariants
  import opened PipelineResults
  import opened PipelineArrivals
  import R = WebServiceResolver

  /** Where a consumer's loop leaves a queue that holds an end: everything up to the end is gone. */
  function Rest<T>(log: seq<Message<T>>): seq<Message<T>>
    requires FirstEnd(log) < |log|
  {
    log[FirstEnd(log) + 1..]
  }

  lemma PayloadsAfterFirst<T>(log: seq<Message<T>>, n: nat)
    requires n < |log| && log[0].Content?
    ensures Payloads(log[..n + 1]) == [log[0].value] + Payloads(log[1..][..n])
  {
    assert log[..n + 1] == [log[0]] + log[1..][..n];
    PayloadsOfConcat([log[0]], log[1..][..n]);
    PayloadsOfAppend([], log[0]);
    assert [] + [log[0]] == [log[0]];
  }

  lemma EndOfPop<T>(log: seq<Message<T>>)
    requires FirstEnd(log) < |log| && log[0].Content?
    ensures FirstEnd(log[1..]) < |log[1..]|
    ensures Rest(log) == Rest(log[1..])
    ensures BeforeEnd(log) == [log[0].value] + BeforeEnd(log[1..])
    ensures log[FirstEnd(log)] == log[1..][FirstEnd(log[1..])]
  {
    var tail := log[1..];
    var n := FirstEnd(tail);
    assert FirstEnd(log) == n + 1 && tail[n] == log[n + 1] && tail[n + 1..] == log[n + 2..];
    PayloadsAfterFirst(log, n);
  }

  /** A consumer that started on log has handled done and is left with queue. */
  ghost predicate Scanned<T>(log: seq<Message<T>>, queue: seq<Message<T>>, done: seq<T>) {
    && FirstEnd(log) < |log| && FirstEnd(queue) < |queue|
    && Rest(queue) == Rest(log)
    && queue[FirstEnd(queue)] == log[FirstEnd(log)]
    && done + BeforeEnd(queue) == BeforeEnd(log)
  }

  lemma ScanNext<T>(log: seq<Message<T>>, queue: seq<Message<T>>, done: seq<T>)
    requires Scanned(log, queue, done) && queue[0].Content?
    ensures Scanned(log, queue[1..], done + [queue[0].value])
  {
    EndOfPop(queue);
  }

  lemma ScanEnd<T>(log: seq<Message<T>>, queue: seq<Message<T>>, done: seq<T>)
    requires Scanned(log, queue, done) && !queue[0].Content?
    ensures queue[0] == log[FirstEnd(log)] && queue[1..] == Rest(log) && done == BeforeEnd(log)
  {
  }

  /** The listener's round ends the loop: the flag is up, or obtain() gave a Stop, or it gave an Error and
      the flag is up when it is read again. */
  predicate StopSeen(obtained: Message<Connection>, flag: (bool, bool)) {
    flag.0 || obtained.Stop? || (obtained.Error? && flag.1)
  }

  /** The round that ends the loop. */
  function StopRound(obtained: seq<Message<Connection>>, flags: seq<(bool, bool)>): (n: nat)
    requires |obtained| == |flags|
    ensures n <= |flags|
  {
    if obtained == [] || StopSeen(obtained[0], flags[0]) then 0 else 1 + StopRound(obtained[1..], flags[1..])
  }

  /** A connection is pushed once, an accept error twice. */
  function Echoed(obtained: seq<Message<Connection>>): seq<Message<Connection>> {
    if obtained == [] then []
    else
      var n := |obtained| - 1;
      Echoed(obtained[..n]) + (if obtained[n].Error? then [Error, Error] else [obtained[n]])
  }

  lemma {:induction false} StopRoundIsFirst(obtained: seq<Message<Connection>>, flags: seq<(bool, bool)>, i: nat)
    requires |obtained| == |flags| && i < |flags| && StopSeen(obtained[i], flags[i])
    requires forall j :: 0 <= j < i ==> !StopSeen(obtained[j], flags[j])
    ensures StopRound(obtained, flags) == i
    decreases i
  {
    if i == 0 {
    } else {
      StopRoundIsFirst(obtained[1..], flags[1..], i - 1);
    }
  }

  lemma CountsOfEcho(before: seq<Message<Connection>>, m: Message<Connection>)
    ensures var after := before + (if m.Error? then [Error, Error] else [m]);
            && Payloads(after) == Payloads(before) + (if m.Content? then [m.value] else [])
            && ErrorCount(after) == ErrorCount(before) + (if m.Error? then 2 else 0)
            && StopCount(after) == StopCount(before) + (if m.Stop? then 1 else 0)
  {
    PayloadsOfAppend(before, m);
    CountsOfAppend(before, m);
    if m.Error? {
      assert before + [Error, Error] == (before + [Error]) + [Error];
      PayloadsOfAppend(before + [Error], Error);
      CountsOfAppend(before + [Error], Error);
    }
  }

  /** The loop passes on every connection once, in order, and every error twice. */
  lemma {:induction false} EchoedKeepsConnections(obtained: seq<Message<Connection>>)
    ensures Payloads(Echoed(obtained)) == Payloads(obtained)
    ensures ErrorCount(Echoed(obtained)) == 2 * ErrorCount(obtained)
    ensures StopCount(Echoed(obtained)) == StopCount(obtained)
    decreases |obtained|
  {
    if obtained == [] {
    } else {
      var n := |obtained| - 1;
      EchoedKeepsConnections(obtained[..n]);
      CountsOfEcho(Echoed(obtained[..n]), obtained[n]);
    }
  }

  lemma EchoedSnoc(obtained: seq<Message<Connection>>, m: Message<Connection>)
    ensures Echoed(obtained + [m]) == Echoed(obtained) + (if m.Error? then [Error, Error] else [m])
  {
    assert (obtained + [m])[..|obtained|] == obtained;
  }

  /** What is obtained in a round is passed on at its place. */
  lemma {:induction false} EchoedAtItsPlace(before: seq<Message<Connection>>, m: Message<Connection>,
                                            after: seq<Message<Connection>>)
    ensures Echoed(before + [m] + after)
         == Echoed(before) + (if m.Error? then [Error, Error] else [m]) + Echoed(after)
    decreases |after|
  {
    EchoedSnoc(before, m);
    if after == [] {
      assert before + [m] + after == before + [m];
    } else {
      var n := |after| - 1;
      assert before + [m] + after == (before + [m] + after[..n]) + [after[n]];
      EchoedAtItsPlace(before, m, after[..n]);
      EchoedSnoc(before + [m] + after[..n], after[n]);
      Regroup(Echoed(before) + (if m.Error? then [Error, Error] else [m]), Echoed(after[..n]),
             if after[n].Error? then [Error, Error] else [after[n]]);
    }
  }

  class Listener {
    const queue: Queue<Message<Connection>>

    constructor (queue: Queue<Message<Connection>>)
      ensures this.queue == queue
    {
      this.queue := queue;
    }

    /** What obtain() returns in each round, and what the flag reads in it, are given. */
    method Listen(obtained: seq<Message<Connection>>, flags: seq<(bool, bool)>)
      requires queue.Valid() && |obtained| == |flags|
      requires exists i :: 0 <= i < |flags| && StopSeen(obtained[i], flags[i])
      modifies queue
      ensures queue.Valid()
      ensures var n := StopRound(obtained, flags);
              && n < |flags|
              && queue.queue == old(queue.queue) + Echoed(obtained[..n])
                                + (if obtained[n].Error? && !flags[n].0 then [Error] else []) + [Stop]
    {
      var i := 0;
      ghost var before := queue.queue;
      while true
        invariant queue.Valid() && 0 <= i < |flags|
        invariant forall j :: 0 <= j < i ==> !StopSeen(obtained[j], flags[j])
        invariant queue.queue == before + Echoed(obtained[..i])
        decreases |flags| - i
      {
        var data := obtained[i];
        if flags[i].0 {
          StopRoundIsFirst(obtained, flags, i);
          queue.Push(Stop);
          break;
        }
        if !data.Content? {
          var stopThread := data.Stop? || flags[i].1;
          if data.Error? {
            queue.Push(Error);
          }
          if stopThread {
            StopRoundIsFirst(obtained, flags, i);
            queue.Push(Stop);
            break;
          }
        }
        queue.Push(data);
        assert obtained[..i + 1][..i] == obtained[..i];
        i := i + 1;
      }
    }
  }

  class RequestMiddlewareHandler {
    const consumingQueue: Queue<Message<Connection>>
    const requestsQueue: Queue<Message<Request>>

    constructor (consumingQueue: Queue<Message<Connection>>, requestsQueue: Queue<Message<Request>>)
      ensures this.consumingQueue == consumingQueue && this.requestsQueue == requestsQueue
    {
      this.consumingQueue, this.requestsQueue := consumingQueue, requestsQueue;
    }

    /** Handles everything before the first Stop or Error; forwards a Stop only if it was a Stop. The bytes
        that a connection delivers are given by read. */
    method Handle(read: Connection -> string) returns (received: seq<(Connection, string)>)
      requires consumingQueue.Valid() && requestsQueue.Valid()
      requires FirstEnd(consumingQueue.queue) < |consumingQueue.queue|
      modifies consumingQueue, requestsQueue
      ensures consumingQueue.Valid() && requestsQueue.Valid()
      ensures consumingQueue.queue == Rest(old(consumingQueue.queue))
      ensures Sockets(received) == BeforeEnd(old(consumingQueue.queue))
      ensures forall i :: 0 <= i < |received| ==> received[i].1 == read(received[i].0)
      ensures requestsQueue.queue == old(requestsQueue.queue) + Contents(Parsed(received))
                                     + (if old(consumingQueue.queue[FirstEnd(consumingQueue.queue)]).Stop?
                                        then [Stop] else [])
    {
      received := [];
      ghost var before, log := requestsQueue.queue, consumingQueue.queue;
      while true
        invariant consumingQueue.Valid() && requestsQueue.Valid()
        invariant Scanned(log, consumingQueue.queue, Sockets(received))
        invariant forall i :: 0 <= i < |received| ==> received[i].1 == read(received[i].0)
        invariant requestsQueue.queue == before + Contents(Parsed(received))
        decreases |consumingQueue.queue|
      {
        ghost var queue := consumingQueue.queue;
        var data := consumingQueue.Pop();
        if data.Content? {
          ScanNext(log, queue, Sockets(received));
          ParsedAfterRead(received, (data.value, read(data.value)));
          HandleSingle(data.value, read(data.value));
          received := received + [(data.value, read(data.value))];
          continue;
        }
        ScanEnd(log, queue, Sockets(received));
        if data.Stop? {
          OptionalToEnd();
        }
        break;
      }
    }

    method HandleSingle(socket: Connection, requestData: string)
      requires requestsQueue.Valid()
      modifies requestsQueue
      ensures requestsQueue.Valid()
      ensures requestsQueue.queue == old(requestsQueue.queue)
                                     + (if Blank(requestData) then [] else [Content(Request(socket, requestData))])
      ensures (exists i :: 0 <= i < |requestData| && requestData[i] != '\0') ==>
                requestsQueue.queue == old(requestsQueue.queue) + [Content(Request(socket, requestData))]
      ensures (forall i :: 0 <= i < |requestData| ==> requestData[i] == '\0') ==>
                requestsQueue.queue == old(requestsQueue.queue)
    {
      if forall i :: 0 <= i < |requestData| ==> requestData[i] == '\0' {
        return;
      }
      requestsQueue.Push(Content(Request(socket, requestData)));
    }

    method OptionalToEnd()
      requires requestsQueue.Valid()
      modifies requestsQueue
      ensures requestsQueue.Valid() && requestsQueue.queue == old(requestsQueue.queue) + [Stop]
    {
      requestsQueue.Push(Stop);
    }
  }

  /** A service's handleTask. */
  type Task = Request -> Option<Message<Response>>

  /** What a service replies to a list of requests, in order. */
  function Replies(task: Task, requests: seq<Request>): seq<Message<Response>> {
    if requests == [] then []
    else
      var front, reply := requests[..|requests| - 1], task(requests[|requests| - 1]);
      Replies(task, front) + (if reply.Some? then [reply.value] else [])
  }

  lemma RepliesAfter(before: seq<Message<Response>>, task: Task, requests: seq<Request>, r: Request)
    ensures before + Replies(task, requests + [r])
         == if task(r).Some? then before + Replies(task, requests) + [task(r).value]
            else before + Replies(task, requests)
  {
    assert (requests + [r])[..|requests|] == requests;
    if task(r).None? { assert Replies(task, requests) + [] == Replies(task, requests); }
  }

  /** Each request has its reply at its place, or none. */
  lemma {:induction false} ReplyAtItsPlace(task: Task, before: seq<Request>, r: Request, after: seq<Request>)
    ensures Replies(task, before + [r] + after)
         == Replies(task, before) + (match task(r) case Some(m) => [m] case None => []) + Replies(task, after)
    decreases |after|
  {
    if after == [] {
      assert before + [r] + after == before + [r];
      assert (before + [r])[..|before|] == before;
    } else {
      var n := |after| - 1;
      ReplyAtItsPlace(task, before, r, after[..n]);
      assert (before + [r] + after)[..|before| + 1 + n] == before + [r] + after[..n];
      var reply := if task(after[n]).Some? then [task(after[n]).value] else [];
      assert Replies(task, after) == Replies(task, after[..n]) + reply;
    }
  }

  class BaseWebAppService {
    const entryQueue: Queue<Message<Request>>
    const exitQueue: Queue<Message<Response>>

    constructor (exitQueue: Queue<Message<Response>>)
      ensures this.exitQueue == exitQueue && fresh(entryQueue) && entryQueue.Valid() && entryQueue.queue == []
    {
      entryQueue := new Queue<Message<Request>>();
      this.exitQueue := exitQueue;
    }

    method Run(handleTask: Task)
      requires entryQueue.Valid() && exitQueue.Valid()
      requires FirstEnd(entryQueue.queue) < |entryQueue.queue|
      modifies entryQueue, exitQueue
      ensures entryQueue.Valid() && exitQueue.Valid()
      ensures entryQueue.queue == Rest(old(entryQueue.queue))
      ensures exitQueue.queue == old(exitQueue.queue) + Replies(handleTask, BeforeEnd(old(entryQueue.queue)))
                                 + (if old(entryQueue.queue[FirstEnd(entryQueue.queue)]).Stop? then [Stop] else [])
    {
      ghost var before, log := exitQueue.queue, entryQueue.queue;
      ghost var done := [];
      while true
        invariant entryQueue.Valid() && exitQueue.Valid()
        invariant Scanned(log, entryQueue.queue, done)
        invariant exitQueue.queue == before + Replies(handleTask, done)
        decreases |entryQueue.queue|
      {
        ghost var queue := entryQueue.queue;
        var data := entryQueue.Pop();
        if data.Content? {
          ScanNext(log, queue, done);
          RepliesAfter(before, handleTask, done, data.value);
          var result := handleTask(data.value);
          if result.Some? {
            exitQueue.Push(result.value);
          }
          done := done + [data.value];
          continue;
        }
        ScanEnd(log, queue, done);
        if data.Stop? {
          exitQueue.Push(Stop);
        }
        break;
      }
    }
  }

  /** What stopping the first n services one after the other puts on the responses queue: the replies to
      what is left in each entry queue, and its Stop. */
  function StoppedInTurn(tasks: seq<Task>, entries: seq<seq<Request>>, n: nat): seq<Message<Response>>
    requires n <= |entries| == |tasks|
  {
    if n == 0 then [] else StoppedInTurn(tasks, entries, n - 1) + Replies(tasks[n - 1], entries[n - 1]) + [Stop]
  }

  lemma StoppedNext(before: seq<Message<Response>>, tasks: seq<Task>, entries: seq<seq<Request>>, i: nat)
    requires i < |entries| == |tasks|
    ensures (before + StoppedInTurn(tasks, entries, i)) + Replies(tasks[i], entries[i]) + [Stop]
         == before + StoppedInTurn(tasks, entries, i + 1)
  {
    var stopped, replies := StoppedInTurn(tasks, entries, i), Replies(tasks[i], entries[i]);
    assert (before + stopped) + replies + [Stop] == before + (stopped + replies + [Stop]);
  }

  lemma NothingContents(c: Services, n: nat)
    ensures forall i :: 0 <= i < n ==> Contents(Routed(c, [], i)) == []
  {
  }

  lemma RoutedToAll(c: Services, requests: seq<Request>, r: Request, n: nat)
    ensures forall i :: 0 <= i < n ==>
              Contents(Routed(c, requests + [r], i))
              == Contents(Routed(c, requests, i)) + (if R.Resolve(c, r) == Some(i) then [Content(r)] else [])
  {
    forall i | 0 <= i < n
      ensures Contents(Routed(c, requests + [r], i))
              == Contents(Routed(c, requests, i)) + (if R.Resolve(c, r) == Some(i) then [Content(r)] else [])
    {
      RoutedAfterDispatch(c, requests, r, i);
    }
  }

  lemma PayloadsOfContents<T>(log: seq<Message<T>>, data: seq<T>)
    ensures Payloads(log + Contents(data)) == Payloads(log) + data
    ensures AllContent(log) ==> AllContent(log + Contents(data))
  {
    PayloadsOfConcat(log, Contents(data));
    ContentKeepsLength(Contents(data));
  }

  lemma EndOfClosedLog<T>(log: seq<Message<T>>)
    requires AllContent(log)
    ensures FirstEnd(log + [Stop]) == |log| && BeforeEnd(log + [Stop]) == Payloads(log)
  {
    assert (log + [Stop])[..|log|] == log;
    FirstEndIs(log + [Stop], |log|);
  }

  /** The first service is stopped first. */
  lemma {:induction false} FirstServiceIsStoppedFirst(tasks: seq<Task>, entries: seq<seq<Request>>, n: nat)
    requires 0 < n <= |entries| == |tasks|
    ensures StoppedInTurn(tasks, entries, n)
         == Replies(tasks[0], entries[0]) + [Stop] + StoppedInTurn(tasks[1..], entries[1..], n - 1)
    decreases n
  {
    var first := Replies(tasks[0], entries[0]) + [Stop];
    if n == 1 {
      assert StoppedInTurn(tasks, entries, 1) == [] + Replies(tasks[0], entries[0]) + [Stop];
    } else {
      FirstServiceIsStoppedFirst(tasks, entries, n - 1);
      var middle, last := StoppedInTurn(tasks[1..], entries[1..], n - 2), Replies(tasks[n - 1], entries[n - 1]);
      assert (first + middle) + last + [Stop] == first + (middle + last + [Stop]);
    }
  }

  class ApplicationMiddlewareHandler {
    const consumingQueue: Queue<Message<Request>>
    const responsesQueue: Queue<Message<Response>>
    const services: seq<BaseWebAppService>
    const canHandle: Services

    constructor (consumingQueue: Queue<Message<Request>>, responsesQueue: Queue<Message<Response>>,
                 services: seq<BaseWebAppService>, canHandle: Services)
      ensures this.consumingQueue == consumingQueue && this.responsesQueue == responsesQueue
      ensures this.services == services && this.canHandle == canHandle
    {
      this.consumingQueue, this.responsesQueue := consumingQueue, responsesQueue;
      this.services, this.canHandle := services, canHandle;
    }

    ghost function EntryQueues(): set<Queue<Message<Request>>> {
      set i | 0 <= i < |services| :: services[i].entryQueue
    }

    /** Every service has an entry queue of its own and replies to the responses queue. */
    ghost predicate Linked() {
      && |services| == |canHandle| > 0
      && consumingQueue !in EntryQueues()
      && (forall i, j :: 0 <= i < j < |services| ==> services[i].entryQueue != services[j].entryQueue)
      && (forall i :: 0 <= i < |services| ==> services[i].exitQueue == responsesQueue)
    }

    ghost predicate QueuesValid()
      reads consumingQueue, responsesQueue, EntryQueues()
    {
      && consumingQueue.Valid() && responsesQueue.Valid()
      && forall i :: 0 <= i < |services| ==> services[i].entryQueue.Valid()
    }

    method HandleSingle(handlingData: Request)
      requires Linked() && QueuesValid()
      modifies EntryQueues()
      ensures QueuesValid() && unchanged(consumingQueue)
      ensures forall i :: 0 <= i < |services| ==>
                services[i].entryQueue.queue == old(services[i].entryQueue.queue)
                  + (if R.Resolve(canHandle, handlingData) == Some(i) then [Content(handlingData)] else [])
    {
      var selectedApp := R.Resolve(canHandle, handlingData);
      R.ResolvePicksFirstElseZero(canHandle, handlingData);
      services[selectedApp.value].entryQueue.Push(Content(handlingData));
    }

    method StopService(service: BaseWebAppService, handleTask: Task)
      requires service.entryQueue.Valid() && service.exitQueue.Valid() && AllContent(service.entryQueue.queue)
      modifies service.entryQueue, service.exitQueue
      ensures service.entryQueue.Valid() && service.exitQueue.Valid()
      ensures service.exitQueue.queue == old(service.exitQueue.queue)
                                         + Replies(handleTask, Payloads(old(service.entryQueue.queue))) + [Stop]
    {
      EndOfClosedLog(service.entryQueue.queue);
      service.entryQueue.Push(Stop);
      service.Run(handleTask);
    }

    /** The entry queues from service i on hold what they held at the start. */
    ghost predicate Untouched(start: seq<seq<Message<Request>>>, i: nat)
      reads EntryQueues()
    {
      && |start| == |services|
      && forall j :: i <= j < |services| ==> services[j].entryQueue.queue == start[j] && AllContent(start[j])
    }

    method StopNext(i: nat, handleTask: Task, ghost start: seq<seq<Message<Request>>>)
      requires Linked() && QueuesValid() && i < |services| && Untouched(start, i)
      modifies EntryQueues(), responsesQueue
      ensures QueuesValid() && unchanged(consumingQueue) && Untouched(start, i + 1)
      ensures responsesQueue.queue == old(responsesQueue.queue) + Replies(handleTask, Payloads(start[i])) + [Stop]
    {
      assert services[i].entryQueue in EntryQueues();
      StopService(services[i], handleTask);
    }

    /** Tells each service to stop and waits for it: what it still does by then is what Run does. */
    method OptionalToEnd(tasks: seq<Task>)
      requires Linked() && QueuesValid() && |tasks| == |services|
      requires forall i :: 0 <= i < |services| ==> AllContent(services[i].entryQueue.queue)
      modifies EntryQueues(), responsesQueue
      ensures QueuesValid() && unchanged(consumingQueue)
      ensures var entries := seq(|services|, i requires 0 <= i < |services| =>
                               Payloads(old(services[i].entryQueue.queue)));
              responsesQueue.queue == old(responsesQueue.queue) + StoppedInTurn(tasks, entries, |services|) + [Stop]
    {
      ghost var start := seq(|services|, i requires 0 <= i < |services| => old(services[i].entryQueue.queue));
      ghost var entries := seq(|services|, i requires 0 <= i < |services| =>
                             Payloads(old(services[i].entryQueue.queue)));
      ghost var before := responsesQueue.queue;
      for i := 0 to |services|
        invariant QueuesValid() && unchanged(consumingQueue) && Untouched(start, i)
        invariant responsesQueue.queue == before + StoppedInTurn(tasks, entries, i)
      {
        StopNext(i, tasks[i], start);
        StoppedNext(before, tasks, entries, i);
      }
      responsesQueue.Push(Stop);
    }

    /** The entry queues hold what they held at the start and their share of these requests. */
    ghost predicate Received(start: seq<seq<Message<Request>>>, requests: seq<Request>)
      reads EntryQueues()
    {
      && |start| == |services|
      && forall i :: 0 <= i < |services| ==>
           services[i].entryQueue.queue == start[i] + Contents(Routed(canHandle, requests, i))
    }

    method HandleNext(data: Request, ghost start: seq<seq<Message<Request>>>, ghost requests: seq<Request>)
      requires Linked() && QueuesValid() && Received(start, requests)
      modifies EntryQueues()
      ensures QueuesValid() && unchanged(consumingQueue) && Received(start, requests + [data])
    {
      RoutedToAll(canHandle, requests, data, |services|);
      HandleSingle(data);
    }

    /** Dispatches everything before the first Stop or Error, which it returns. */
    method DispatchUntilEnd(ghost start: seq<seq<Message<Request>>>) returns (end: Message<Request>)
      requires Linked() && QueuesValid() && Received(start, [])
      requires FirstEnd(consumingQueue.queue) < |consumingQueue.queue|
      modifies EntryQueues(), consumingQueue
      ensures QueuesValid() && consumingQueue.queue == Rest(old(consumingQueue.queue))
      ensures end == old(consumingQueue.queue[FirstEnd(consumingQueue.queue)])
      ensures Received(start, BeforeEnd(old(consumingQueue.queue)))
    {
      ghost var log := consumingQueue.queue;
      ghost var done := [];
      end := Error;
      while true
        invariant QueuesValid() && Received(start, done)
        invariant Scanned(log, consumingQueue.queue, done)
        decreases |consumingQueue.queue|
      {
        ghost var queue := consumingQueue.queue;
        var data := consumingQueue.Pop();
        if data.Content? {
          ScanNext(log, queue, done);
          HandleNext(data.value, start, done);
          done := done + [data.value];
          continue;
        }
        ScanEnd(log, queue, done);
        end := data;
        break;
      }
    }

    /** After a Stop, and only then, the services are stopped in turn. */
    method Handle(tasks: seq<Task>)
      requires Linked() && QueuesValid() && |tasks| == |services|
      requires FirstEnd(consumingQueue.queue) < |consumingQueue.queue|
      requires forall i :: 0 <= i < |services| ==> AllContent(services[i].entryQueue.queue)
      modifies EntryQueues(), responsesQueue, consumingQueue
      ensures QueuesValid() && consumingQueue.queue == Rest(old(consumingQueue.queue))
      ensures old(consumingQueue.queue[FirstEnd(consumingQueue.queue)]).Stop? ==>
                var entries := seq(|services|, i requires 0 <= i < |services| =>
                  Payloads(old(services[i].entryQueue.queue))
                  + Routed(canHandle, BeforeEnd(old(consumingQueue.queue)), i));
                responsesQueue.queue == old(responsesQueue.queue) + StoppedInTurn(tasks, entries, |services|) + [Stop]
      ensures !old(consumingQueue.queue[FirstEnd(consumingQueue.queue)]).Stop? ==> unchanged(responsesQueue)
    {
      ghost var log := consumingQueue.queue;
      ghost var start := seq(|services|, i requires 0 <= i < |services| => old(services[i].entryQueue.queue));
      NothingContents(canHandle, |services|);
      var end := DispatchUntilEnd(start);
      if end.Stop? {
        forall i | 0 <= i < |services|
          ensures AllContent(services[i].entryQueue.queue)
          ensures Payloads(services[i].entryQueue.queue)
                  == Payloads(old(services[i].entryQueue.queue)) + Routed(canHandle, BeforeEnd(log), i)
        {
          PayloadsOfContents(old(services[i].entryQueue.queue), Routed(canHandle, BeforeEnd(log), i));
        }
        label stopping:
        OptionalToEnd(tasks);
        assert seq(|services|, i requires 0 <= i < |services| => Payloads(old@stopping(services[i].entryQueue.queue)))
            == seq(|services|, i requires 0 <= i < |services| =>
                 Payloads(old(services[i].entryQueue.queue)) + Routed(canHandle, BeforeEnd(log), i));
      }
    }
  }

  class ResponseMiddlewareHandler {
    const consumingQueue: Queue<Message<Response>>
    var written: seq<Response>      // what went to the sockets

    constructor (consumingQueue: Queue<Message<Response>>)
      ensures this.consumingQueue == consumingQueue && written == []
    {
      this.consumingQueue, written := consumingQueue, [];
    }

    /** Writes every response before the first Stop or Error and nothing after it. */
    method Handle()
      requires consumingQueue.Valid() && FirstEnd(consumingQueue.queue) < |consumingQueue.queue|
      modifies this, consumingQueue
      ensures consumingQueue.Valid() && consumingQueue.queue == Rest(old(consumingQueue.queue))
      ensures written == old(written) + BeforeEnd(old(consumingQueue.queue))
    {
      ghost var before, log := written, consumingQueue.queue;
      ghost var done := [];
      while true
        invariant consumingQueue.Valid() && Scanned(log, consumingQueue.queue, done)
        invariant written == before + done
        decreases |consumingQueue.queue|
      {
        ghost var queue := consumingQueue.queue;
        var data := consumingQueue.Pop();
        if data.Content? {
          ScanNext(log, queue, done);
          written := written + [data.value];
          done := done + [data.value];
          continue;
        }
        ScanEnd(log, queue, done);
        break;
      }
    }
  }
}
