/** What the server promises over whole runs: nothing is reordered, duplicated or lost on the way from the
    connections queue to the services, and exactly which responses are written before it shuts down. */
module PipelineResults {
  import opened Wrappers
  import opened Messages
  import opened Pipeline
  import opened PipelineInvariants
  import R = WebServiceResolver

  /** The position of the first message that is not data. */
  function FirstEnd<T>(log: seq<Message<T>>): (n: nat)
    ensures n <= |log|
  {
    if log == [] || !log[0].Content? then 0 else 1 + FirstEnd(log[1..])
  }

  /** The data that lies before any Stop or Error. */
  function BeforeEnd<T>(log: seq<Message<T>>): seq<T> { Payloads(log[..FirstEnd(log)]) }

  function Contents<T>(data: seq<T>): seq<Message<T>> { seq(|data|, i requires 0 <= i < |data| => Content(data[i])) }

  lemma {:induction false} FirstEndIs<T>(log: seq<Message<T>>, n: nat)
    requires n <= |log| && AllContent(log[..n])
    ensures n <= FirstEnd(log)
    ensures n < |log| && !log[n].Content? ==> FirstEnd(log) == n
    decreases |log|
  {
    if n > 0 {
      assert log[..n][0].Content?;
      assert log[1..][..n - 1] == log[..n][1..];
      FirstEndIs(log[1..], n - 1);
    } else if log != [] && log[0].Content? {
      FirstEndIs(log[1..], 0);
    }
  }

  lemma PrefixPayloads<T>(log: seq<Message<T>>, n: nat, m: nat)
    requires n <= m <= |log|
    ensures Payloads(log[..n]) <= Payloads(log[..m])
  {
    assert log[..m] == log[..n] + log[n..m];
    PayloadsOfConcat(log[..n], log[n..m]);
  }

  /** A consumer has taken a prefix of what lies before the first end; once closed, all of it. */
  lemma ConsumedIsPrefix<T>(log: seq<Message<T>>, taken: nat, open: bool)
    requires Consumed(log, taken, open)
    ensures Payloads(log[..taken]) <= BeforeEnd(log)
    ensures !open ==> Payloads(log[..taken]) == BeforeEnd(log) && FirstEnd(log) == taken - 1
  {
    if open {
      FirstEndIs(log, taken);
      PrefixPayloads(log, taken, FirstEnd(log));
    } else {
      FirstEndIs(log, taken - 1);
      assert log[..taken] == log[..taken - 1] + [log[taken - 1]];
      PayloadsOfAppend(log[..taken - 1], log[taken - 1]);
    }
  }

  lemma {:induction false} ContentsOfPayloads<T>(ms: seq<Message<T>>)
    requires AllContent(ms)
    ensures ms == Contents(Payloads(ms))
  {
    ContentKeepsLength(ms);
  }

  // ---- Request handler ----

  ghost predicate TookPrefix(log: seq<Message<Connection>>, pc: RequestPc, received: seq<(Connection, string)>) {
    && Sockets(received) <= BeforeEnd(log)
    && (pc.RequestDone? ==>
          && Sockets(received) == BeforeEnd(log)
          && FirstEnd(log) < |log| && log[FirstEnd(log)].Stop?)
  }

  ghost predicate ForwardedPrefix(log: seq<Message<Request>>, pc: RequestPc, parsed: seq<Request>) {
    && Payloads(log) <= parsed
    && |parsed| <= |Payloads(log)| + 1
    && (if pc.RequestDone? then log == Contents(parsed) + [Stop] else AllContent(log))
  }

  ghost predicate RequestStageIsSafe(s: State) {
    && TookPrefix(s.connections.log, s.request, s.received)
    && ForwardedPrefix(s.requests.log, s.request, Parsed(s.received))
  }

  lemma ClosedLog<T>(log: seq<Message<T>>)
    requires Produced(log, true)
    ensures log == Contents(Payloads(log)) + [Stop]
  {
    var front := log[..|log| - 1];
    assert log == front + [Stop];
    PayloadsOfAppend(front, Stop);
    ContentsOfPayloads(front);
  }

  lemma WhatWasTaken(f: Fifo<Message<Connection>>, pc: RequestPc, received: seq<(Connection, string)>)
    requires Takes(f, pc, received)
    ensures TookPrefix(f.log, pc, received)
  {
    ConsumedIsPrefix(f.log, f.taken, RequestOpen(pc));
  }

  lemma WhatWasForwarded(received: seq<(Connection, string)>, pc: RequestPc, log: seq<Message<Request>>)
    requires Forwards(received, pc, log)
    ensures ForwardedPrefix(log, pc, Parsed(received))
  {
    if pc.RequestDone? { ClosedLog(log); }
  }

  lemma RequestInvIsSafe(s: State)
    requires RequestTakes(s) && RequestForwards(s)
    ensures RequestStageIsSafe(s)
  {
    WhatWasTaken(s.connections, s.request, s.received);
    WhatWasForwarded(s.received, s.request, s.requests.log);
  }

  /** In every reachable state the request handler has handled, in order, a prefix of the connections queued
      before the first Stop or Error; what it has forwarded are the non-blank reads, parsed and in order,
      but for the one in hand; and when it ends on a Stop it has handled that whole prefix and has closed
      its own output with exactly one Stop. */
  lemma RequestStageIsPrefixSafe(c: Services, s: State)
    requires c != [] && Reachable(c, s)
    ensures RequestStageIsSafe(s)
  {
    ReachableInv(c, s);
    RequestInvIsSafe(s);
  }

  // ---- Dispatch ----

  /** How many requests the first n services are given. */
  function RoutedUpTo(c: Services, requests: seq<Request>, n: nat): nat {
    if n == 0 then 0 else RoutedUpTo(c, requests, n - 1) + |Routed(c, requests, n - 1)|
  }

  lemma RoutedToTarget(c: Services, requests: seq<Request>, r: Request, target: nat, i: nat)
    requires R.Resolve(c, r) == Some(target)
    ensures |Routed(c, requests + [r], i)| == |Routed(c, requests, i)| + (if target == i then 1 else 0)
  {
    RoutedAfterDispatch(c, requests, r, i);
  }

  lemma {:induction false} RoutedUpToAfterDispatch(c: Services, requests: seq<Request>, r: Request, target: nat, n: nat)
    requires R.Resolve(c, r) == Some(target)
    ensures RoutedUpTo(c, requests + [r], n) == RoutedUpTo(c, requests, n) + (if target < n then 1 else 0)
    decreases n
  {
    if n == 0 {
    } else {
      RoutedUpToAfterDispatch(c, requests, r, target, n - 1);
      RoutedToTarget(c, requests, r, target, n - 1);
    }
  }

  lemma {:induction false} NothingRouted(c: Services, n: nat)
    ensures RoutedUpTo(c, [], n) == 0
    decreases n
  {
    if n == 0 {
    } else {
      NothingRouted(c, n - 1);
    }
  }

  lemma {:induction false} RoutedCoversAll(c: Services, requests: seq<Request>)
    requires c != []
    ensures RoutedUpTo(c, requests, |c|) == |requests|
    decreases |requests|
  {
    if requests == [] {
      NothingRouted(c, |c|);
    } else {
      var n := |requests| - 1;
      RoutedCoversAll(c, requests[..n]);
      assert requests == requests[..n] + [requests[n]];
      R.ResolvePicksFirstElseZero(c, requests[n]);
      RoutedUpToAfterDispatch(c, requests[..n], requests[n], R.Resolve(c, requests[n]).value, |c|);
    }
  }

  lemma DispatchedIsPrefix(c: Services, s: State)
    requires AppInv(c, s)
    ensures s.dispatched <= Payloads(s.requests.log)
  {
    PrefixPayloads(s.requests.log, s.requests.taken, |s.requests.log|);
    assert s.requests.log[..|s.requests.log|] == s.requests.log;
  }

  lemma EntryIsRouted(c: Services, s: State, i: nat)
    requires |s.services| == |c| && i < |c| && EntryInv(c, s, i) && ServiceInv(s.services[i])
    ensures Payloads(s.services[i].entry.log) == Routed(c, s.dispatched, i)
    ensures s.services[i].handled <= Routed(c, s.dispatched, i)
  {
    var e := s.services[i].entry;
    PrefixPayloads(e.log, e.taken, |e.log|);
    assert e.log[..|e.log|] == e.log;
  }

  /** In every reachable state each entry queue holds, in order, exactly the dispatched requests whose
      first fitting service (or else service 0) it is; together the entry queues account for every
      dispatched request once; and what has been dispatched is a prefix of what was forwarded. */
  lemma DispatchIsExactlyOnceAndOrdered(c: Services, s: State)
    requires c != [] && Reachable(c, s)
    ensures |s.services| == |c|
    ensures forall i :: 0 <= i < |c| ==> Payloads(s.services[i].entry.log) == Routed(c, s.dispatched, i)
    ensures RoutedUpTo(c, s.dispatched, |c|) == |s.dispatched|
    ensures s.dispatched <= Payloads(s.requests.log)
    ensures forall i :: 0 <= i < |c| ==> s.services[i].handled <= Routed(c, s.dispatched, i)
  {
    ReachableInv(c, s);
    RoutedCoversAll(c, s.dispatched);
    forall i | 0 <= i < |c|
      ensures Payloads(s.services[i].entry.log) == Routed(c, s.dispatched, i)
      ensures s.services[i].handled <= Routed(c, s.dispatched, i)
    {
      EntryIsRouted(c, s, i);
    }
    DispatchedIsPrefix(c, s);
  }

  // ---- Responses ----

  lemma {:induction false} FromConcat(log: seq<Outgoing>, tail: seq<Outgoing>, p: nat)
    ensures From(log + tail, p) == From(log, p) + From(tail, p)
    decreases |tail|
  {
    if tail == [] {
      assert log + tail == log;
    } else {
      var n := |tail| - 1;
      FromConcat(log, tail[..n], p);
      assert log + tail == (log + tail[..n]) + [tail[n]];
      LogAfterPush(log + tail[..n], tail[n], p);
    }
  }

  lemma {:induction false} NoStopsBy(log: seq<Outgoing>)
    requires forall i :: 0 <= i < |log| ==> !log[i].message.Stop?
    ensures StopsBy(log) == []
    decreases |log|
  {
    if log == [] {
    } else {
      NoStopsBy(log[..|log| - 1]);
    }
  }

  lemma {:induction false} FirstStopsProducer(log: seq<Outgoing>, j: nat)
    requires j < |log| && log[j].message.Stop?
    requires forall i :: 0 <= i < j ==> !log[i].message.Stop?
    ensures StopsBy(log) != [] && StopsBy(log)[0] == log[j].from
    decreases |log|
  {
    var n := |log| - 1;
    if j == n {
      NoStopsBy(log[..n]);
    } else {
      FirstStopsProducer(log[..n], j);
    }
  }

  /** Everything service 0 replied lies before the first Stop of the responses queue. */
  lemma FirstServiceIsBeforeFirstStop(s: State, j: nat)
    requires s.services != [] && ProducersInv(s) && NoStopReplies(s) && s.app.AppDone? && s.services[0].pc.ServiceDone?
    requires j < |s.responses.log| && s.responses.log[j].message.Stop?
    requires forall i :: 0 <= i < j ==> !s.responses.log[i].message.Stop?
    ensures s.responses.log[j].from == 0
    ensures From(s.responses.log[..j], 0) == s.services[0].replies
  {
    var log, replies := s.responses.log, s.services[0].replies;
    FirstStopsProducer(log, j);
    assert ProducerInv(s, 0);
    var before := From(log[..j], 0);
    assert log == (log[..j] + [log[j]]) + log[j + 1..];
    FromConcat(log[..j] + [log[j]], log[j + 1..], 0);
    LogAfterPush(log[..j], log[j], 0);
    var whole := From(log, 0);
    assert whole == replies + [Stop] && whole[|before|].Stop?;
    assert |before| == |replies|;
    assert whole[..|before|] == before;
  }

  lemma {:induction false} MemberOfFrom(log: seq<Outgoing>, j: nat)
    requires j < |log|
    ensures log[j].message in From(log, log[j].from)
    decreases |log|
  {
    var n := |log| - 1;
    if j == n {
      assert From(log, log[j].from)[|From(log[..n], log[j].from)|] == log[j].message;
    } else {
      MemberOfFrom(log[..n], j);
    }
  }

  ghost predicate NoErrorReplies(s: State) {
    forall i :: 0 <= i < |s.services| ==> AllContent(s.services[i].replies)
  }

  /** Only the services can put an Error on the responses queue. */
  lemma ErrorsComeFromServices(s: State, j: nat)
    requires ProducersInv(s) && NoErrorReplies(s) && j < |s.responses.log|
    ensures !s.responses.log[j].message.Error?
  {
    var x := s.responses.log[j];
    MemberOfFrom(s.responses.log, j);
    if x.from < |s.services| {
      var sv := s.services[x.from];
      assert ProducerInv(s, x.from) && AllContent(sv.replies);
      assert sv.pc.Replying? ==> From(s.responses.log, x.from) == sv.replies[..|sv.replies| - 1];
    }
  }

  lemma ReturnedMeansAllDone(c: Services, s: State)
    requires Inv(c, s) && s.joined == 4
    ensures s.request.RequestDone? && s.app.AppDone? && s.response.ResponseDone?
    ensures forall i :: 0 <= i < |c| ==> s.services[i].pc.ServiceDone?
  {
    ClosedConsumerTookAll(s.requests.log, s.requests.taken, s.request.RequestDone?);
    forall i | 0 <= i < |c| ensures s.services[i].pc.ServiceDone? { assert EntryInv(c, s, i); }
  }

  lemma DoneServiceHandledAll(c: Services, s: State, i: nat)
    requires |s.services| == |c| && i < |c| && EntryInv(c, s, i) && ServiceInv(s.services[i])
    requires s.services[i].pc.ServiceDone?
    ensures s.services[i].handled == Routed(c, s.dispatched, i)
  {
    var e := s.services[i].entry;
    ClosedConsumerTookAll(e.log, e.taken, ClosedEntry(s.app, i));
    assert e.log[..e.taken] == e.log;
  }

  lemma DispatchedAll(c: Services, s: State)
    requires RequestForwards(s) && AppInv(c, s) && s.request.RequestDone? && s.app.AppDone?
    ensures s.dispatched == Parsed(s.received)
  {
    ClosedConsumerTookAll(s.requests.log, s.requests.taken, true);
    assert s.requests.log[..s.requests.taken] == s.requests.log;
  }

  lemma ServicesHandledAll(c: Services, s: State)
    requires AppInv(c, s) && ServicesInv(s) && forall i :: 0 <= i < |c| ==> s.services[i].pc.ServiceDone?
    ensures forall i :: 0 <= i < |c| ==> s.services[i].handled == Routed(c, s.dispatched, i)
  {
    forall i | 0 <= i < |c| ensures s.services[i].handled == Routed(c, s.dispatched, i) {
      assert EntryInv(c, s, i) && ServiceInv(s.services[i]);
      DoneServiceHandledAll(c, s, i);
    }
  }

  /** When the main thread has joined everything: the connections accepted before the first Stop have been
      read, the non-blank reads parsed, dispatched and handled by their services, each in order; and the
      responses queue holds exactly one Stop of every service, in the order of the services, and then one
      of the application handler. */
  lemma ReturnedServerHandledEverything(c: Services, s: State)
    requires c != [] && Reachable(c, s) && s.joined == 4
    ensures |s.services| == |c|
    ensures Sockets(s.received) == BeforeEnd(s.connections.log)
    ensures s.dispatched == Parsed(s.received)
    ensures forall i :: 0 <= i < |c| ==> s.services[i].handled == Routed(c, Parsed(s.received), i)
    ensures NoStopReplies(s) ==> StopsBy(s.responses.log) == Range(|c| + 1)
    ensures s.written == BeforeEnd(Bare(s.responses.log))
  {
    ReachableInv(c, s);
    ReturnedMeansAllDone(c, s);
    RequestInvIsSafe(s);
    DispatchedAll(c, s);
    ServicesHandledAll(c, s);
    ConsumedIsPrefix(Bare(s.responses.log), s.responses.taken, false);
  }

  /** Where the response handler stopped. */
  lemma EndOfResponses(s: State)
    requires s.services != [] && ProducersInv(s) && ResponseInv(s) && NoErrorReplies(s)
    requires s.app.AppDone? && s.response.ResponseDone? && s.services[0].pc.ServiceDone?
    ensures var log := s.responses.log;
            var n := FirstEnd(Bare(log));
            && n < |log|
            && log[n] == Outgoing(0, Stop)
            && AllContent(Bare(log[..n]))
            && s.written == Payloads(Bare(log[..n]))
            && From(log[..n], 0) == s.services[0].replies
  {
    var log := s.responses.log;
    var n := FirstEnd(Bare(log));
    ConsumedIsPrefix(Bare(log), s.responses.taken, false);
    ErrorsComeFromServices(s, n);
    assert forall i :: 0 <= i < n ==> Bare(log)[..n][i] == log[i].message;
    assert AllContent(Bare(log)[..n]);
    FirstServiceIsBeforeFirstStop(s, n);
    assert Bare(log[..n]) == Bare(log)[..n];
  }

  lemma {:induction false} AllFromOne(log: seq<Outgoing>)
    requires forall i :: 0 <= i < |log| ==> log[i].from == 0
    ensures Bare(log) == From(log, 0)
    decreases |log|
  {
    if log == [] {
    } else {
      var n := |log| - 1;
      AllFromOne(log[..n]);
      assert log == log[..n] + [log[n]];
      LogAfterPush(log[..n], log[n], 0);
    }
  }

  lemma OnlyFirstService(s: State, n: nat)
    requires |s.services| == 1 && ProducersInv(s) && s.app.AppDone? && n < |s.responses.log|
    requires AllContent(Bare(s.responses.log[..n]))
    ensures Bare(s.responses.log[..n]) == From(s.responses.log[..n], 0)
  {
    var log := s.responses.log;
    forall i | 0 <= i < n ensures log[i].from == 0 {
      assert Bare(log[..n])[i].Content?;
      MemberOfFrom(log, i);
    }
    AllFromOne(log[..n]);
  }

  /** If the services' replies are all responses, the response handler stopped at the Stop of service 0: every
      response of service 0 was written, and with a single service every response there was. */
  lemma NoResponseOfFirstServiceIsLost(c: Services, s: State)
    requires c != [] && Reachable(c, s) && s.joined == 4 && NoErrorReplies(s)
    ensures |s.services| == |c|
    ensures var log := s.responses.log;
            var n := FirstEnd(Bare(log));
            && n < |log|
            && log[n] == Outgoing(0, Stop)
            && s.written == Payloads(Bare(log[..n]))
            && From(log[..n], 0) == s.services[0].replies
    ensures |c| == 1 ==> s.written == Payloads(s.services[0].replies)
  {
    ReachableInv(c, s);
    ReturnedMeansAllDone(c, s);
    EndOfResponses(s);
    if |c| == 1 {
      OnlyFirstService(s, FirstEnd(Bare(s.responses.log)));
    }
  }
}
