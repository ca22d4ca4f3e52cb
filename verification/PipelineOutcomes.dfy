/** Exactly when the server keeps two promises: that it shuts down, and that it writes every response. */
module PipelineOutcomes {
  import opened Wrappers
  import opened Messages
  import opened Pipeline
  import opened PipelineInvariants
  import opened PipelineShutdown
  import opened PipelineResults
  import opened PipelineCounterexamples
  import R = WebServiceResolver

  // ---- The first end on the connections queue decides whether it shuts down ----

  lemma {:induction false} BeforeFirstEnd<T>(log: seq<Message<T>>)
    ensures AllContent(log[..FirstEnd(log)])
    ensures FirstEnd(log) < |log| ==> !log[FirstEnd(log)].Content?
    decreases |log|
  {
    if log == [] || !log[0].Content? {
    } else {
      BeforeFirstEnd(log[1..]);
      assert log[..FirstEnd(log)] == [log[0]] + log[1..][..FirstEnd(log[1..])];
    }
  }

  /** What is queued later does not change what is the first end. */
  lemma FirstEndStays<T>(log: seq<Message<T>>, longer: seq<Message<T>>)
    requires log <= longer && FirstEnd(log) < |log|
    ensures FirstEnd(longer) == FirstEnd(log) && longer[FirstEnd(log)] == log[FirstEnd(log)]
  {
    BeforeFirstEnd(log);
    assert longer[..FirstEnd(log)] == log[..FirstEnd(log)];
    FirstEndIs(longer, FirstEnd(log));
  }

  lemma {:induction false} RunAfterStop(c: Services, s: State, run: seq<Action>)
    requires |s.services| == |c| && s.stopThread && Legal(c, s, run)
    ensures Final(c, s, run).stopThread && s.connections.log <= Final(c, s, run).connections.log
    decreases |run|
  {
    if run == [] {
    } else {
      StaysStopped(c, s, run[0]);
      ConnectionsStep(c, s, run[0]);
      RunAfterStop(c, Next(c, s, run[0]), run[1..]);
    }
  }

  lemma {:induction false} StopIsAnEnd<T>(log: seq<Message<T>>)
    requires HasStop(log)
    ensures FirstEnd(log) < |log|
    decreases |log|
  {
    if !log[0].Content? {
    } else {
      var i :| 0 <= i < |log| && log[i].Stop?;
      assert log[1..][i - 1].Stop?;
      StopIsAnEnd(log[1..]);
    }
  }

  /** Once stop() has returned there is an end on the connections queue. */
  lemma StopReturnedMeansEnd(c: Services, s: State)
    requires c != [] && Reachable(c, s) && s.stopper.StopReturned?
    ensures s.stopThread && FirstEnd(s.connections.log) < |s.connections.log|
  {
    ReachableInv(c, s);
    StopIsAnEnd(s.connections.log);
  }

  lemma RequestEndIsFirstEnd(c: Services, s: State)
    requires RequestTakes(s) && (s.request.RequestDone? || s.request.RequestFailed?)
    ensures var log := s.connections.log;
            && FirstEnd(log) < |log|
            && (s.request.RequestDone? <==> log[FirstEnd(log)].Stop?)
  {
    ConsumedIsPrefix(s.connections.log, s.connections.taken, false);
  }

  /** A stopping server whose connections queue holds an end shuts down completely, in every run that goes on
      until no thread can take a step, if and only if the first end is a Stop and not an accept error. */
  lemma ShutsDownIffStopComesFirst(c: Services, s: State, run: seq<Action>)
    requires c != [] && Reachable(c, s) && |s.services| == |c| && s.stopThread
    requires FirstEnd(s.connections.log) < |s.connections.log|
    requires Legal(c, s, run) && !CanStep(Final(c, s, run))
    ensures Final(c, s, run).joined == 4 <==> s.connections.log[FirstEnd(s.connections.log)].Stop?
  {
    var t := Final(c, s, run);
    RunAfterStop(c, s, run);
    ReachableRun(c, s, run);
    ReachableInv(c, t);
    OwnStepsAreEnough(t);
    FrontIsNotStuck(c, t, None);
    StuckMeansShutDown(c, t);
    RequestEndIsFirstEnd(c, t);
    FirstEndStays(s.connections.log, t.connections.log);
  }

  // ---- The resolver decides whether every response is written ----

  /** In every complete shutdown in which the tasks return responses only, all responses are written. */
  ghost predicate WritesEveryResponse(c: Services) {
    forall s :: Reachable(c, s) && s.joined == 4 && NoErrorReplies(s) ==> s.written == Payloads(Bare(s.responses.log))
  }

  /** Every request that is not blank goes to the first service. */
  ghost predicate FirstServiceServesAll(c: Services) {
    forall r: Request :: !Blank(r.data) ==> R.Resolve(c, r) == Some(0)
  }

  lemma {:induction false} NothingForOthers(c: Services, received: seq<(Connection, string)>, i: nat)
    requires FirstServiceServesAll(c) && i > 0
    ensures Routed(c, Parsed(received), i) == []
    decreases |received|
  {
    if received == [] {
    } else {
      var front, last := received[..|received| - 1], received[|received| - 1];
      var r := Request(last.0, last.1);
      NothingForOthers(c, front, i);
      if Blank(r.data) {
        assert Parsed(front) + [] == Parsed(front);
      } else {
        assert R.Resolve(c, r) == Some(0);
        RoutedAfterDispatch(c, Parsed(front), r, i);
      }
    }
  }

  /** So the other services, which reply at most once to each request, reply to nothing. */
  lemma OthersAreSilent(c: Services, s: State, i: nat)
    requires FirstServiceServesAll(c) && Reachable(c, s) && s.joined == 4 && 0 < i < |c|
    ensures |s.services| == |c| && s.services[i].replies == []
  {
    ReturnedServerHandledEverything(c, s);
    ReachableInv(c, s);
    assert ServiceInv(s.services[i]);
    NothingForOthers(c, s.received, i);
  }

  lemma {:induction false} NoPayloads<T>(ms: seq<Message<T>>)
    requires forall k :: 0 <= k < |ms| ==> !ms[k].Content?
    ensures Payloads(ms) == []
    decreases |ms|
  {
    if ms == [] {
    } else {
      NoPayloads(ms[..|ms| - 1]);
    }
  }

  lemma NothingFromAfter(log: seq<Outgoing>, n: nat, p: nat)
    requires n < |log| && log[n].from == p && |From(log, p)| == |From(log[..n], p)| + 1
    ensures From(log[n + 1..], p) == []
  {
    assert log == (log[..n] + [log[n]]) + log[n + 1..];
    FromConcat(log[..n] + [log[n]], log[n + 1..], p);
    LogAfterPush(log[..n], log[n], p);
  }

  /** Behind its Stop service 0 has put nothing on the responses queue. */
  lemma NothingOfFirstAfterItsStop(log: seq<Outgoing>, n: nat, k: nat)
    requires n < k < |log| && log[n].from == 0 && |From(log, 0)| == |From(log[..n], 0)| + 1
    ensures log[k].from != 0
  {
    NothingFromAfter(log, n, 0);
    MemberOfFrom(log[n + 1..], k - n - 1);
  }

  lemma NoResponseAfterFirstStop(c: Services, s: State, n: nat)
    requires |s.services| == |c| > 0 && ProducersInv(s) && s.app.AppDone?
    requires forall i :: 0 <= i < |c| ==> s.services[i].pc.ServiceDone?
    requires forall i :: 0 < i < |c| ==> s.services[i].replies == []
    requires n < |s.responses.log| && s.responses.log[n] == Outgoing(0, Stop)
    requires From(s.responses.log[..n], 0) == s.services[0].replies
    ensures forall k :: n <= k < |s.responses.log| ==> !s.responses.log[k].message.Content?
  {
    var log := s.responses.log;
    forall k | n < k < |log| ensures !log[k].message.Content? {
      var p := log[k].from;
      assert ProducerInv(s, 0);
      NothingOfFirstAfterItsStop(log, n, k);
      MemberOfFrom(log, k);
      if p < |c| { assert ProducerInv(s, p) && From(log, p) == [] + [Stop]; }
    }
  }

  lemma AllPayloadsAreBefore(log: seq<Outgoing>, n: nat)
    requires n <= |log| && forall k :: n <= k < |log| ==> !log[k].message.Content?
    ensures Payloads(Bare(log)) == Payloads(Bare(log[..n]))
  {
    assert Bare(log) == Bare(log[..n]) + Bare(log[n..]);
    PayloadsOfConcat(Bare(log[..n]), Bare(log[n..]));
    NoPayloads(Bare(log[n..]));
  }

  lemma FirstServiceServesAllIsEnough(c: Services, s: State)
    requires c != [] && FirstServiceServesAll(c)
    requires Reachable(c, s) && s.joined == 4 && NoErrorReplies(s)
    ensures s.written == Payloads(Bare(s.responses.log))
  {
    NoResponseOfFirstServiceIsLost(c, s);
    forall i | 0 < i < |c| ensures s.services[i].replies == [] {
      OthersAreSilent(c, s, i);
    }
    ReachableInv(c, s);
    ReturnedMeansAllDone(c, s);
    var n := FirstEnd(Bare(s.responses.log));
    NoResponseAfterFirstStop(c, s, n);
    AllPayloadsAreBefore(s.responses.log, n);
  }

  /** For every list of services: no response is ever lost in a complete shutdown without errors if and only if
      every request that is not blank goes to the first service. */
  lemma WritesEveryResponseIffFirstServiceServesAll(c: Services)
    requires c != []
    ensures WritesEveryResponse(c) <==> FirstServiceServesAll(c)
  {
    if FirstServiceServesAll(c) {
      forall s | Reachable(c, s) && s.joined == 4 && NoErrorReplies(s)
        ensures s.written == Payloads(Bare(s.responses.log))
      {
        FirstServiceServesAllIsEnough(c, s);
      }
    } else {
      var r: Request :| !Blank(r.data) && R.Resolve(c, r) != Some(0);
      R.ResolvePicksFirstElseZero(c, r);
      var s := LaterServiceCanLoseResponse(c, r, R.Resolve(c, r).value, "");
    }
  }
}
