/** Two things the server does not promise, each shown by runs. */
module PipelineCounterexamples {
  import opened Wrappers
  import opened Messages
  import opened Pipeline
  import opened PipelineInvariants
  import opened PipelineShutdown
  import opened PipelineResults
  import R = WebServiceResolver

  /** One step of a run under construction. */
  lemma Step(c: Services, s: State, a: Action, s': State)
    requires |s.services| == |c| && Reachable(c, s) && Enabled(s, a) && Next(c, s, a) == s'
    ensures Reachable(c, s') && |s'.services| == |c|
  {
    ReachableStep(c, s, a);
  }

  // ---- An accept error before the first Stop leaves the server waiting for ever ----

  lemma AcceptErrorEndsRequestHandler(c: Services) returns (s: State)
    requires c != []
    ensures Reachable(c, s)
    ensures s == Init(|c|).(listener := Reported, request := RequestFailed, connections := Fifo([Error], 1))
  {
    var s0 := Init(|c|);
    InitIsReachable(c);
    var s1 := s0.(listener := Obtained(Error));
    Step(c, s0, AcceptFails, s1);
    var s2 := s1.(listener := Reporting);
    Step(c, s1, ReadFlag, s2);
    var s3 := s2.(listener := Reported, connections := Fifo([Error], 0));
    Step(c, s2, PushError, s3);
    s := s3.(request := RequestFailed, connections := Fifo([Error], 1));
    Step(c, s3, RequestPop, s);
  }

  lemma StopAfterAcceptError(c: Services, s0: State) returns (s: State)
    requires c != [] && Reachable(c, s0)
    requires s0 == Init(|c|).(listener := Reported, request := RequestFailed, connections := Fifo([Error], 1))
    ensures Reachable(c, s)
    ensures s == s0.(stopThread := true, stopper := StopReturned, backlog := [0], listener := ListenerDone,
                     connections := Fifo([Error, Stop, Stop], 1))
  {
    var s1 := s0.(stopThread := true, stopper := Flagged);
    Step(c, s0, CallStop, s1);
    var s2 := s1.(listener := ListenerEnding);
    Step(c, s1, ReadFlag, s2);
    var s3 := s2.(listener := ListenerDone, connections := Fifo([Error, Stop], 1));
    Step(c, s2, EndListen, s3);
    var s4 := s3.(backlog := [0], stopper := DecoySent);
    Step(c, s3, SendDecoy(0), s4);
    s := s4.(stopper := StopReturned, connections := Fifo([Error, Stop, Stop], 1));
    Step(c, s4, PushStop, s);
  }

  /** Whatever the services, the main thread then joins the listener and the request handler and waits for
      the application handler for ever: no thread has a step left. */
  lemma AcceptErrorBlocksShutdown(c: Services)
    requires c != []
    ensures exists s :: Reachable(c, s) && s.stopThread && !CanStep(s) && s.joined == 2
  {
    var s0 := AcceptErrorEndsRequestHandler(c);
    var s1 := StopAfterAcceptError(c, s0);
    var s2 := s1.(joined := 1);
    Step(c, s1, Join, s2);
    var s3 := s2.(joined := 2);
    Step(c, s2, Join, s3);
    assert !CanStep(s3);
  }

  // ---- A service other than the first can lose a response ----

  lemma RequestIsForwarded(c: Services, r: Request, s6: State) returns (s: State)
    requires |s6.services| == |c| && Reachable(c, s6) && s6.request == Forwarding(r)
    requires s6.requests == Fifo([], 0) && s6.app == AppWaiting
    ensures Reachable(c, s)
    ensures s == s6.(request := RequestWaiting, requests := Fifo([Content(r)], 1), app := Dispatching(r))
  {
    var s7 := s6.(request := RequestWaiting, requests := Fifo([Content(r)], 0));
    Step(c, s6, Forward, s7);
    s := s7.(requests := Fifo([Content(r)], 1), app := Dispatching(r));
    Step(c, s7, AppPop, s);
  }

  lemma RequestIsRead(c: Services, r: Request, s4: State) returns (s: State)
    requires c != [] && !Blank(r.data) && Reachable(c, s4)
    requires s4 == Init(|c|).(connections := Fifo([Content(r.socket)], 0))
    ensures Reachable(c, s)
    ensures s == Init(|c|).(connections := Fifo([Content(r.socket)], 1), received := [(r.socket, r.data)],
                            requests := Fifo([Content(r)], 1), app := Dispatching(r))
  {
    var x := r.socket;
    var s5 := s4.(connections := Fifo([Content(x)], 1), request := Reading(x));
    Step(c, s4, RequestPop, s5);
    var s6 := s5.(received := [(x, r.data)], request := Forwarding(r));
    Step(c, s5, Read(r.data), s6);
    s := RequestIsForwarded(c, r, s6);
  }

  /** The run up to the dispatch of one request, and the call of stop(). */
  lemma RequestArrives(c: Services, r: Request) returns (s: State)
    requires c != [] && !Blank(r.data)
    ensures Reachable(c, s)
    ensures s == Init(|c|).(connections := Fifo([Content(r.socket)], 1), received := [(r.socket, r.data)],
                            requests := Fifo([Content(r)], 1), app := Dispatching(r))
  {
    var x := r.socket;
    var s0 := Init(|c|);
    InitIsReachable(c);
    var s1 := s0.(backlog := [x]);
    Step(c, s0, Connect(x), s1);
    var s2 := s0.(listener := Obtained(Content(x)));
    Step(c, s1, Accept, s2);
    var s3 := s2.(listener := Delivering(Content(x)));
    Step(c, s2, ReadFlag, s3);
    var s4 := s0.(connections := Fifo([Content(x)], 0));
    Step(c, s3, Deliver, s4);
    s := RequestIsRead(c, r, s4);
  }

  /** The request lies in front of service i, which has not taken anything yet, and no task has returned a
      response. */
  ghost predicate Waits(s: State, i: nat, r: Request) {
    && i < |s.services| && s.services[i].pc.ServiceWaiting?
    && s.services[i].entry.taken == 0 && s.services[i].entry.log != [] && s.services[i].entry.log[0] == Content(r)
    && (forall j :: 0 <= j < |s.services| ==> s.services[j].replies == [])
  }

  lemma RequestIsDispatched(c: Services, r: Request, i: nat, s0: State) returns (s: State)
    requires i < |c| && R.Resolve(c, r) == Some(i) && Reachable(c, s0)
    requires s0 == Init(|c|).(connections := Fifo([Content(r.socket)], 1), received := [(r.socket, r.data)],
                              requests := Fifo([Content(r)], 1), app := Dispatching(r))
    ensures |s.services| == |c| && Reachable(c, s) && Waits(s, i, r) && s.stopper == NotCalled && NoErrors(s)
  {
    s := Next(c, s0, Dispatch);
    Step(c, s0, Dispatch, s);
  }

  lemma StopIsCalled(c: Services, s0: State) returns (s: State)
    requires c != [] && |s0.services| == |c| && Reachable(c, s0) && s0.stopper == NotCalled && NoErrors(s0)
    ensures ShuttingDown(c, s) && s.services == s0.services
  {
    s := s0.(stopThread := true, stopper := Flagged);
    Step(c, s0, CallStop, s);
    NoErrorsStep(c, s0, CallStop);
    ReachableInv(c, s);
  }

  lemma RequestWaitsAtShutdown(c: Services, r: Request, i: nat) returns (s: State)
    requires !Blank(r.data) && R.Resolve(c, r) == Some(i)
    ensures ShuttingDown(c, s) && Waits(s, i, r)
  {
    R.ResolvePicksFirstElseZero(c, r);
    var s0 := RequestArrives(c, r);
    var s1 := RequestIsDispatched(c, r, i, s0);
    s := StopIsCalled(c, s1);
  }

  lemma WaitsStep(c: Services, s: State, a: Action, i: nat, r: Request)
    requires |s.services| == |c| && Waits(s, i, r) && Enabled(s, a) && Own(a) && a != ServicePop(i)
    ensures Waits(Next(c, s, a), i, r)
  {
    forall j | 0 <= j < |c| ensures Next(c, s, a).services[j] == ServiceAfter(c, s, a, j) {
      ServiceFieldsStep(c, s, a, j);
    }
  }

  lemma WaitsOn(c: Services, s: State, a: Action, i: nat, r: Request)
    requires ShuttingDown(c, s) && Waits(s, i, r) && Enabled(s, a) && Own(a) && a != ServicePop(i)
    ensures ShuttingDown(c, Next(c, s, a)) && Waits(Next(c, s, a), i, r)
    ensures Bounded(s) && Bounded(Next(c, s, a)) && 0 <= Measure(Next(c, s, a)) < Measure(s)
  {
    ShuttingDownStep(c, s, a);
    WaitsStep(c, s, a, i, r);
  }

  lemma OthersStep(c: Services, s: State, i: nat, r: Request, n: int) returns (t: State)
    requires ShuttingDown(c, s) && Waits(s, i, r) && CanStepHolding(s, Some(i)) && Bounded(s) && Measure(s) <= n
    ensures ShuttingDown(c, t) && Waits(t, i, r) && Bounded(t) && 0 <= Measure(t) <= n - 1
  {
    var a :| Enabled(s, a) && Own(a) && a != ServicePop(i);
    WaitsOn(c, s, a, i, r);
    t := Next(c, s, a);
  }

  /** Everybody else goes on until nobody else can. */
  lemma {:induction false} OthersGoOn(c: Services, s: State, i: nat, r: Request, n: nat) returns (t: State)
    requires ShuttingDown(c, s) && Waits(s, i, r) && Bounded(s) && Measure(s) <= n
    ensures ShuttingDown(c, t) && Waits(t, i, r) && !CanStepHolding(t, Some(i))
    decreases n
  {
    if CanStepHolding(s, Some(i)) {
      var next := OthersStep(c, s, i, r, n);
      t := OthersGoOn(c, next, i, r, n - 1);
    } else {
      t := s;
    }
  }

  lemma ReplyCount(sent: seq<Message<Response>>, sv: Service)
    requires Sends(sent, sv)
    ensures sv.pc.Replying? ==> |sv.replies| == |sent| + 1
  {
  }

  /** Without replies the responses queue holds nothing but Stops. */
  lemma SilentServicesOnlyStop(s: State)
    requires ProducersInv(s) && forall j :: 0 <= j < |s.services| ==> s.services[j].replies == []
    ensures forall j :: 0 <= j < |s.responses.log| ==> s.responses.log[j].message.Stop?
  {
    var log := s.responses.log;
    forall j | 0 <= j < |log| ensures log[j].message.Stop? {
      MemberOfFrom(log, j);
      var p := log[j].from;
      if p < |s.services| {
        assert ProducerInv(s, p);
        ReplyCount(From(log, p), s.services[p]);
      }
    }
  }

  lemma SomeServiceHasStopped(s: State)
    requires ProducersInv(s) && (forall j :: 0 <= j < |s.services| ==> s.services[j].replies == []) && Finished(s) > 0
    ensures s.responses.log != []
  {
    assert NoStopReplies(s) && |StopsBy(s.responses.log)| == |Range(Finished(s))| == Finished(s);
  }

  /** Then service 0 has stopped, and the application handler waits for service i. */
  lemma FirstServiceHasStopped(c: Services, t: State, i: nat, r: Request)
    requires ShuttingDown(c, t) && Waits(t, i, r) && !CanStepHolding(t, Some(i)) && i > 0
    ensures t.responses.log != [] && forall j :: 0 <= j < |t.responses.log| ==> t.responses.log[j].message.Stop?
  {
    FrontIsNotStuck(c, t, Some(i));
    NoErrorsNoFailure(c, t);
    AppIsNotStuck(c, t, Some(i));
    assert EntryInv(c, t, i);
    assert t.app == JoiningService(i) && Finished(t) == i;
    SilentServicesOnlyStop(t);
    SomeServiceHasStopped(t);
  }

  /** No task has returned anything, but for one response of service i. */
  ghost predicate OnlyReply(s: State, i: nat, p: Response) {
    && i < |s.services| && s.services[i].replies == [Content(p)]
    && (forall j :: 0 <= j < |s.services| && j != i ==> s.services[j].replies == [])
  }

  /** A response is behind a Stop. */
  ghost predicate OvertakenIn(log: seq<Outgoing>) {
    && log != [] && log[0].message.Stop?
    && (exists k :: 0 <= k < |log| && log[k].message.Content?)
  }

  ghost predicate Overtaken(s: State, i: nat, p: Response) { OnlyReply(s, i, p) && OvertakenIn(s.responses.log) }

  lemma FrontIsTaken(c: Services, t: State, i: nat, r: Request)
    requires |t.services| == |c| && Waits(t, i, r)
    ensures Enabled(t, ServicePop(i))
    ensures var s := Next(c, t, ServicePop(i));
            && s.services[i].pc == Working(r) && s.responses == t.responses
            && forall j :: 0 <= j < |c| ==> s.services[j].replies == []
  {
  }

  /** Now service i takes its request. */
  lemma RequestIsTaken(c: Services, t: State, i: nat, r: Request) returns (s: State)
    requires ShuttingDown(c, t) && Waits(t, i, r)
    ensures ShuttingDown(c, s) && i < |s.services| && s.services[i].pc == Working(r) && s.responses == t.responses
    ensures forall j :: 0 <= j < |s.services| ==> s.services[j].replies == []
  {
    s := Next(c, t, ServicePop(i));
    FrontIsTaken(c, t, i, r);
    ShuttingDownStep(c, t, ServicePop(i));
  }

  lemma TaskIsDone(c: Services, t: State, i: nat, p: Response)
    requires |t.services| == |c| > i && t.services[i].pc.Working?
    requires forall j :: 0 <= j < |t.services| ==> t.services[j].replies == []
    ensures Enabled(t, Work(i, Some(Content(p))))
    ensures var s := Next(c, t, Work(i, Some(Content(p))));
            OnlyReply(s, i, p) && s.services[i].pc == Replying(Content(p)) && s.responses == t.responses
  {
  }

  lemma TaskReturns(c: Services, t: State, i: nat, r: Request, p: Response) returns (s: State)
    requires ShuttingDown(c, t) && i < |t.services| && t.services[i].pc == Working(r)
    requires forall j :: 0 <= j < |t.services| ==> t.services[j].replies == []
    ensures ShuttingDown(c, s) && OnlyReply(s, i, p) && s.services[i].pc == Replying(Content(p))
    ensures s.responses == t.responses
  {
    s := Next(c, t, Work(i, Some(Content(p))));
    TaskIsDone(c, t, i, p);
    ShuttingDownStep(c, t, Work(i, Some(Content(p))));
  }

  lemma QueuedReply(c: Services, t: State, i: nat, p: Response)
    requires |t.services| == |c| && OnlyReply(t, i, p) && t.services[i].pc == Replying(Content(p))
    ensures Enabled(t, Reply(i))
    ensures var s := Next(c, t, Reply(i));
            OnlyReply(s, i, p) && s.responses.log == t.responses.log + [Outgoing(i, Content(p))]
  {
  }

  lemma BehindAStop(log: seq<Outgoing>, x: Outgoing)
    requires log != [] && log[0].message.Stop? && x.message.Content?
    ensures OvertakenIn(log + [x])
  {
    assert (log + [x])[|log|].message.Content?;
  }

  lemma ReplyIsQueued(c: Services, t: State, i: nat, p: Response) returns (s: State)
    requires ShuttingDown(c, t) && OnlyReply(t, i, p) && t.services[i].pc == Replying(Content(p))
    requires t.responses.log != [] && t.responses.log[0].message.Stop?
    ensures ShuttingDown(c, s) && Overtaken(s, i, p)
  {
    s := Next(c, t, Reply(i));
    QueuedReply(c, t, i, p);
    BehindAStop(t.responses.log, Outgoing(i, Content(p)));
    ShuttingDownStep(c, t, Reply(i));
  }

  lemma OvertakenStep(c: Services, s: State, a: Action, i: nat, p: Response)
    requires |s.services| == |c| && Overtaken(s, i, p) && Enabled(s, a) && Own(a)
    ensures Overtaken(Next(c, s, a), i, p)
  {
    var s' := Next(c, s, a);
    LogStep(c, s, a, 0);
    var k :| 0 <= k < |s.responses.log| && s.responses.log[k].message.Content?;
    assert s'.responses.log[k] == s.responses.log[k];
    forall j | 0 <= j < |c| ensures s'.services[j].replies == s.services[j].replies {
      ServiceFieldsStep(c, s, a, j);
    }
  }

  lemma {:induction false} StaysOvertaken(c: Services, s: State, run: seq<Action>, i: nat, p: Response)
    requires |s.services| == |c| && Overtaken(s, i, p) && Legal(c, s, run)
    requires forall k :: 0 <= k < |run| ==> Own(run[k])
    ensures Overtaken(Final(c, s, run), i, p)
    decreases |run|
  {
    if run == [] {
    } else {
      OvertakenStep(c, s, run[0], i, p);
      StaysOvertaken(c, Next(c, s, run[0]), run[1..], i, p);
    }
  }

  lemma {:induction false} SomePayload<T>(ms: seq<Message<T>>, k: nat)
    requires k < |ms| && ms[k].Content?
    ensures Payloads(ms) != []
    decreases |ms|
  {
    if k == |ms| - 1 {
    } else {
      SomePayload(ms[..|ms| - 1], k);
    }
  }

  lemma OvertakenIsNotWritten(c: Services, s: State, i: nat, p: Response)
    requires c != [] && Reachable(c, s) && s.joined == 4 && Overtaken(s, i, p)
    ensures NoErrorReplies(s) && s.written == [] != Payloads(Bare(s.responses.log))
  {
    var bare := Bare(s.responses.log);
    ReturnedServerHandledEverything(c, s);
    assert bare[0].Stop? && FirstEnd(bare) == 0;
    var k :| 0 <= k < |s.responses.log| && s.responses.log[k].message.Content?;
    SomePayload(bare, k);
  }

  /** Whatever the services: if some request that is not blank goes to a service i other than the first, there
      is a complete shutdown, without any error, in which the only response there is, service i's, is never
      written. */
  lemma LaterServiceCanLoseResponse(c: Services, r: Request, i: nat, p: Response) returns (s: State)
    requires !Blank(r.data) && R.Resolve(c, r) == Some(i) && i > 0
    ensures Reachable(c, s) && s.joined == 4 && |s.services| == |c| && NoErrorReplies(s)
    ensures i < |c| && s.services[i].replies == [Content(p)]
    ensures s.written == [] != Payloads(Bare(s.responses.log))
  {
    R.ResolvePicksFirstElseZero(c, r);
    var s0 := RequestWaitsAtShutdown(c, r, i);
    InvIsBounded(c, s0);
    MeasureIsNotNegative(s0);
    var t := OthersGoOn(c, s0, i, r, Measure(s0));
    FirstServiceHasStopped(c, t, i, r);
    var working := RequestIsTaken(c, t, i, r);
    var replying := TaskReturns(c, working, i, r, p);
    var late := ReplyIsQueued(c, replying, i, p);
    var run := CanFinish(c, late);
    s := Final(c, late, run);
    StaysOvertaken(c, late, run, i, p);
    ReachableRun(c, late, run);
    OvertakenIsNotWritten(c, s, i, p);
  }

  /** Service 0 handles nothing, service 1 everything. */
  function TwoServices(): Services { [_ => false, _ => true] }

  /** For example, with two services, a response of the second. */
  lemma SecondServiceCanLoseResponse()
    ensures exists s :: Reachable(TwoServices(), s) && s.joined == 4 && |s.services| == 2 && NoErrorReplies(s)
                        && s.services[1].replies == [Content("reply")] && s.written == []
  {
    var r := Request(0, "x");
    R.ResolvePicksFirstElseZero(TwoServices(), r);
    assert r.data[0] != '\0';
    var s := LaterServiceCanLoseResponse(TwoServices(), r, 1, "reply");
  }
}
