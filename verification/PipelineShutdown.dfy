/** Shutdown always ends: once stop() has raised the flag, the server has only so many steps left, and it
    does not run out of enabled steps before everything has returned. */
module PipelineShutdown {
  import opened Wrappers
  import opened Messages
  import opened Pipeline
  import opened PipelineInvariants
  import R = WebServiceResolver

  // ---- A measure that every step of the server lowers ----

  /** What is still to be done for the messages of a log: w steps for each datum, one for any other. */
  function Weight<T>(log: seq<Message<T>>, w: nat): nat {
    if log == [] then 0
    else Weight(log[..|log| - 1], w) + (if log[|log| - 1].Content? then w else 1)
  }

  function Due<T>(log: seq<Message<T>>, taken: nat, w: nat): int
    requires taken <= |log|
  {
    Weight(log, w) - Weight(log[..taken], w)
  }

  lemma DueAfterPush<T>(log: seq<Message<T>>, taken: nat, w: nat, m: Message<T>)
    requires taken <= |log|
    ensures Due(log + [m], taken, w) == Due(log, taken, w) + (if m.Content? then w else 1)
  {
    assert (log + [m])[..|log|] == log;
    assert (log + [m])[..taken] == log[..taken];
  }

  lemma DueAfterPop<T>(log: seq<Message<T>>, taken: nat, w: nat)
    requires taken < |log|
    ensures Due(log, taken + 1, w) == Due(log, taken, w) - (if log[taken].Content? then w else 1)
  {
    assert log[..taken + 1][..taken] == log[..taken];
  }

  lemma {:induction false} DueIsNotNegative<T>(log: seq<Message<T>>, taken: nat, w: nat)
    requires taken <= |log|
    ensures Due(log, taken, w) >= 0
    decreases |log| - taken
  {
    if taken == |log| {
      assert log[..taken] == log;
    } else {
      DueAfterPop(log, taken, w);
      DueIsNotNegative(log, taken + 1, w);
    }
  }

  function StopperWeight(pc: StopperPc): nat {
    match pc
    case NotCalled => 4
    case Flagged => 3
    case DecoySent => 2
    case StopReturned => 0
  }

  function ListenerWeight(pc: ListenerPc): nat {
    match pc
    case Accepting => 4
    case Obtained(_) => 3
    case Reporting => 5
    case Reported => 3
    case Delivering(m) => if m.Content? then 15 else 6
    case ListenerEnding => 2
    case ListenerDone => 0
  }

  function RequestWeight(pc: RequestPc): nat {
    match pc
    case RequestWaiting => 3
    case Reading(_) => 12
    case Forwarding(_) => 11
    case RequestEnding => 2
    case RequestDone => 0
    case RequestFailed => 0
  }

  function AppWeight(pc: AppPc, k: nat): int {
    match pc
    case AppWaiting => 3 * k + 3
    case Dispatching(_) => 3 * k + 9
    case StoppingService(i) => 2 + 3 * (k - i)
    case JoiningService(i) => 3 * (k - i)
    case AppDone => 0
  }

  function ServicePcWeight(pc: ServicePc): nat {
    match pc
    case ServiceWaiting => 3
    case Working(_) => 7
    case Replying(_) => 6
    case ServiceEnding => 2
    case ServiceDone => 0
  }

  function ServiceWeight(sv: Service): int
    requires sv.entry.taken <= |sv.entry.log|
  {
    Due(sv.entry.log, sv.entry.taken, 5) + ServicePcWeight(sv.pc)
  }

  function ResponseWeight(pc: ResponsePc): nat {
    match pc
    case ResponseWaiting => 1
    case Writing(_) => 2
    case ResponseDone => 0
  }

  ghost predicate TakenInBounds(services: seq<Service>) {
    forall i :: 0 <= i < |services| ==> services[i].entry.taken <= |services[i].entry.log|
  }

  ghost function ServicesWeight(services: seq<Service>): int
    requires TakenInBounds(services)
  {
    if services == [] then 0
    else ServicesWeight(services[..|services| - 1]) + ServiceWeight(services[|services| - 1])
  }

  lemma {:induction false} ServicesWeightAfterUpdate(services: seq<Service>, i: nat, sv: Service)
    requires TakenInBounds(services) && i < |services| && sv.entry.taken <= |sv.entry.log|
    ensures ServicesWeight(services[i := sv])
         == ServicesWeight(services) - ServiceWeight(services[i]) + ServiceWeight(sv)
    decreases |services|
  {
    var n := |services| - 1;
    if i == n {
      assert services[i := sv][..n] == services[..n];
    } else {
      assert services[i := sv][..n] == services[..n][i := sv];
      ServicesWeightAfterUpdate(services[..n], i, sv);
    }
  }

  lemma {:induction false} ServicesWeightIsNotNegative(services: seq<Service>)
    requires TakenInBounds(services)
    ensures ServicesWeight(services) >= 0
    decreases |services|
  {
    if services == [] {
    } else {
      var last := services[|services| - 1];
      ServicesWeightIsNotNegative(services[..|services| - 1]);
      DueIsNotNegative(last.entry.log, last.entry.taken, 5);
    }
  }

  ghost predicate Bounded(s: State) {
    && s.connections.taken <= |s.connections.log|
    && s.requests.taken <= |s.requests.log|
    && s.responses.taken <= |s.responses.log|
    && TakenInBounds(s.services)
    && s.joined <= 4
    && (s.app.StoppingService? ==> s.app.service <= |s.services|)
    && (s.app.JoiningService? ==> s.app.service < |s.services|)
  }

  lemma InvIsBounded(c: Services, s: State)
    requires Inv(c, s)
    ensures Bounded(s)
  {
    forall i | 0 <= i < |s.services| ensures s.services[i].entry.taken <= |s.services[i].entry.log| {
      assert ServiceInv(s.services[i]);
    }
  }

  ghost function FrontMeasure(s: State): int
    requires Bounded(s)
  {
    StopperWeight(s.stopper) + ListenerWeight(s.listener)
    + Due(s.connections.log, s.connections.taken, 10) + RequestWeight(s.request)
  }

  ghost function AppMeasure(s: State): int
    requires Bounded(s)
  {
    Due(s.requests.log, s.requests.taken, 7) + AppWeight(s.app, |s.services|)
  }

  ghost function BackMeasure(s: State): int
    requires Bounded(s)
  {
    Due(Bare(s.responses.log), s.responses.taken, 2) + ResponseWeight(s.response) + (4 - s.joined)
  }

  ghost function Measure(s: State): int
    requires Bounded(s)
  {
    FrontMeasure(s) + AppMeasure(s) + ServicesWeight(s.services) + BackMeasure(s)
  }

  lemma MeasureIsNotNegative(s: State)
    requires Bounded(s)
    ensures Measure(s) >= 0
  {
    DueIsNotNegative(s.connections.log, s.connections.taken, 10);
    DueIsNotNegative(s.requests.log, s.requests.taken, 7);
    DueIsNotNegative(Bare(s.responses.log), s.responses.taken, 2);
    ServicesWeightIsNotNegative(s.services);
  }

  /** Steps of the listener and of stop(). */
  lemma ListenerStepsLowerMeasure(c: Services, s: State, a: Action)
    requires |s.services| == |c| && s.stopThread && Enabled(s, a) && Bounded(s) && Bounded(Next(c, s, a))
    requires a.AcceptFails? || a.SendDecoy? || a.PushStop? || a.Accept? || a.ReadFlag? || a.PushError? || a.Deliver?
             || a.EndListen?
    ensures Measure(Next(c, s, a)) < Measure(s)
  {
    ConnectionsStep(c, s, a);
    if ConnectionSent(s, a) != [] {
      DueAfterPush(s.connections.log, s.connections.taken, 10, ConnectionSent(s, a)[0]);
    }
  }

  lemma RequestStepsLeaveTheRest(c: Services, s: State, a: Action)
    requires |s.services| == |c| && Enabled(s, a) && (a.RequestPop? || a.Read? || a.Forward? || a.RequestEnd?)
    ensures var s' := Next(c, s, a);
            && s'.stopper == s.stopper && s'.listener == s.listener && s'.app == s.app
            && s'.services == s.services && s'.responses == s.responses && s'.response == s.response
            && s'.joined == s.joined
            && s'.requests == (if RequestSent(s, a) != [] then s.requests.Push(RequestSent(s, a)[0]) else s.requests)
            && s'.connections == (if a.RequestPop? then s.connections.Pop() else s.connections)
  {
  }

  lemma TakingLowersMeasure(c: Services, s: State, a: Action)
    requires |s.services| == |c| && Enabled(s, a) && Bounded(s) && Bounded(Next(c, s, a))
    requires a.RequestPop? || a.Read?
    ensures Measure(Next(c, s, a)) < Measure(s)
  {
    RequestStepsLeaveTheRest(c, s, a);
    if a.RequestPop? { DueAfterPop(s.connections.log, s.connections.taken, 10); }
  }

  lemma ForwardingLowersMeasure(c: Services, s: State, a: Action)
    requires |s.services| == |c| && Enabled(s, a) && Bounded(s) && Bounded(Next(c, s, a))
    requires a.Forward? || a.RequestEnd?
    ensures Measure(Next(c, s, a)) < Measure(s)
  {
    RequestStepsLeaveTheRest(c, s, a);
    DueAfterPush(s.requests.log, s.requests.taken, 7, RequestSent(s, a)[0]);
  }

  lemma ResponsesAfterSend(c: Services, s: State, a: Action)
    requires |s.services| == |c| && Enabled(s, a) && (a.Reply? || a.ServiceEnd? || a.AppEnd?)
    requires s.responses.taken <= |s.responses.log|
    ensures Due(Bare(Next(c, s, a).responses.log), s.responses.taken, 2)
            == Due(Bare(s.responses.log), s.responses.taken, 2) + (if Sent(s, a)[0].message.Content? then 2 else 1)
  {
    LogStep(c, s, a, 0);
    DueAfterPush(Bare(s.responses.log), s.responses.taken, 2, Sent(s, a)[0].message);
  }

  lemma AppStepsLowerMeasure(c: Services, s: State, a: Action)
    requires |s.services| == |c| && Enabled(s, a) && Bounded(s) && Bounded(Next(c, s, a))
    requires a.AppPop? || a.JoinService? || a.AppEnd?
    ensures Measure(Next(c, s, a)) < Measure(s)
  {
    if a.AppPop? { DueAfterPop(s.requests.log, s.requests.taken, 7); }
    if a.AppEnd? { ResponsesAfterSend(c, s, a); }
  }

  lemma FeedingAddsWeight(services: seq<Service>, i: nat, m: Message<Request>)
    requires TakenInBounds(services) && i < |services|
    ensures var sv := services[i];
            var fed := services[i := sv.(entry := sv.entry.Push(m))];
            TakenInBounds(fed) && ServicesWeight(fed) == ServicesWeight(services) + (if m.Content? then 5 else 1)
  {
    var sv := services[i];
    ServicesWeightAfterUpdate(services, i, sv.(entry := sv.entry.Push(m)));
    DueAfterPush(sv.entry.log, sv.entry.taken, 5, m);
  }

  lemma DispatchLowersMeasure(c: Services, s: State)
    requires |s.services| == |c| && Enabled(s, Dispatch) && Bounded(s) && Bounded(Next(c, s, Dispatch))
    ensures Measure(Next(c, s, Dispatch)) < Measure(s)
  {
    R.ResolvePicksFirstElseZero(c, s.app.request);
    FeedingAddsWeight(s.services, R.Resolve(c, s.app.request).value, Content(s.app.request));
  }

  lemma StopServiceLowersMeasure(c: Services, s: State)
    requires |s.services| == |c| && Enabled(s, StopService) && Bounded(s) && Bounded(Next(c, s, StopService))
    ensures Measure(Next(c, s, StopService)) < Measure(s)
  {
    FeedingAddsWeight(s.services, s.app.service, Stop);
  }

  lemma ServiceWeightStep(c: Services, s: State, a: Action)
    requires |s.services| == |c| && Enabled(s, a) && TakenInBounds(s.services)
    requires a.ServicePop? || a.Work? || a.Reply? || a.ServiceEnd?
    ensures var i, s' := a.service, Next(c, s, a);
            && s'.services == s.services[i := s'.services[i]]
            && s'.services[i].entry.taken <= |s'.services[i].entry.log|
            && ServiceWeight(s'.services[i])
               <= ServiceWeight(s.services[i]) - (if a.Reply? then 3 else if a.ServiceEnd? then 2 else 1)
  {
    if a.ServicePop? { DueAfterPop(s.services[a.service].entry.log, s.services[a.service].entry.taken, 5); }
  }

  lemma ServiceStepsLeaveTheRest(c: Services, s: State, a: Action)
    requires |s.services| == |c| && Enabled(s, a) && (a.ServicePop? || a.Work? || a.Reply? || a.ServiceEnd?)
    ensures var s' := Next(c, s, a);
            && s'.stopper == s.stopper && s'.listener == s.listener && s'.connections == s.connections
            && s'.request == s.request && s'.requests == s.requests && s'.app == s.app
            && s'.response == s.response && s'.joined == s.joined && s'.responses.taken == s.responses.taken
            && (!a.Reply? && !a.ServiceEnd? ==> s'.responses == s.responses)
  {
  }

  lemma ServiceStepsLowerMeasure(c: Services, s: State, a: Action)
    requires |s.services| == |c| && Enabled(s, a) && Bounded(s) && Bounded(Next(c, s, a))
    requires a.ServicePop? || a.Work? || a.Reply? || a.ServiceEnd?
    ensures Measure(Next(c, s, a)) < Measure(s)
  {
    ServiceWeightStep(c, s, a);
    ServicesWeightAfterUpdate(s.services, a.service, Next(c, s, a).services[a.service]);
    ServiceStepsLeaveTheRest(c, s, a);
    if a.Reply? || a.ServiceEnd? { ResponsesAfterSend(c, s, a); }
  }

  lemma BackStepsLeaveTheRest(c: Services, s: State, a: Action)
    requires |s.services| == |c| && Enabled(s, a) && (a.ResponsePop? || a.Write? || a.Join?)
    ensures var s' := Next(c, s, a);
            && s'.stopper == s.stopper && s'.listener == s.listener && s'.connections == s.connections
            && s'.request == s.request && s'.requests == s.requests && s'.app == s.app && s'.services == s.services
            && s'.responses.log == s.responses.log
            && s'.responses.taken == s.responses.taken + (if a.ResponsePop? then 1 else 0)
            && s'.joined == s.joined + (if a.Join? then 1 else 0)
            && ResponseWeight(s'.response) <= ResponseWeight(s.response) +
                 (if !a.ResponsePop? then (if a.Write? then -1 else 0)
                  else if s.responses.Front().message.Content? then 1 else -1)
  {
  }

  lemma BackStepsLowerMeasure(c: Services, s: State, a: Action)
    requires |s.services| == |c| && Enabled(s, a) && Bounded(s) && Bounded(Next(c, s, a))
    requires a.ResponsePop? || a.Write? || a.Join?
    ensures Measure(Next(c, s, a)) < Measure(s)
  {
    BackStepsLeaveTheRest(c, s, a);
    if a.ResponsePop? { DueAfterPop(Bare(s.responses.log), s.responses.taken, 2); }
  }

  lemma OwnStepLowersMeasure(c: Services, s: State, a: Action)
    requires |s.services| == |c| && s.stopThread && Enabled(s, a) && !a.Connect? && !a.CallStop?
    requires Bounded(s) && Bounded(Next(c, s, a))
    ensures Measure(Next(c, s, a)) < Measure(s)
  {
    if a.Dispatch? {
      DispatchLowersMeasure(c, s);
    } else if a.StopService? {
      StopServiceLowersMeasure(c, s);
    } else if a.AppPop? || a.JoinService? || a.AppEnd? {
      AppStepsLowerMeasure(c, s, a);
    } else if a.RequestPop? || a.Read? {
      TakingLowersMeasure(c, s, a);
    } else if a.Forward? || a.RequestEnd? {
      ForwardingLowersMeasure(c, s, a);
    } else if a.ServicePop? || a.Work? || a.Reply? || a.ServiceEnd? {
      ServiceStepsLowerMeasure(c, s, a);
    } else if a.ResponsePop? || a.Write? || a.Join? {
      BackStepsLowerMeasure(c, s, a);
    } else {
      ListenerStepsLowerMeasure(c, s, a);
    }
  }

  lemma StaysStopped(c: Services, s: State, a: Action)
    requires |s.services| == |c| && s.stopThread && Enabled(s, a)
    ensures Next(c, s, a).stopThread
  {
  }

  /** Once the flag is up, every step but the arrival of a client lowers the measure. */
  lemma StepLowersMeasure(c: Services, s: State, a: Action)
    requires Inv(c, s) && s.stopThread && Enabled(s, a)
    ensures Inv(c, Next(c, s, a)) && Bounded(s) && Bounded(Next(c, s, a)) && Next(c, s, a).stopThread
    ensures a.Connect? ==> Measure(Next(c, s, a)) == Measure(s)
    ensures !a.Connect? ==> Measure(Next(c, s, a)) < Measure(s)
  {
    StepKeepsInv(c, s, a);
    InvIsBounded(c, s);
    InvIsBounded(c, Next(c, s, a));
    StaysStopped(c, s, a);
    if !a.Connect? {
      assert !a.CallStop?;
      OwnStepLowersMeasure(c, s, a);
    }
  }

  /** The steps of a run that are not arrivals of clients. */
  function ServerSteps(run: seq<Action>): nat {
    if run == [] then 0 else (if run[0].Connect? then 0 else 1) + ServerSteps(run[1..])
  }

  lemma {:induction false} RunIsBounded(c: Services, s: State, run: seq<Action>)
    requires Inv(c, s) && s.stopThread && Legal(c, s, run)
    ensures Bounded(s) && ServerSteps(run) <= Measure(s)
    decreases |run|
  {
    InvIsBounded(c, s);
    if run == [] {
      MeasureIsNotNegative(s);
    } else {
      StepLowersMeasure(c, s, run[0]);
      RunIsBounded(c, Next(c, s, run[0]), run[1..]);
    }
  }

  /** However the threads interleave and however many clients keep connecting, a server whose stop flag is
      up takes at most Measure(s) further steps. */
  lemma ShutdownTakesBoundedlyManySteps(c: Services, s: State, run: seq<Action>)
    requires c != [] && Reachable(c, s) && s.stopThread && Legal(c, s, run)
    ensures Bounded(s) && ServerSteps(run) <= Measure(s)
  {
    ReachableInv(c, s);
    RunIsBounded(c, s, run);
  }

  // ---- It does not get stuck before the end ----

  /** Steps that the server cannot count on: a client connects, accept() fails. */
  predicate External(a: Action) { a.Connect? || a.AcceptFails? }

  ghost predicate CanStep(s: State) { exists a :: Enabled(s, a) && !External(a) }

  /** Steps that the server can always take by itself: a task may return without a response. */
  predicate Own(a: Action) { !External(a) && (a.Work? ==> a.result.None?) }

  /** Some own step is possible, not counting that the held service takes its next message. */
  ghost predicate CanStepHolding(s: State, held: Option<nat>) {
    exists a :: Enabled(s, a) && Own(a) && (held.Some? ==> a != ServicePop(held.value))
  }

  /** What a task returns makes no difference to whether the server can go on. */
  lemma OwnStepsAreEnough(s: State)
    ensures CanStep(s) <==> CanStepHolding(s, None)
  {
    if CanStep(s) {
      var a :| Enabled(s, a) && !External(a);
      var own := if a.Work? then Work(a.service, None) else a;
      assert Enabled(s, own) && Own(own);
    }
  }

  lemma StepOf(s: State, a: Action, held: Option<nat>)
    requires Enabled(s, a) && Own(a) && (held.Some? ==> a != ServicePop(held.value))
    ensures CanStepHolding(s, held)
  {
  }

  lemma FrontIsNotStuck(c: Services, s: State, held: Option<nat>)
    requires ListenerInv(s) && RequestTakes(s) && s.stopThread && !CanStepHolding(s, held)
    ensures s.stopper.StopReturned? && s.listener.ListenerDone? && (s.request.RequestDone? || s.request.RequestFailed?)
  {
    if s.stopper.Flagged? { StepOf(s, SendDecoy(0), held); }
    if s.stopper.DecoySent? { StepOf(s, PushStop, held); }
    match s.listener {
      case Accepting => StepOf(s, Accept, held);
      case Obtained(_) => StepOf(s, ReadFlag, held);
      case Reporting => StepOf(s, PushError, held);
      case Reported => StepOf(s, ReadFlag, held);
      case Delivering(_) => StepOf(s, Deliver, held);
      case ListenerEnding => StepOf(s, EndListen, held);
      case ListenerDone =>
    }
    match s.request {
      case RequestWaiting => StopStillAhead(s.connections.log, s.connections.taken); StepOf(s, RequestPop, held);
      case Reading(_) => StepOf(s, Read(""), held);
      case Forwarding(_) => StepOf(s, Forward, held);
      case RequestEnding => StepOf(s, RequestEnd, held);
      case _ =>
    }
  }

  lemma ServiceIsNotStuck(c: Services, s: State, i: nat, held: Option<nat>)
    requires |s.services| == |c| > i && EntryInv(c, s, i) && ServiceInv(s.services[i]) && ClosedEntry(s.app, i)
    requires !CanStepHolding(s, held) && held != Some(i)
    ensures s.services[i].pc.ServiceDone?
  {
    var e := s.services[i].entry;
    match s.services[i].pc {
      case ServiceWaiting =>
        assert e.log[|e.log| - 1].Stop?;
        StopStillAhead(e.log, e.taken);
        StepOf(s, ServicePop(i), held);
      case Working(_) => StepOf(s, Work(i, None), held);
      case Replying(_) => StepOf(s, Reply(i), held);
      case ServiceEnding => StepOf(s, ServiceEnd(i), held);
      case ServiceDone =>
    }
  }

  lemma RequestStopIsAhead(c: Services, s: State)
    requires RequestForwards(s) && AppInv(c, s) && s.request.RequestDone? && s.app.AppWaiting?
    ensures s.requests.HasItem()
  {
    var log := s.requests.log;
    assert log[|log| - 1].Stop?;
    StopStillAhead(log, s.requests.taken);
  }

  /** The application handler gets to its end, or to waiting for the held service. */
  lemma AppIsNotStuck(c: Services, s: State, held: Option<nat>)
    requires RequestForwards(s) && AppInv(c, s) && ServicesInv(s) && !CanStepHolding(s, held) && s.request.RequestDone?
    ensures s.app.AppDone? || (held.Some? && s.app == JoiningService(held.value))
  {
    match s.app {
      case AppWaiting => RequestStopIsAhead(c, s); StepOf(s, AppPop, held);
      case Dispatching(_) => StepOf(s, Dispatch, held);
      case StoppingService(i) => StepOf(s, if i < |c| then StopService else AppEnd, held);
      case JoiningService(i) =>
        if held != Some(i) {
          assert EntryInv(c, s, i) && ServiceInv(s.services[i]);
          ServiceIsNotStuck(c, s, i, held);
          StepOf(s, JoinService, held);
        }
      case AppDone =>
    }
  }

  /** What one producer has put on the responses queue is on it. */
  lemma {:induction false} FromFindsStop(log: seq<Outgoing>, p: nat)
    requires HasStop(From(log, p))
    ensures HasStop(Bare(log))
    decreases |log|
  {
    var n := |log| - 1;
    if log[n].message.Stop? {
      assert Bare(log)[n].Stop?;
    } else {
      var k :| 0 <= k < |From(log, p)| && From(log, p)[k].Stop?;
      assert From(log[..n], p)[k].Stop?;
      FromFindsStop(log[..n], p);
      var i :| 0 <= i < |Bare(log[..n])| && Bare(log[..n])[i].Stop?;
      assert Bare(log)[i].Stop?;
    }
  }

  lemma BackIsNotStuck(c: Services, s: State)
    requires |s.services| == |c| && ProducersInv(s) && ResponseInv(s) && MainInv(s) && !CanStepHolding(s, None)
    requires s.listener.ListenerDone? && s.request.RequestDone? && s.app.AppDone?
    ensures s.response.ResponseDone? && s.joined == 4
  {
    match s.response {
      case ResponseWaiting =>
        assert From(s.responses.log, |s.services|)[0].Stop?;
        FromFindsStop(s.responses.log, |s.services|);
        StopStillAhead(Bare(s.responses.log), s.responses.taken);
        StepOf(s, ResponsePop, None);
      case Writing(_) => StepOf(s, Write, None);
      case ResponseDone =>
    }
    if s.joined < 4 { StepOf(s, Join, None); }
  }

  lemma FailedRequestNeverEndsApp(c: Services, s: State)
    requires Inv(c, s) && s.request.RequestFailed?
    ensures s.app.AppWaiting? || s.app.Dispatching?
  {
    if !s.app.AppWaiting? && !s.app.Dispatching? {
      ClosedConsumerTookAll(s.requests.log, s.requests.taken, false);
    }
  }

  /** A server that is stopping and has no step left has returned from runServerComponents, unless the
      request handler met an accept error before any Stop: then it never returns. */
  lemma StuckMeansShutDown(c: Services, s: State)
    requires c != [] && Reachable(c, s) && s.stopThread && !CanStep(s)
    ensures s.joined == 4 <==> !s.request.RequestFailed?
    ensures s.joined == 4 ==> s.stopper.StopReturned? && s.listener.ListenerDone? && s.request.RequestDone?
                              && s.app.AppDone? && s.response.ResponseDone?
                              && forall i :: 0 <= i < |c| ==> s.services[i].pc.ServiceDone?
  {
    ReachableInv(c, s);
    OwnStepsAreEnough(s);
    FrontIsNotStuck(c, s, None);
    if s.request.RequestDone? {
      AppIsNotStuck(c, s, None);
      BackIsNotStuck(c, s);
      forall i | 0 <= i < |c| ensures s.services[i].pc.ServiceDone? { assert EntryInv(c, s, i); }
    } else {
      FailedRequestNeverEndsApp(c, s);
    }
  }

  // ---- Runs without accept errors ----

  ghost predicate NoErrors(s: State) {
    && (forall i :: 0 <= i < |s.connections.log| ==> !s.connections.log[i].Error?)
    && !s.listener.Reporting? && !s.listener.Reported?
    && (s.listener.Obtained? || s.listener.Delivering? ==> s.listener.message.Content?)
  }

  lemma NoErrorsStep(c: Services, s: State, a: Action)
    requires |s.services| == |c| && NoErrors(s) && Enabled(s, a) && !a.AcceptFails?
    ensures NoErrors(Next(c, s, a))
  {
  }

  lemma NoErrorsNoFailure(c: Services, s: State)
    requires Inv(c, s) && NoErrors(s)
    ensures !s.request.RequestFailed?
  {
  }

  lemma {:induction false} NoErrorsRun(c: Services, s: State, run: seq<Action>)
    requires Inv(c, s) && NoErrors(s) && Legal(c, s, run) && AcceptFails !in run
    ensures NoErrors(Final(c, s, run))
    decreases |run|
  {
    if run == [] {
    } else {
      NoErrorsStep(c, s, run[0]);
      StepKeepsInv(c, s, run[0]);
      NoErrorsRun(c, Next(c, s, run[0]), run[1..]);
    }
  }

  /** If accept() never fails, a stopping server that has no step left has shut down completely. */
  lemma ShutdownCompletes(c: Services, run: seq<Action>)
    requires c != [] && Legal(c, Init(|c|), run) && AcceptFails !in run
    ensures var s := Final(c, Init(|c|), run); s.stopThread && !CanStep(s) ==> s.joined == 4
  {
    var s := Final(c, Init(|c|), run);
    InitInv(c);
    NoErrorsRun(c, Init(|c|), run);
    RunKeepsInv(c, Init(|c|), run);
    assert Reachable(c, s);
    if s.stopThread && !CanStep(s) {
      NoErrorsNoFailure(c, s);
      StuckMeansShutDown(c, s);
    }
  }

  lemma LegalPrepend(c: Services, s: State, a: Action, rest: seq<Action>)
    requires |s.services| == |c| && Enabled(s, a) && Legal(c, Next(c, s, a), rest)
    ensures Legal(c, s, [a] + rest) && Final(c, s, [a] + rest) == Final(c, Next(c, s, a), rest)
  {
    assert ([a] + rest)[0] == a && ([a] + rest)[1..] == rest;
  }

  /** The states from which a shutdown is bound to complete. */
  ghost predicate ShuttingDown(c: Services, s: State) {
    c != [] && Inv(c, s) && s.stopThread && NoErrors(s) && Reachable(c, s)
  }

  lemma ShuttingDownStep(c: Services, s: State, a: Action)
    requires ShuttingDown(c, s) && Enabled(s, a) && !External(a)
    ensures ShuttingDown(c, Next(c, s, a))
    ensures Bounded(s) && Bounded(Next(c, s, a)) && 0 <= Measure(Next(c, s, a)) < Measure(s)
  {
    StepLowersMeasure(c, s, a);
    MeasureIsNotNegative(Next(c, s, a));
    NoErrorsStep(c, s, a);
    ReachableStep(c, s, a);
  }

  lemma StuckShutdownIsOver(c: Services, s: State)
    requires ShuttingDown(c, s) && !CanStep(s)
    ensures s.joined == 4
  {
    NoErrorsNoFailure(c, s);
    StuckMeansShutDown(c, s);
  }

  /** The run takes own steps only, gets the server to the end and has at most n steps. */
  ghost predicate Completes(c: Services, s: State, run: seq<Action>, n: int)
    requires |s.services| == |c|
  {
    Legal(c, s, run) && Final(c, s, run).joined == 4 && |run| <= n && forall i :: 0 <= i < |run| ==> Own(run[i])
  }

  lemma CompletesWithOneMore(c: Services, s: State, a: Action, rest: seq<Action>, n: int)
    requires |s.services| == |c| && Enabled(s, a) && Own(a) && Completes(c, Next(c, s, a), rest, n - 1)
    ensures Completes(c, s, [a] + rest, n)
  {
    LegalPrepend(c, s, a, rest);
  }

  lemma OwnStep(c: Services, s: State, n: int) returns (a: Action)
    requires ShuttingDown(c, s) && CanStep(s) && Bounded(s) && Measure(s) <= n
    ensures Enabled(s, a) && Own(a) && ShuttingDown(c, Next(c, s, a))
    ensures Bounded(Next(c, s, a)) && 0 <= Measure(Next(c, s, a)) <= n - 1
  {
    OwnStepsAreEnough(s);
    a :| Enabled(s, a) && Own(a);
    ShuttingDownStep(c, s, a);
  }

  lemma {:induction false} CanFinishWithin(c: Services, s: State, n: nat) returns (run: seq<Action>)
    requires ShuttingDown(c, s) && Bounded(s) && Measure(s) <= n
    ensures Completes(c, s, run, n)
    decreases n
  {
    if CanStep(s) {
      var a := OwnStep(c, s, n);
      var rest := CanFinishWithin(c, Next(c, s, a), n - 1);
      CompletesWithOneMore(c, s, a, rest, n);
      run := [a] + rest;
    } else {
      StuckShutdownIsOver(c, s);
      run := [];
    }
  }

  /** And from any of its states it can be driven to the end by its own threads alone. */
  lemma CanFinish(c: Services, s: State) returns (run: seq<Action>)
    requires ShuttingDown(c, s)
    ensures Bounded(s) && Completes(c, s, run, Measure(s))
  {
    InvIsBounded(c, s);
    MeasureIsNotNegative(s);
    run := CanFinishWithin(c, s, Measure(s));
  }
}
