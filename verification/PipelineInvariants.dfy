/** What every step of the server keeps. */
module PipelineInvariants {
  import opened Wrappers
  import opened Messages
  import opened Pipeline
  import R = WebServiceResolver

  // ---- Listener and stop() ----

  ghost predicate HasStop<T>(log: seq<Message<T>>) { exists i :: 0 <= i < |log| && log[i].Stop? }

  ghost predicate ListenerInv(s: State) {
    && (s.stopThread <==> !s.stopper.NotCalled?)
    && (s.listener.ListenerEnding? || s.listener.ListenerDone? ==> s.stopThread)
    && (s.listener.Obtained? ==> !s.listener.message.Stop?)
    && (s.listener.Delivering? ==> !s.listener.message.Stop?)
    && (s.stopper.StopReturned? || s.listener.ListenerDone? ==> HasStop(s.connections.log))
    // until the listener has seen the flag, something is left for accept() to return
    && ((s.stopper.DecoySent? || s.stopper.StopReturned?) && (s.listener.Accepting? || s.listener.Delivering?)
        ==> s.backlog != [])
  }

  lemma HasStopAfterPush<T>(log: seq<Message<T>>, m: Message<T>)
    ensures HasStop(log + [m]) <==> HasStop(log) || m.Stop?
  {
    if HasStop(log) {
      var i :| 0 <= i < |log| && log[i].Stop?;
      assert (log + [m])[i].Stop?;
    }
    if m.Stop? { assert (log + [m])[|log|].Stop?; }
  }

  lemma ListenerStep(c: Services, s: State, a: Action)
    requires |s.services| == |c| && ListenerInv(s) && Enabled(s, a)
    ensures ListenerInv(Next(c, s, a))
  {
    if a.PushStop? || a.EndListen? { HasStopAfterPush(s.connections.log, Stop); }
    if a.PushError? { HasStopAfterPush(s.connections.log, Error); }
    if a.Deliver? { HasStopAfterPush(s.connections.log, s.listener.message); }
  }

  // ---- What a step changes ----

  /** What a step puts on the connections queue. */
  function ConnectionSent(s: State, a: Action): seq<Message<Connection>>
    requires Enabled(s, a)
  {
    match a
    case PushStop => [Stop]
    case EndListen => [Stop]
    case PushError => [Error]
    case Deliver => [s.listener.message]
    case _ => []
  }

  lemma ConnectionsStep(c: Services, s: State, a: Action)
    requires |s.services| == |c| && Enabled(s, a)
    ensures var s', sent := Next(c, s, a), ConnectionSent(s, a);
            && s'.connections == (if sent != [] then s.connections.Push(sent[0])
                                  else if a.RequestPop? then s.connections.Pop() else s.connections)
            && (!a.RequestPop? && !a.Read? && !a.Forward? && !a.RequestEnd? ==> s'.request == s.request)
            && (!a.Read? ==> s'.received == s.received)
  {
  }

  /** What a step puts on the requests queue. */
  function RequestSent(s: State, a: Action): seq<Message<Request>>
    requires Enabled(s, a)
  {
    match a
    case Forward => [Content(s.request.request)]
    case RequestEnd => [Stop]
    case _ => []
  }

  lemma RequestsStep(c: Services, s: State, a: Action)
    requires |s.services| == |c| && Enabled(s, a)
    ensures var s', sent := Next(c, s, a), RequestSent(s, a);
            && s'.requests == (if sent != [] then s.requests.Push(sent[0])
                               else if a.AppPop? then s.requests.Pop() else s.requests)
            && (!a.AppPop? && !a.Dispatch? && !a.StopService? && !a.JoinService? && !a.AppEnd? ==> s'.app == s.app)
            && (!a.Dispatch? ==> s'.dispatched == s.dispatched)
  {
  }

  /** What becomes of service i. */
  function ServiceAfter(c: Services, s: State, a: Action, i: nat): Service
    requires i < |s.services| == |c| && Enabled(s, a)
  {
    var sv := s.services[i];
    match a
    case Dispatch =>
      if R.Resolve(c, s.app.request) == Some(i) then sv.(entry := sv.entry.Push(Content(s.app.request))) else sv
    case StopService => if s.app.service == i then sv.(entry := sv.entry.Push(Stop)) else sv
    case ServicePop(j) =>
      if j != i then sv
      else
        sv.(entry := sv.entry.Pop(),
            pc := match sv.entry.Front()
                  case Content(r) => Working(r)
                  case Stop => ServiceEnding
                  case Error => ServiceDone)
    case Work(j, result) =>
      if j != i then sv
      else if result.None? then sv.(pc := ServiceWaiting, handled := sv.handled + [sv.pc.request])
      else sv.(pc := Replying(result.value), handled := sv.handled + [sv.pc.request],
               replies := sv.replies + [result.value])
    case Reply(j) => if j == i then sv.(pc := ServiceWaiting) else sv
    case ServiceEnd(j) => if j == i then sv.(pc := ServiceDone) else sv
    case _ => sv
  }

  lemma ServiceFieldsStep(c: Services, s: State, a: Action, i: nat)
    requires i < |s.services| == |c| && Enabled(s, a)
    ensures Next(c, s, a).services[i] == ServiceAfter(c, s, a, i)
  {
  }

  // ---- Request handler ----

  /** The connections that were read, in order. */
  function Sockets(received: seq<(Connection, string)>): seq<Connection> {
    seq(|received|, i requires 0 <= i < |received| => received[i].0)
  }

  /** What reading these must forward: the blank ones dropped, the rest parsed, in order. */
  function Parsed(received: seq<(Connection, string)>): seq<Request> {
    if received == [] then []
    else
      var front, last := received[..|received| - 1], received[|received| - 1];
      Parsed(front) + (if Blank(last.1) then [] else [Request(last.0, last.1)])
  }

  predicate RequestOpen(pc: RequestPc) { pc.RequestWaiting? || pc.Reading? || pc.Forwarding? }

  ghost predicate Forwards(received: seq<(Connection, string)>, pc: RequestPc, log: seq<Message<Request>>) {
    && Parsed(received) == Payloads(log) + (if pc.Forwarding? then [pc.request] else [])
    && Produced(log, pc.RequestDone?)
  }

  ghost predicate RequestForwards(s: State) { Forwards(s.received, s.request, s.requests.log) }

  ghost predicate Takes(f: Fifo<Message<Connection>>, pc: RequestPc, received: seq<(Connection, string)>) {
    && Consumed(f.log, f.taken, RequestOpen(pc))
    && (pc.RequestEnding? || pc.RequestDone? ==> f.log[f.taken - 1].Stop?)
    && (pc.RequestFailed? ==> f.log[f.taken - 1].Error?)
    && Sockets(received) + (if pc.Reading? then [pc.socket] else []) == Payloads(f.log[..f.taken])
  }

  ghost predicate RequestTakes(s: State) { Takes(s.connections, s.request, s.received) }

  ghost predicate RequestInv(s: State) { RequestTakes(s) && RequestForwards(s) }

  lemma ParsedAfterRead(received: seq<(Connection, string)>, x: (Connection, string))
    ensures Parsed(received + [x]) == Parsed(received) + (if Blank(x.1) then [] else [Request(x.0, x.1)])
    ensures Sockets(received + [x]) == Sockets(received) + [x.0]
  {
    assert (received + [x])[..|received|] == received;
  }

  lemma ProducedAfterPush<T>(log: seq<Message<T>>, m: Message<T>)
    requires Produced(log, false) && (m.Content? || m.Stop?)
    ensures Produced(log + [m], m.Stop?)
  {
    assert (log + [m])[..|log|] == log;
  }

  lemma TakesAfterPush(f: Fifo<Message<Connection>>, pc: RequestPc, received: seq<(Connection, string)>,
                       m: Message<Connection>)
    requires Takes(f, pc, received)
    ensures Takes(f.Push(m), pc, received)
  {
    ConsumedAfterPush(f.log, f.taken, RequestOpen(pc), m);
  }

  lemma TakesAfterPop(f: Fifo<Message<Connection>>, received: seq<(Connection, string)>)
    requires Takes(f, RequestWaiting, received) && f.HasItem()
    ensures Takes(f.Pop(), match f.Front()
                           case Content(x) => Reading(x)
                           case Stop => RequestEnding
                           case Error => RequestFailed, received)
  {
    ConsumedAfterPop(f.log, f.taken);
  }

  lemma TakesAfterRead(f: Fifo<Message<Connection>>, pc: RequestPc, pc': RequestPc, received: seq<(Connection, string)>,
                       data: string)
    requires pc.Reading? && Takes(f, pc, received) && (pc'.RequestWaiting? || pc'.Forwarding?)
    ensures Takes(f, pc', received + [(pc.socket, data)])
  {
    ParsedAfterRead(received, (pc.socket, data));
  }

  lemma RequestTakesStep(c: Services, s: State, a: Action)
    requires |s.services| == |c| && RequestTakes(s) && Enabled(s, a)
    ensures RequestTakes(Next(c, s, a))
  {
    var s' := Next(c, s, a);
    ConnectionsStep(c, s, a);
    if ConnectionSent(s, a) != [] {
      TakesAfterPush(s.connections, s.request, s.received, ConnectionSent(s, a)[0]);
    } else if a.RequestPop? {
      TakesAfterPop(s.connections, s.received);
    } else if a.Read? {
      TakesAfterRead(s.connections, s.request, s'.request, s.received, a.data);
    }
  }

  lemma ForwardsAfterRead(received: seq<(Connection, string)>, x: (Connection, string), log: seq<Message<Request>>)
    requires Forwards(received, Reading(x.0), log)
    ensures Forwards(received + [x], if Blank(x.1) then RequestWaiting else Forwarding(Request(x.0, x.1)), log)
  {
    ParsedAfterRead(received, x);
  }

  lemma ForwardsAfterPush(received: seq<(Connection, string)>, pc: RequestPc, log: seq<Message<Request>>)
    requires Forwards(received, pc, log) && (pc.Forwarding? || pc.RequestEnding?)
    ensures if pc.Forwarding? then Forwards(received, RequestWaiting, log + [Content(pc.request)])
            else Forwards(received, RequestDone, log + [Stop])
  {
    var m := if pc.Forwarding? then Content(pc.request) else Stop;
    PayloadsOfAppend(log, m);
    ProducedAfterPush(log, m);
  }

  lemma RequestForwardsStep(c: Services, s: State, a: Action)
    requires |s.services| == |c| && RequestForwards(s) && Enabled(s, a)
    ensures RequestForwards(Next(c, s, a))
  {
    ConnectionsStep(c, s, a);
    RequestsStep(c, s, a);
    if a.Read? {
      ForwardsAfterRead(s.received, (s.request.socket, a.data), s.requests.log);
    } else if a.Forward? || a.RequestEnd? {
      ForwardsAfterPush(s.received, s.request, s.requests.log);
    }
  }

  // ---- Application handler ----

  /** The requests of a list that the resolver sends to service i, in order. */
  function Routed(c: Services, requests: seq<Request>, i: nat): seq<Request> {
    if requests == [] then []
    else
      var front, last := requests[..|requests| - 1], requests[|requests| - 1];
      Routed(c, front, i) + (if R.Resolve(c, last) == Some(i) then [last] else [])
  }

  /** The application handler has pushed the Stop of service i. */
  predicate ClosedEntry(app: AppPc, i: nat) {
    app.AppDone? || (app.StoppingService? && i < app.service) || (app.JoiningService? && i <= app.service)
  }

  ghost predicate Dispatches(f: Fifo<Message<Request>>, app: AppPc, dispatched: seq<Request>) {
    && Consumed(f.log, f.taken, app.AppWaiting? || app.Dispatching?)
    && dispatched + (if app.Dispatching? then [app.request] else []) == Payloads(f.log[..f.taken])
  }

  ghost predicate Fed(c: Services, app: AppPc, dispatched: seq<Request>, sv: Service, i: nat) {
    && Produced(sv.entry.log, ClosedEntry(app, i))
    && Payloads(sv.entry.log) == Routed(c, dispatched, i)
    // a service is joined before the next one is stopped
    && (ClosedEntry(app, i) && app != JoiningService(i) ==> sv.pc.ServiceDone?)
  }

  ghost predicate EntryInv(c: Services, s: State, i: nat)
    requires |s.services| == |c| && i < |c|
  {
    Fed(c, s.app, s.dispatched, s.services[i], i)
  }

  ghost predicate AppInv(c: Services, s: State) {
    && |s.services| == |c| > 0
    && Dispatches(s.requests, s.app, s.dispatched)
    && (s.app.StoppingService? ==> s.app.service <= |c|)
    && (s.app.JoiningService? ==> s.app.service < |c|)
    && (forall i :: 0 <= i < |c| ==> EntryInv(c, s, i))
  }

  lemma RoutedAfterDispatch(c: Services, requests: seq<Request>, r: Request, i: nat)
    ensures Routed(c, requests + [r], i) == Routed(c, requests, i) + (if R.Resolve(c, r) == Some(i) then [r] else [])
  {
    assert (requests + [r])[..|requests|] == requests;
  }

  /** The application handler only ends by reaching the Stop of the request handler. */
  lemma AppEndsOnStop(s: State)
    requires RequestInv(s) && s.requests.HasItem() && !s.requests.Front().Content?
    ensures s.requests.Front().Stop?
  {
  }

  lemma DispatchesAfterPop(f: Fifo<Message<Request>>, dispatched: seq<Request>)
    requires Dispatches(f, AppWaiting, dispatched) && f.HasItem()
    ensures Dispatches(f.Pop(), match f.Front()
                                case Content(r) => Dispatching(r)
                                case Stop => StoppingService(0)
                                case Error => AppDone, dispatched)
  {
    ConsumedAfterPop(f.log, f.taken);
  }

  lemma DispatchesStep(c: Services, s: State, a: Action)
    requires |s.services| == |c| && Dispatches(s.requests, s.app, s.dispatched) && Enabled(s, a)
    ensures var s' := Next(c, s, a); Dispatches(s'.requests, s'.app, s'.dispatched)
  {
    RequestsStep(c, s, a);
    var open := s.app.AppWaiting? || s.app.Dispatching?;
    if RequestSent(s, a) != [] {
      ConsumedAfterPush(s.requests.log, s.requests.taken, open, RequestSent(s, a)[0]);
    } else if a.AppPop? {
      DispatchesAfterPop(s.requests, s.dispatched);
    }
  }

  lemma FedAfterDispatch(c: Services, r: Request, dispatched: seq<Request>, sv: Service, i: nat)
    requires Fed(c, Dispatching(r), dispatched, sv, i)
    ensures Fed(c, AppWaiting, dispatched + [r],
                if R.Resolve(c, r) == Some(i) then sv.(entry := sv.entry.Push(Content(r))) else sv, i)
  {
    RoutedAfterDispatch(c, dispatched, r, i);
    PayloadsOfAppend(sv.entry.log, Content(r));
    if R.Resolve(c, r) == Some(i) { ProducedAfterPush(sv.entry.log, Content(r)); }
  }

  lemma FedAfterWork(c: Services, app: AppPc, dispatched: seq<Request>, sv: Service, sv': Service, i: nat)
    requires Fed(c, app, dispatched, sv, i)
    requires sv'.entry.log == sv.entry.log && (sv.pc.ServiceDone? ==> sv'.pc.ServiceDone?)
    ensures Fed(c, app, dispatched, sv', i)
  {
  }

  lemma FedAfterStop(c: Services, k: nat, dispatched: seq<Request>, sv: Service, i: nat)
    requires Fed(c, StoppingService(k), dispatched, sv, i)
    ensures Fed(c, JoiningService(k), dispatched, if k == i then sv.(entry := sv.entry.Push(Stop)) else sv, i)
  {
    PayloadsOfAppend(sv.entry.log, Stop);
    if k == i { ProducedAfterPush(sv.entry.log, Stop); }
  }

  lemma EntryStep(c: Services, s: State, a: Action, i: nat)
    requires |s.services| == |c| > i && Enabled(s, a) && EntryInv(c, s, i)
    requires a.AppPop? ==> !s.requests.Front().Error?
    ensures EntryInv(c, Next(c, s, a), i)
  {
    var sv := s.services[i];
    RequestsStep(c, s, a);
    ServiceFieldsStep(c, s, a, i);
    if a.Dispatch? {
      FedAfterDispatch(c, s.app.request, s.dispatched, sv, i);
    } else if a.StopService? {
      FedAfterStop(c, s.app.service, s.dispatched, sv, i);
    } else if !a.AppPop? && !a.JoinService? && !a.AppEnd? {
      FedAfterWork(c, s.app, s.dispatched, sv, ServiceAfter(c, s, a, i), i);
    }
  }

  lemma AppStep(c: Services, s: State, a: Action)
    requires RequestInv(s) && AppInv(c, s) && Enabled(s, a)
    ensures AppInv(c, Next(c, s, a))
  {
    DispatchesStep(c, s, a);
    RequestsStep(c, s, a);
    if a.AppPop? && !s.requests.Front().Content? { AppEndsOnStop(s); }
    forall i | 0 <= i < |c| ensures EntryInv(c, Next(c, s, a), i) {
      assert EntryInv(c, s, i);
      EntryStep(c, s, a, i);
    }
  }

  // ---- Services ----

  predicate ServiceOpen(pc: ServicePc) { pc.ServiceWaiting? || pc.Working? || pc.Replying? }

  ghost predicate ServiceInv(sv: Service) {
    && Consumed(sv.entry.log, sv.entry.taken, ServiceOpen(sv.pc))
    && sv.handled + (if sv.pc.Working? then [sv.pc.request] else []) == Payloads(sv.entry.log[..sv.entry.taken])
    && |sv.replies| <= |sv.handled|
  }

  ghost predicate ServicesInv(s: State) {
    forall i :: 0 <= i < |s.services| ==> ServiceInv(s.services[i])
  }

  /** Entry queues carry requests and one Stop, never an Error. */
  lemma NoErrorInEntry(c: Services, s: State, i: nat)
    requires AppInv(c, s) && i < |c| && s.services[i].entry.HasItem()
    ensures !s.services[i].entry.Front().Error?
  {
    assert EntryInv(c, s, i);
  }

  lemma ServiceAfterPop(sv: Service)
    requires ServiceInv(sv) && sv.pc.ServiceWaiting? && sv.entry.HasItem() && !sv.entry.Front().Error?
    ensures var pc := if sv.entry.Front().Stop? then ServiceEnding else Working(sv.entry.Front().value);
            ServiceInv(sv.(entry := sv.entry.Pop(), pc := pc))
  {
    ConsumedAfterPop(sv.entry.log, sv.entry.taken);
  }

  lemma ServiceAfterPush(sv: Service, m: Message<Request>)
    requires ServiceInv(sv)
    ensures ServiceInv(sv.(entry := sv.entry.Push(m)))
  {
    ConsumedAfterPush(sv.entry.log, sv.entry.taken, ServiceOpen(sv.pc), m);
  }

  lemma ServiceStep(c: Services, s: State, a: Action, i: nat)
    requires i < |s.services| == |c| && ServiceInv(s.services[i]) && Enabled(s, a)
    requires a == ServicePop(i) ==> !s.services[i].entry.Front().Error?
    ensures ServiceInv(Next(c, s, a).services[i])
  {
    var sv := s.services[i];
    ServiceFieldsStep(c, s, a, i);
    match a {
      case ServicePop(j) => if j == i { ServiceAfterPop(sv); }
      case StopService => ServiceAfterPush(sv, Stop);
      case Dispatch => ServiceAfterPush(sv, Content(s.app.request));
      case _ =>
    }
  }

  lemma ServicesStep(c: Services, s: State, a: Action)
    requires AppInv(c, s) && ServicesInv(s) && Enabled(s, a)
    ensures ServicesInv(Next(c, s, a))
  {
    forall i | 0 <= i < |c| ensures ServiceInv(Next(c, s, a).services[i]) {
      if a == ServicePop(i) { NoErrorInEntry(c, s, i); }
      ServiceStep(c, s, a, i);
    }
  }

  /** A service that is past its Stop has been told to stop. */
  lemma EndedServiceWasClosed(c: Services, s: State, i: nat)
    requires AppInv(c, s) && ServicesInv(s) && i < |c| && !ServiceOpen(s.services[i].pc)
    ensures ClosedEntry(s.app, i)
  {
    assert EntryInv(c, s, i) && ServiceInv(s.services[i]);
    var e := s.services[i].entry;
    ClosedConsumerTookAll(e.log, e.taken, ClosedEntry(s.app, i));
  }

  // ---- Responses ----

  /** What one producer has put on the responses queue. */
  function From(log: seq<Outgoing>, p: nat): seq<Message<Response>> {
    if log == [] then []
    else
      var front, last := log[..|log| - 1], log[|log| - 1];
      From(front, p) + (if last.from == p then [last.message] else [])
  }

  /** The producers of the Stops on the responses queue, in order. */
  function StopsBy(log: seq<Outgoing>): seq<nat> {
    if log == [] then []
    else
      var front, last := log[..|log| - 1], log[|log| - 1];
      StopsBy(front) + (if last.message.Stop? then [last.from] else [])
  }

  function Range(n: nat): seq<nat> { seq(n, i => i) }

  function Bare(log: seq<Outgoing>): seq<Message<Response>> {
    seq(|log|, i requires 0 <= i < |log| => log[i].message)
  }

  lemma LogAfterPush(log: seq<Outgoing>, x: Outgoing, p: nat)
    ensures From(log + [x], p) == From(log, p) + (if x.from == p then [x.message] else [])
    ensures StopsBy(log + [x]) == StopsBy(log) + (if x.message.Stop? then [x.from] else [])
    ensures Bare(log + [x]) == Bare(log) + [x.message]
  {
    assert (log + [x])[..|log|] == log;
  }

  /** How many producers have finished: they do so in order, the application handler last. */
  function Finished(s: State): nat {
    match s.app
    case AppDone => |s.services| + 1
    case StoppingService(j) => j
    case JoiningService(j) => if j < |s.services| && s.services[j].pc.ServiceDone? then j + 1 else j
    case _ => 0
  }

  ghost predicate Sends(sent: seq<Message<Response>>, sv: Service) {
    match sv.pc
    case Replying(m) => sent + [m] == sv.replies
    case ServiceDone => sent == sv.replies + [Stop]
    case _ => sent == sv.replies
  }

  ghost predicate ProducerInv(s: State, i: nat)
    requires i < |s.services|
  {
    Sends(From(s.responses.log, i), s.services[i])
  }

  /** No service has itself returned a Stop as the result of a task. */
  ghost predicate NoStopReplies(s: State) {
    forall i :: 0 <= i < |s.services| ==>
      forall j :: 0 <= j < |s.services[i].replies| ==> !s.services[i].replies[j].Stop?
  }

  ghost predicate SendersKnown(s: State) {
    forall j :: 0 <= j < |s.responses.log| ==> s.responses.log[j].from <= |s.services|
  }

  ghost predicate ProducersInv(s: State) {
    && SendersKnown(s)
    && (forall i :: 0 <= i < |s.services| ==> ProducerInv(s, i))
    && From(s.responses.log, |s.services|) == (if s.app.AppDone? then [Stop] else [])
    && (NoStopReplies(s) ==> StopsBy(s.responses.log) == Range(Finished(s)))
  }

  lemma RepliesGrow(c: Services, s: State, a: Action, i: nat)
    requires i < |c| == |s.services| && Enabled(s, a)
    ensures s.services[i].replies <= Next(c, s, a).services[i].replies
  {
  }

  lemma NoStopRepliesBefore(c: Services, s: State, a: Action)
    requires |s.services| == |c| && Enabled(s, a) && NoStopReplies(Next(c, s, a))
    ensures NoStopReplies(s)
  {
    var s' := Next(c, s, a);
    forall i, j | 0 <= i < |c| && 0 <= j < |s.services[i].replies| ensures !s.services[i].replies[j].Stop? {
      RepliesGrow(c, s, a, i);
      assert s.services[i].replies[j] == s'.services[i].replies[j];
    }
  }

  lemma ServiceEndsInTurn(c: Services, s: State, i: nat)
    requires AppInv(c, s) && ServicesInv(s) && i < |c| && s.services[i].pc.ServiceEnding?
    ensures s.app == JoiningService(i) && Finished(s) == i
  {
    EndedServiceWasClosed(c, s, i);
    assert EntryInv(c, s, i);
  }

  lemma ToldServiceIsNotDone(c: Services, s: State)
    requires AppInv(c, s) && ServicesInv(s) && Enabled(s, StopService)
    ensures !s.services[s.app.service].pc.ServiceDone?
    ensures !Next(c, s, StopService).services[s.app.service].pc.ServiceDone?
  {
    if s.services[s.app.service].pc.ServiceDone? { EndedServiceWasClosed(c, s, s.app.service); }
  }

  lemma FinishedKept(c: Services, s: State, a: Action)
    requires |s.services| == |c| && Enabled(s, a)
    requires !a.AppPop? && !a.Dispatch? && !a.StopService? && !a.JoinService? && !a.AppEnd? && !a.ServiceEnd?
    requires a.ServicePop? ==> !s.services[a.service].entry.Front().Error?
    ensures Finished(Next(c, s, a)) == Finished(s)
  {
    RequestsStep(c, s, a);
    if s.app.JoiningService? && s.app.service < |c| { ServiceFieldsStep(c, s, a, s.app.service); }
  }

  /** Only the end of a service or of the application handler counts as finishing, and each finishes at
      its turn. */
  lemma FinishedStep(c: Services, s: State, a: Action)
    requires RequestInv(s) && AppInv(c, s) && ServicesInv(s) && Enabled(s, a)
    ensures var n := Finished(s);
            && Finished(Next(c, s, a)) == (if a.ServiceEnd? || a.AppEnd? then n + 1 else n)
            && (a.ServiceEnd? ==> a.service == n)
            && (a.AppEnd? ==> n == |c|)
  {
    if a.ServiceEnd? {
      ServiceEndsInTurn(c, s, a.service);
    } else if a.AppPop? {
      if !s.requests.Front().Content? { AppEndsOnStop(s); }
    } else if a.StopService? {
      ToldServiceIsNotDone(c, s);
    } else if !a.Dispatch? && !a.JoinService? && !a.AppEnd? {
      if a.ServicePop? { NoErrorInEntry(c, s, a.service); }
      FinishedKept(c, s, a);
    }
  }

  /** What a step puts on the responses queue. */
  function Sent(s: State, a: Action): seq<Outgoing>
    requires Enabled(s, a)
  {
    match a
    case Reply(i) => [Outgoing(i, s.services[i].pc.message)]
    case ServiceEnd(i) => [Outgoing(i, Stop)]
    case AppEnd => [Outgoing(|s.services|, Stop)]
    case _ => []
  }

  lemma LogStep(c: Services, s: State, a: Action, p: nat)
    requires |s.services| == |c| && Enabled(s, a)
    ensures var log, log', sent := s.responses.log, Next(c, s, a).responses.log, Sent(s, a);
            && log' == log + sent
            && (sent == [] ==> log' == log)
            && (sent != [] ==> From(log', p) == From(log, p) + (if sent[0].from == p then [sent[0].message] else [])
                               && StopsBy(log') == StopsBy(log) + (if sent[0].message.Stop? then [sent[0].from] else [])
                               && Bare(log') == Bare(log) + [sent[0].message])
  {
    if Sent(s, a) != [] { LogAfterPush(s.responses.log, Sent(s, a)[0], p); }
  }

  lemma RangeSnoc(n: nat)
    ensures Range(n + 1) == Range(n) + [n]
  {
  }

  lemma PendingReplyIsReply(s: State, i: nat)
    requires i < |s.services| && s.services[i].pc.Replying? && ProducerInv(s, i)
    ensures var sv := s.services[i]; sv.replies != [] && sv.replies[|sv.replies| - 1] == sv.pc.message
  {
    assert s.services[i].replies == From(s.responses.log, i) + [s.services[i].pc.message];
  }

  lemma StopOrderStep(c: Services, s: State, a: Action)
    requires |s.services| == |c| && Enabled(s, a) && NoStopReplies(s)
    requires a.Reply? ==> ProducerInv(s, a.service)
    requires StopsBy(s.responses.log) == Range(Finished(s))
    requires var n := Finished(s);
             && Finished(Next(c, s, a)) == (if a.ServiceEnd? || a.AppEnd? then n + 1 else n)
             && (a.ServiceEnd? ==> a.service == n)
             && (a.AppEnd? ==> n == |c|)
    ensures StopsBy(Next(c, s, a).responses.log) == Range(Finished(Next(c, s, a)))
  {
    LogStep(c, s, a, 0);
    RangeSnoc(Finished(s));
    if a.Reply? { PendingReplyIsReply(s, a.service); }
  }

  lemma SendsStep(c: Services, s: State, a: Action, i: nat, sent: seq<Message<Response>>)
    requires i < |c| == |s.services| && Enabled(s, a) && Sends(sent, s.services[i])
    requires a == ServicePop(i) ==> !s.services[i].entry.Front().Error?
    ensures var x := Sent(s, a);
            Sends(if x != [] && x[0].from == i then sent + [x[0].message] else sent, ServiceAfter(c, s, a, i))
  {
  }

  lemma ProducerStep(c: Services, s: State, a: Action, i: nat)
    requires i < |c| == |s.services| && ProducerInv(s, i) && Enabled(s, a)
    requires a == ServicePop(i) ==> !s.services[i].entry.Front().Error?
    ensures ProducerInv(Next(c, s, a), i)
  {
    LogStep(c, s, a, i);
    ServiceFieldsStep(c, s, a, i);
    SendsStep(c, s, a, i, From(s.responses.log, i));
  }

  lemma AppSendsStep(c: Services, s: State, a: Action)
    requires RequestInv(s) && |s.services| == |c| && Enabled(s, a)
    requires From(s.responses.log, |c|) == (if s.app.AppDone? then [Stop] else [])
    ensures var s' := Next(c, s, a); From(s'.responses.log, |c|) == (if s'.app.AppDone? then [Stop] else [])
  {
    RequestsStep(c, s, a);
    LogStep(c, s, a, |c|);
    if a.AppPop? && !s.requests.Front().Content? { AppEndsOnStop(s); }
  }

  lemma StopsByStep(c: Services, s: State, a: Action)
    requires RequestInv(s) && AppInv(c, s) && ServicesInv(s) && ProducersInv(s) && Enabled(s, a)
    ensures var s' := Next(c, s, a); NoStopReplies(s') ==> StopsBy(s'.responses.log) == Range(Finished(s'))
  {
    if NoStopReplies(Next(c, s, a)) {
      NoStopRepliesBefore(c, s, a);
      FinishedStep(c, s, a);
      StopOrderStep(c, s, a);
    }
  }

  lemma SendersStep(c: Services, s: State, a: Action)
    requires |s.services| == |c| && SendersKnown(s) && Enabled(s, a)
    ensures SendersKnown(Next(c, s, a))
  {
    LogStep(c, s, a, 0);
  }

  lemma ProducersStep(c: Services, s: State, a: Action)
    requires RequestInv(s) && AppInv(c, s) && ServicesInv(s) && ProducersInv(s) && Enabled(s, a)
    ensures ProducersInv(Next(c, s, a))
  {
    SendersStep(c, s, a);
    AppSendsStep(c, s, a);
    StopsByStep(c, s, a);
    forall i | 0 <= i < |c| ensures ProducerInv(Next(c, s, a), i) {
      if a == ServicePop(i) { NoErrorInEntry(c, s, i); }
      ProducerStep(c, s, a, i);
    }
  }

  // ---- Response handler ----

  ghost predicate ResponseInv(s: State) {
    var log := Bare(s.responses.log);
    && Consumed(log, s.responses.taken, !s.response.ResponseDone?)
    && s.written + (if s.response.Writing? then [s.response.response] else []) == Payloads(log[..s.responses.taken])
  }

  lemma ResponseStep(c: Services, s: State, a: Action)
    requires |s.services| == |c| && ResponseInv(s) && Enabled(s, a)
    ensures ResponseInv(Next(c, s, a))
  {
    var log, taken, open := s.responses.log, s.responses.taken, !s.response.ResponseDone?;
    LogStep(c, s, a, 0);
    if Sent(s, a) != [] { ConsumedAfterPush(Bare(log), taken, open, Sent(s, a)[0].message); }
    if a.ResponsePop? { ConsumedAfterPop(Bare(log), taken); }
  }

  // ---- Main thread ----

  ghost predicate MainInv(s: State) {
    && s.joined <= 4
    && (s.joined >= 1 ==> s.listener.ListenerDone?)
    && (s.joined >= 2 ==> s.request.RequestDone? || s.request.RequestFailed?)
    && (s.joined >= 3 ==> s.app.AppDone?)
    && (s.joined >= 4 ==> s.response.ResponseDone?)
  }

  lemma MainStep(c: Services, s: State, a: Action)
    requires |s.services| == |c| && MainInv(s) && Enabled(s, a)
    ensures MainInv(Next(c, s, a))
  {
  }

  // ---- All together ----

  ghost predicate Inv(c: Services, s: State) {
    && ListenerInv(s) && RequestInv(s) && AppInv(c, s) && ServicesInv(s) && ProducersInv(s)
    && ResponseInv(s) && MainInv(s)
  }

  lemma InitInv(c: Services)
    requires c != []
    ensures Inv(c, Init(|c|))
  {
    var s := Init(|c|);
    forall i | 0 <= i < |c| ensures EntryInv(c, s, i) && ServiceInv(s.services[i]) && ProducerInv(s, i) {
    }
  }

  lemma StepKeepsInv(c: Services, s: State, a: Action)
    requires Inv(c, s) && Enabled(s, a)
    ensures Inv(c, Next(c, s, a))
  {
    ListenerStep(c, s, a);
    RequestTakesStep(c, s, a);
    RequestForwardsStep(c, s, a);
    AppStep(c, s, a);
    ServicesStep(c, s, a);
    ProducersStep(c, s, a);
    ResponseStep(c, s, a);
    MainStep(c, s, a);
  }

  lemma {:induction false} RunKeepsInv(c: Services, s: State, run: seq<Action>)
    requires Inv(c, s) && Legal(c, s, run)
    ensures Inv(c, Final(c, s, run))
    decreases |run|
  {
    if run == [] {
    } else {
      StepKeepsInv(c, s, run[0]);
      RunKeepsInv(c, Next(c, s, run[0]), run[1..]);
    }
  }

  lemma ReachableInv(c: Services, s: State)
    requires c != [] && Reachable(c, s)
    ensures Inv(c, s)
  {
    var run :| Legal(c, Init(|c|), run) && Final(c, Init(|c|), run) == s;
    InitInv(c);
    RunKeepsInv(c, Init(|c|), run);
  }
}
