/** From the clients that connect to what is read, forwarded and handled: nothing on the way is taken for granted
    but that the listening socket hands out connections in the order in which they arrive. */
module PipelineArrivals {
  import opened Wrappers
  import opened Sequences
  import opened Messages
  import opened Pipeline
  import opened PipelineInvariants
  import opened PipelineShutdown
  import opened PipelineResults
  import opened PipelineOutcomes
  import R = WebServiceResolver

  /** The connection that arrives with a step: a client's, or the decoy of stop(). */
  function Came(a: Action): seq<Connection> {
    match a
    case Connect(x) => [x]
    case SendDecoy(x) => [x]
    case _ => []
  }

  function Arrived(run: seq<Action>): seq<Connection> {
    if run == [] then [] else Came(run[0]) + Arrived(run[1..])
  }

  /** How often accept() has failed. */
  function Failures(run: seq<Action>): nat {
    if run == [] then 0 else (if run[0].AcceptFails? then 1 else 0) + Failures(run[1..])
  }

  function ErrorCount<T>(log: seq<Message<T>>): nat {
    if log == [] then 0 else ErrorCount(log[..|log| - 1]) + (if log[|log| - 1].Error? then 1 else 0)
  }

  function StopCount<T>(log: seq<Message<T>>): nat {
    if log == [] then 0 else StopCount(log[..|log| - 1]) + (if log[|log| - 1].Stop? then 1 else 0)
  }

  lemma CountsOfAppend<T>(log: seq<Message<T>>, m: Message<T>)
    ensures ErrorCount(log + [m]) == ErrorCount(log) + (if m.Error? then 1 else 0)
    ensures StopCount(log + [m]) == StopCount(log) + (if m.Stop? then 1 else 0)
  {
    assert (log + [m])[..|log|] == log;
  }

  /** The connection that the listener has accepted and not yet queued. */
  function InHand(pc: ListenerPc): seq<Connection> {
    match pc
    case Obtained(Content(x)) => [x]
    case Delivering(Content(x)) => [x]
    case _ => []
  }

  /** The Errors that the listener has still to queue if the flag stays down. */
  function ErrorsDue(pc: ListenerPc): nat {
    match pc
    case Obtained(Error) => 2
    case Reporting => 2
    case Reported => 1
    case Delivering(Error) => 1
    case _ => 0
  }

  predicate Ended(pc: ListenerPc) { pc.ListenerEnding? || pc.ListenerDone? }

  /** Until the listener ends, what was queued, what is in its hand and the backlog are what arrived; when it
      ends, at most the one connection in its hand is dropped. */
  ghost predicate Accounted(log: seq<Message<Connection>>, pc: ListenerPc, backlog: seq<Connection>,
                            arrived: seq<Connection>)
  {
    var queued := Payloads(log);
    if !Ended(pc) then queued + InHand(pc) + backlog == arrived
    else queued + backlog == arrived || exists x :: queued + [x] + backlog == arrived
  }

  /** Every failed accept is queued twice, but that the listener may end in between. */
  predicate ErrorsAccounted(queued: nat, pc: ListenerPc, failures: nat) {
    if !Ended(pc) then queued + ErrorsDue(pc) == 2 * failures
    else queued <= 2 * failures <= queued + 2
  }

  /** stop() and the listener each queue one Stop. */
  predicate StopsAccounted(queued: nat, stopper: StopperPc, pc: ListenerPc) {
    queued == (if stopper.StopReturned? then 1 else 0) + (if pc.ListenerDone? then 1 else 0)
  }

  ghost predicate Arrivals(s: State, arrived: seq<Connection>, failures: nat) {
    && Accounted(s.connections.log, s.listener, s.backlog, arrived)
    && ErrorsAccounted(ErrorCount(s.connections.log), s.listener, failures)
    && StopsAccounted(StopCount(s.connections.log), s.stopper, s.listener)
  }

  // ---- Steps ----

  /** What the listener does next. */
  function ListenerAfter(s: State, a: Action): ListenerPc
    requires Enabled(s, a)
  {
    match a
    case AcceptFails => Obtained(Error)
    case Accept => Obtained(Content(s.backlog[0]))
    case ReadFlag =>
      if s.stopThread then ListenerEnding
      else if s.listener.Reported? then Delivering(Error)
      else if s.listener.message.Error? then Reporting
      else Delivering(s.listener.message)
    case PushError => Reported
    case Deliver => Accepting
    case EndListen => ListenerDone
    case _ => s.listener
  }

  lemma ListenerFieldsStep(c: Services, s: State, a: Action)
    requires |s.services| == |c| && Enabled(s, a)
    ensures var s' := Next(c, s, a);
            && s'.listener == ListenerAfter(s, a)
            && s'.backlog == (if a.Accept? then s.backlog[1..] else s.backlog + Came(a))
            && (s'.stopper.StopReturned? <==> s.stopper.StopReturned? || a.PushStop?)
            && (a.PushStop? ==> !s.stopper.StopReturned?)
  {
    WithNothing(s.backlog);
  }

  lemma AccountedAfterArrival(log: seq<Message<Connection>>, pc: ListenerPc, backlog: seq<Connection>,
                              arrived: seq<Connection>, came: seq<Connection>)
    requires Accounted(log, pc, backlog, arrived)
    ensures Accounted(log, pc, backlog + came, arrived + came)
  {
    var queued := Payloads(log);
    if !Ended(pc) {
      assert queued + InHand(pc) + (backlog + came) == (queued + InHand(pc) + backlog) + came;
    } else if queued + backlog == arrived {
      assert queued + (backlog + came) == (queued + backlog) + came;
    } else {
      var x :| queued + [x] + backlog == arrived;
      assert queued + [x] + (backlog + came) == (queued + [x] + backlog) + came;
    }
  }

  lemma AccountedAfterAccept(log: seq<Message<Connection>>, backlog: seq<Connection>, arrived: seq<Connection>)
    requires Accounted(log, Accepting, backlog, arrived) && backlog != []
    ensures Accounted(log, Obtained(Content(backlog[0])), backlog[1..], arrived)
  {
    assert backlog == [backlog[0]] + backlog[1..];
    assert Payloads(log) + [] + backlog == Payloads(log) + [backlog[0]] + backlog[1..];
  }

  lemma AccountedAfterQueueing(log: seq<Message<Connection>>, pc: ListenerPc, m: Message<Connection>,
                               backlog: seq<Connection>, arrived: seq<Connection>)
    requires Accounted(log, pc, backlog, arrived) && !Ended(pc)
    requires InHand(pc) == if m.Content? then [m.value] else []
    ensures Accounted(log + [m], Accepting, backlog, arrived)
  {
    PayloadsOfAppend(log, m);
    assert Payloads(log) + InHand(pc) + [] + backlog == Payloads(log) + InHand(pc) + backlog;
  }

  lemma AccountedAfterStop(log: seq<Message<Connection>>, pc: ListenerPc, pc': ListenerPc, m: Message<Connection>,
                           backlog: seq<Connection>, arrived: seq<Connection>)
    requires Accounted(log, pc, backlog, arrived) && !m.Content?
    requires InHand(pc) == InHand(pc') && Ended(pc) == Ended(pc')
    ensures Accounted(log + [m], pc', backlog, arrived)
  {
    PayloadsOfAppend(log, m);
    WithNothing(Payloads(log));
  }

  lemma AccountedAtEnd(log: seq<Message<Connection>>, pc: ListenerPc, backlog: seq<Connection>,
                       arrived: seq<Connection>)
    requires Accounted(log, pc, backlog, arrived) && !Ended(pc)
    ensures Accounted(log, ListenerEnding, backlog, arrived)
  {
    var queued, hand := Payloads(log), InHand(pc);
    if hand == [] {
      assert queued + [] + backlog == queued + backlog;
    } else {
      assert queued + [hand[0]] + backlog == arrived;
    }
  }

  lemma AccountedStep(c: Services, s: State, a: Action, arrived: seq<Connection>)
    requires |s.services| == |c| && ListenerInv(s) && Enabled(s, a)
    requires Accounted(s.connections.log, s.listener, s.backlog, arrived)
    ensures var s' := Next(c, s, a); Accounted(s'.connections.log, s'.listener, s'.backlog, arrived + Came(a))
  {
    var log, pc := s.connections.log, s.listener;
    ConnectionsStep(c, s, a);
    ListenerFieldsStep(c, s, a);
    WithNothing(arrived);
    WithNothing(s.backlog);
    if Came(a) != [] {
      AccountedAfterArrival(log, pc, s.backlog, arrived, Came(a));
    } else if a.Accept? {
      AccountedAfterAccept(log, s.backlog, arrived);
    } else if a.Deliver? {
      AccountedAfterQueueing(log, pc, pc.message, s.backlog, arrived);
    } else if ConnectionSent(s, a) != [] {
      AccountedAfterStop(log, pc, ListenerAfter(s, a), ConnectionSent(s, a)[0], s.backlog, arrived);
    } else if a.ReadFlag? && s.stopThread {
      AccountedAtEnd(log, pc, s.backlog, arrived);
    }
  }

  lemma SentIsCounted(c: Services, s: State, a: Action)
    requires |s.services| == |c| && Enabled(s, a)
    ensures var log, log', sent := s.connections.log, Next(c, s, a).connections.log, ConnectionSent(s, a);
            && ErrorCount(log') == ErrorCount(log) + (if sent != [] && sent[0].Error? then 1 else 0)
            && StopCount(log') == StopCount(log) + (if sent != [] && sent[0].Stop? then 1 else 0)
  {
    ConnectionsStep(c, s, a);
    if ConnectionSent(s, a) != [] { CountsOfAppend(s.connections.log, ConnectionSent(s, a)[0]); }
  }

  lemma CountsStep(s: State, a: Action, errors: nat, stops: nat, failures: nat)
    requires ListenerInv(s) && Enabled(s, a)
    requires ErrorsAccounted(errors, s.listener, failures) && StopsAccounted(stops, s.stopper, s.listener)
    ensures var sent := ConnectionSent(s, a);
            && ErrorsAccounted(errors + (if sent != [] && sent[0].Error? then 1 else 0), ListenerAfter(s, a),
                               failures + if a.AcceptFails? then 1 else 0)
            && StopsAccounted(stops + (if sent != [] && sent[0].Stop? then 1 else 0),
                              if a.PushStop? then StopReturned else s.stopper, ListenerAfter(s, a))
  {
  }

  lemma ArrivalsStep(c: Services, s: State, a: Action, arrived: seq<Connection>, failures: nat)
    requires |s.services| == |c| && ListenerInv(s) && Enabled(s, a) && Arrivals(s, arrived, failures)
    ensures Arrivals(Next(c, s, a), arrived + Came(a), failures + if a.AcceptFails? then 1 else 0)
  {
    AccountedStep(c, s, a, arrived);
    SentIsCounted(c, s, a);
    CountsStep(s, a, ErrorCount(s.connections.log), StopCount(s.connections.log), failures);
    ListenerFieldsStep(c, s, a);
  }

  lemma ArrivedFirst(run: seq<Action>, arrived: seq<Connection>, failures: nat)
    requires run != []
    ensures (arrived + Came(run[0])) + Arrived(run[1..]) == arrived + Arrived(run)
    ensures (failures + if run[0].AcceptFails? then 1 else 0) + Failures(run[1..]) == failures + Failures(run)
  {
    Regroup(arrived, Came(run[0]), Arrived(run[1..]));
  }

  lemma {:induction false} ArrivalsAfterRun(c: Services, s: State, run: seq<Action>, arrived: seq<Connection>,
                                            failures: nat)
    requires |s.services| == |c| && ListenerInv(s) && Legal(c, s, run) && Arrivals(s, arrived, failures)
    ensures ListenerInv(Final(c, s, run))
    ensures Arrivals(Final(c, s, run), arrived + Arrived(run), failures + Failures(run))
    decreases |run|
  {
    if run == [] {
      assert arrived + Arrived(run) == arrived;
    } else {
      ListenerStep(c, s, run[0]);
      ArrivalsStep(c, s, run[0], arrived, failures);
      ArrivedFirst(run, arrived, failures);
      ArrivalsAfterRun(c, Next(c, s, run[0]), run[1..], arrived + Came(run[0]),
                       failures + if run[0].AcceptFails? then 1 else 0);
    }
  }

  lemma ArrivalsFromInit(c: Services, run: seq<Action>)
    requires c != [] && Legal(c, Init(|c|), run)
    ensures ListenerInv(Final(c, Init(|c|), run))
    ensures Arrivals(Final(c, Init(|c|), run), Arrived(run), Failures(run))
  {
    ArrivalsAfterRun(c, Init(|c|), run, [], 0);
    WithNothing(Arrived(run));
  }

  lemma QueuedArrived(log: seq<Message<Connection>>, pc: ListenerPc, backlog: seq<Connection>,
                      arrived: seq<Connection>)
    requires Accounted(log, pc, backlog, arrived)
    ensures Payloads(log) <= arrived
  {
  }

  lemma ArrivalsMean(s: State, arrived: seq<Connection>, failures: nat)
    requires ListenerInv(s) && Arrivals(s, arrived, failures)
    ensures var queued := Payloads(s.connections.log);
            && (!s.stopThread ==> queued + InHand(s.listener) + s.backlog == arrived
                                  && ErrorCount(s.connections.log) + ErrorsDue(s.listener) == 2 * failures
                                  && StopCount(s.connections.log) == 0)
            && queued <= arrived
            && (queued + InHand(s.listener) + s.backlog == arrived || exists x :: queued + [x] + s.backlog == arrived)
            && ErrorCount(s.connections.log) <= 2 * failures <= ErrorCount(s.connections.log) + 2
  {
    var queued := Payloads(s.connections.log);
    WithNothing(queued);
    QueuedArrived(s.connections.log, s.listener, s.backlog, arrived);
  }

  // ---- Runs of the server ----

  /** In every run: until the listener has seen the flag, the connections queued, the one in its hand and the
      backlog are, in this order, exactly the connections that arrived, and every failed accept has been queued
      twice but for what the listener is about to queue. After that at most one connection is missing, and it is
      the next one. stop() and the listener queue one Stop each. */
  lemma EveryArrivalIsAccountedFor(c: Services, run: seq<Action>)
    requires c != [] && Legal(c, Init(|c|), run)
    ensures var s := Final(c, Init(|c|), run);
            var queued := Payloads(s.connections.log);
            && (!s.stopThread ==> queued + InHand(s.listener) + s.backlog == Arrived(run)
                                  && ErrorCount(s.connections.log) + ErrorsDue(s.listener) == 2 * Failures(run)
                                  && StopCount(s.connections.log) == 0)
            && queued <= Arrived(run)
            && (queued + InHand(s.listener) + s.backlog == Arrived(run)
                || exists x :: queued + [x] + s.backlog == Arrived(run))
            && ErrorCount(s.connections.log) <= 2 * Failures(run) <= ErrorCount(s.connections.log) + 2
            && StopCount(s.connections.log)
               == (if s.stopper.StopReturned? then 1 else 0) + (if s.listener.ListenerDone? then 1 else 0)
  {
    ArrivalsFromInit(c, run);
    ArrivalsMean(Final(c, Init(|c|), run), Arrived(run), Failures(run));
  }

  lemma {:induction false} NoEndWithoutStopsAndErrors<T>(log: seq<Message<T>>)
    requires ErrorCount(log) == 0 && StopCount(log) == 0
    ensures AllContent(log)
    decreases |log|
  {
    if log == [] {
    } else {
      NoEndWithoutStopsAndErrors(log[..|log| - 1]);
    }
  }

  lemma {:induction false} ConnectionsOnlyGrow(c: Services, s: State, run: seq<Action>)
    requires |s.services| == |c| && Legal(c, s, run)
    ensures s.connections.log <= Final(c, s, run).connections.log
    decreases |run|
  {
    if run == [] {
    } else {
      ConnectionsStep(c, s, run[0]);
      ConnectionsOnlyGrow(c, Next(c, s, run[0]), run[1..]);
    }
  }

  /** What is queued while no end is queued lies before the first end for ever. */
  lemma QueuedBeforeEnd<T>(log: seq<Message<T>>, longer: seq<Message<T>>)
    requires AllContent(log) && log <= longer
    ensures Payloads(log) <= BeforeEnd(longer)
  {
    assert longer[..|log|] == log;
    FirstEndIs(longer, |log|);
    PrefixPayloads(longer, |log|, FirstEnd(longer));
  }

  lemma ReadWhenReturned(c: Services, end: State, earlier: seq<Message<Connection>>, arrived: seq<Connection>)
    requires c != [] && Reachable(c, end) && end.joined == 4
    requires Accounted(end.connections.log, end.listener, end.backlog, arrived)
    requires AllContent(earlier) && earlier <= end.connections.log
    ensures Payloads(earlier) <= Sockets(end.received) <= arrived
  {
    ReturnedServerHandledEverything(c, end);
    var log := end.connections.log;
    QueuedBeforeEnd(earlier, log);
    PrefixPayloads(log, FirstEnd(log), |log|);
    assert log[..|log|] == log;
    QueuedArrived(log, end.listener, end.backlog, arrived);
  }

  lemma AllBut(queued: seq<Connection>, hand: seq<Connection>, backlog: seq<Connection>, arrived: seq<Connection>)
    requires queued + hand + backlog == arrived
    ensures |hand| + |backlog| <= |arrived| && arrived[..|arrived| - (|hand| + |backlog|)] == queued
  {
  }

  lemma QueuedUntilThen(c: Services, mid: State, end: State, before: seq<Connection>, arrived: seq<Connection>)
    requires ListenerInv(mid) && Arrivals(mid, before, 0) && !mid.stopThread
    requires c != [] && Reachable(c, end) && end.joined == 4 && mid.connections.log <= end.connections.log
    requires Accounted(end.connections.log, end.listener, end.backlog, arrived)
    ensures var waiting := |InHand(mid.listener)| + |mid.backlog|;
            waiting <= |before| && before[..|before| - waiting] <= Sockets(end.received) <= arrived
  {
    ArrivalsMean(mid, before, 0);
    NoEndWithoutStopsAndErrors(mid.connections.log);
    AllBut(Payloads(mid.connections.log), InHand(mid.listener), mid.backlog, before);
    ReadWhenReturned(c, end, mid.connections.log, arrived);
  }

  /** When the main thread has joined everything, the connections read are a beginning of those that arrived. If
      accept() had not failed by some moment before stop() was called, they hold every connection that had been
      queued by then: all that had arrived but the one in the listener's hand and the backlog. */
  lemma QueuedClientsAreRead(c: Services, before: seq<Action>, after: seq<Action>)
    requires c != [] && Legal(c, Init(|c|), before) && Legal(c, Final(c, Init(|c|), before), after)
    requires var mid := Final(c, Init(|c|), before); !mid.stopThread && Failures(before) == 0
    requires Final(c, Final(c, Init(|c|), before), after).joined == 4
    ensures var mid := Final(c, Init(|c|), before);
            var end := Final(c, mid, after);
            var waiting := |InHand(mid.listener)| + |mid.backlog|;
            && waiting <= |Arrived(before)|
            && Arrived(before)[..|Arrived(before)| - waiting] <= Sockets(end.received)
            && Sockets(end.received) <= Arrived(before) + Arrived(after)
  {
    var mid := Final(c, Init(|c|), before);
    var end := Final(c, mid, after);
    ArrivalsFromInit(c, before);
    ArrivalsAfterRun(c, mid, after, Arrived(before), Failures(before));
    ReachableRun(c, mid, after);
    ConnectionsOnlyGrow(c, mid, after);
    QueuedUntilThen(c, mid, end, Arrived(before), Arrived(before) + Arrived(after));
  }

  // ---- Which reads become requests ----

  predicate HasData(data: string) { exists i :: 0 <= i < |data| && data[i] != '\0' }

  function RequestOf(socket: Connection, data: string): seq<Request> {
    if HasData(data) then [Request(socket, data)] else []
  }

  /** The reads that hold some byte other than zero, as requests. */
  function Requests(received: seq<(Connection, string)>): seq<Request> {
    if received == [] then [] else RequestOf(received[0].0, received[0].1) + Requests(received[1..])
  }

  lemma {:induction false} RequestsSnoc(received: seq<(Connection, string)>, x: (Connection, string))
    ensures Requests(received + [x]) == Requests(received) + RequestOf(x.0, x.1)
    decreases |received|
  {
    var all := received + [x];
    if received == [] {
      assert all[1..] == [] && all[0] == x;
    } else {
      assert all[0] == received[0] && all[1..] == received[1..] + [x];
      RequestsSnoc(received[1..], x);
      Regroup(RequestOf(received[0].0, received[0].1), Requests(received[1..]), RequestOf(x.0, x.1));
    }
  }

  lemma {:induction false} ParsedAreRequests(received: seq<(Connection, string)>)
    ensures Parsed(received) == Requests(received)
    decreases |received|
  {
    if received == [] {
    } else {
      var n := |received| - 1;
      ParsedAreRequests(received[..n]);
      RequestsSnoc(received[..n], received[n]);
      assert received == received[..n] + [received[n]];
    }
  }

  /** In every reachable state, what was forwarded and what is about to be are, in order, exactly the reads that
      hold some byte other than zero. */
  lemma ReadsWithDataAreForwarded(c: Services, s: State)
    requires c != [] && Reachable(c, s)
    ensures Payloads(s.requests.log) + (if s.request.Forwarding? then [s.request.request] else [])
         == Requests(s.received)
  {
    ReachableInv(c, s);
    ParsedAreRequests(s.received);
  }

  // ---- Which service a request goes to ----

  /** The service is the first that can handle the request, or the first of all if none can. */
  ghost predicate IsServiceFor(c: Services, i: nat, r: Request) {
    && i < |c|
    && (forall j :: 0 <= j < i ==> !c[j](r))
    && (c[i](r) || (i == 0 && forall j :: 0 <= j < |c| ==> !c[j](r)))
  }

  /** The requests that service i is the service for, in order. */
  ghost function Fitting(c: Services, requests: seq<Request>, i: nat): seq<Request> {
    if requests == [] then []
    else (if IsServiceFor(c, i, requests[0]) then [requests[0]] else []) + Fitting(c, requests[1..], i)
  }

  lemma {:induction false} FittingSnoc(c: Services, requests: seq<Request>, r: Request, i: nat)
    ensures Fitting(c, requests + [r], i) == Fitting(c, requests, i) + (if IsServiceFor(c, i, r) then [r] else [])
    decreases |requests|
  {
    if requests == [] {
      assert (requests + [r])[1..] == [] && (requests + [r])[0] == r;
    } else {
      assert (requests + [r])[1..] == requests[1..] + [r];
      FittingSnoc(c, requests[1..], r, i);
    }
  }

  lemma ServiceForIsResolved(c: Services, r: Request, i: nat)
    ensures R.Resolve(c, r) == Some(i) <==> IsServiceFor(c, i, r)
  {
    R.ResolvePicksFirstElseZero(c, r);
  }

  lemma {:induction false} RoutedFits(c: Services, requests: seq<Request>, i: nat)
    ensures Routed(c, requests, i) == Fitting(c, requests, i)
    decreases |requests|
  {
    if requests == [] {
    } else {
      var front, last := requests[..|requests| - 1], requests[|requests| - 1];
      RoutedFits(c, front, i);
      ServiceForIsResolved(c, last, i);
      FittingSnoc(c, front, last, i);
      assert requests == front + [last];
    }
  }

  /** When the main thread has joined everything, each service has handled, in order, exactly those of the reads
      with data that it is the service for. */
  lemma ServicesHandleWhatFits(c: Services, s: State, i: nat)
    requires c != [] && Reachable(c, s) && s.joined == 4 && i < |c|
    ensures |s.services| == |c| && s.services[i].handled == Fitting(c, Requests(s.received), i)
  {
    ReturnedServerHandledEverything(c, s);
    ParsedAreRequests(s.received);
    RoutedFits(c, Requests(s.received), i);
  }

  /** The same from the clients: what was read are the first of the connections that arrived, and each service has
      handled exactly what it is the service for. */
  lemma ReturnedServerServedArrivals(c: Services, run: seq<Action>)
    requires c != [] && Legal(c, Init(|c|), run) && Final(c, Init(|c|), run).joined == 4
    ensures var end := Final(c, Init(|c|), run);
            && |end.services| == |c|
            && Sockets(end.received) <= Arrived(run)
            && forall i :: 0 <= i < |c| ==> end.services[i].handled == Fitting(c, Requests(end.received), i)
  {
    var end := Final(c, Init(|c|), run);
    InitIsReachable(c);
    ReachableRun(c, Init(|c|), run);
    ArrivalsFromInit(c, run);
    ReadWhenReturned(c, end, [], Arrived(run));
    forall i | 0 <= i < |c| ensures end.services[i].handled == Fitting(c, Requests(end.received), i) {
      ServicesHandleWhatFits(c, end, i);
    }
    ServicesHandleWhatFits(c, end, 0);
  }
}
