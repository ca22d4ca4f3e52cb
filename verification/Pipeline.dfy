/** The server as a state machine: one web application, one handler per stage, any number of services.
    A step is what one thread does between two queue operations. */
module Pipeline {
  import opened Wrappers
  import opened Messages
  import R = WebServiceResolver

  /** An accepted connection, by number. */
  type Connection = nat

  /** A parsed request: what createRequest makes of the bytes read from a connection. */
  datatype Request = Request(socket: Connection, data: string)

  type Response = string

  /** The services, each known by its canHandle. */
  type Services = seq<Request -> bool>

  /** A message on the responses queue with its producer: service number, or |services| for the
      application handler. The producer is not visible to the server. */
  datatype Outgoing = Outgoing(from: nat, message: Message<Response>)

  datatype StopperPc = NotCalled | Flagged | DecoySent | StopReturned

  datatype ListenerPc =
    | Accepting
    | Obtained(message: Message<Connection>)    // obtain() returned; the flag is to be read
    | Reporting                                 // an accept error is to be pushed
    | Reported                                  // it was; the flag is to be read again
    | Delivering(message: Message<Connection>)  // to be pushed
    | ListenerEnding
    | ListenerDone

  datatype RequestPc =
    | RequestWaiting
    | Reading(socket: Connection)
    | Forwarding(request: Request)
    | RequestEnding      // in optionalToEnd
    | RequestDone        // returned after a Stop
    | RequestFailed      // returned after an Error: nothing was forwarded

  datatype AppPc =
    | AppWaiting
    | Dispatching(request: Request)
    | StoppingService(service: nat)   // optionalToEnd, before the loop round of this service
    | JoiningService(service: nat)
    | AppDone

  datatype ServicePc =
    | ServiceWaiting
    | Working(request: Request)
    | Replying(message: Message<Response>)
    | ServiceEnding
    | ServiceDone

  datatype ResponsePc = ResponseWaiting | Writing(response: Response) | ResponseDone

  datatype Service = Service(
    entry: Fifo<Message<Request>>,
    pc: ServicePc,
    handled: seq<Request>,               // requests given to handleTask
    replies: seq<Message<Response>>      // what handleTask returned, where it returned something
  )

  datatype State = State(
    stopThread: bool,
    stopper: StopperPc,
    backlog: seq<Connection>,            // connections the listening socket has not handed out
    listener: ListenerPc,
    connections: Fifo<Message<Connection>>,
    request: RequestPc,
    received: seq<(Connection, string)>,  // what the request handler read, from which connection
    requests: Fifo<Message<Request>>,
    app: AppPc,
    dispatched: seq<Request>,
    services: seq<Service>,
    responses: Fifo<Outgoing>,
    response: ResponsePc,
    written: seq<Response>,
    joined: nat                          // threads the main thread has joined
  )

  datatype Action =
    | Connect(connection: Connection)    // the environment
    | AcceptFails
    | CallStop | SendDecoy(connection: Connection) | PushStop
    | Accept | ReadFlag | PushError | Deliver | EndListen
    | RequestPop | Read(data: string) | Forward | RequestEnd
    | AppPop | Dispatch | StopService | JoinService | AppEnd
    | ServicePop(service: nat) | Work(service: nat, result: Option<Message<Response>>)
    | Reply(service: nat) | ServiceEnd(service: nat)
    | ResponsePop | Write
    | Join

  function Init(k: nat): State {
    State(false, NotCalled, [], Accepting, Fifo([], 0), RequestWaiting, [], Fifo([], 0), AppWaiting, [],
          seq(k, i => Service(Fifo([], 0), ServiceWaiting, [], [])), Fifo([], 0), ResponseWaiting, [], 0)
  }

  /** A read that holds nothing but zero bytes is dropped. */
  predicate Blank(data: string) { forall i :: 0 <= i < |data| ==> data[i] == '\0' }

  /** The thread that the main thread joins next has returned. */
  predicate CanJoin(s: State) {
    match s.joined
    case 0 => s.listener.ListenerDone?
    case 1 => s.request.RequestDone? || s.request.RequestFailed?
    case 2 => s.app.AppDone?
    case 3 => s.response.ResponseDone?
    case _ => false
  }

  predicate Enabled(s: State, a: Action) {
    match a
    case Connect(_) => true
    case AcceptFails => s.listener.Accepting?
    case CallStop => s.stopper.NotCalled?
    case SendDecoy(_) => s.stopper.Flagged?
    case PushStop => s.stopper.DecoySent?
    case Accept => s.listener.Accepting? && s.backlog != []
    case ReadFlag => s.listener.Obtained? || s.listener.Reported?
    case PushError => s.listener.Reporting?
    case Deliver => s.listener.Delivering?
    case EndListen => s.listener.ListenerEnding?
    case RequestPop => s.request.RequestWaiting? && s.connections.HasItem()
    case Read(_) => s.request.Reading?
    case Forward => s.request.Forwarding?
    case RequestEnd => s.request.RequestEnding?
    case AppPop => s.app.AppWaiting? && s.requests.HasItem()
    case Dispatch => s.app.Dispatching? && s.services != []
    case StopService => s.app.StoppingService? && s.app.service < |s.services|
    case JoinService =>
      s.app.JoiningService? && s.app.service < |s.services| && s.services[s.app.service].pc.ServiceDone?
    case AppEnd => s.app.StoppingService? && s.app.service >= |s.services|
    case ServicePop(i) => i < |s.services| && s.services[i].pc.ServiceWaiting? && s.services[i].entry.HasItem()
    case Work(i, _) => i < |s.services| && s.services[i].pc.Working?
    case Reply(i) => i < |s.services| && s.services[i].pc.Replying?
    case ServiceEnd(i) => i < |s.services| && s.services[i].pc.ServiceEnding?
    case ResponsePop => s.response.ResponseWaiting? && s.responses.HasItem()
    case Write => s.response.Writing?
    case Join => CanJoin(s)
  }

  function Next(c: Services, s: State, a: Action): (s': State)
    requires |s.services| == |c| && Enabled(s, a)
    ensures |s'.services| == |c|
  {
    match a
    case Connect(x) => s.(backlog := s.backlog + [x])
    case AcceptFails => s.(listener := Obtained(Error))
    case CallStop => s.(stopThread := true, stopper := Flagged)
    case SendDecoy(x) => s.(backlog := s.backlog + [x], stopper := DecoySent)
    case PushStop => s.(connections := s.connections.Push(Stop), stopper := StopReturned)
    case Accept => s.(backlog := s.backlog[1..], listener := Obtained(Content(s.backlog[0])))
    case ReadFlag =>
      s.(listener :=
         if s.stopThread then ListenerEnding
         else if s.listener.Reported? then Delivering(Error)
         else if s.listener.message.Error? then Reporting
         else Delivering(s.listener.message))
    case PushError => s.(connections := s.connections.Push(Error), listener := Reported)
    case Deliver => s.(connections := s.connections.Push(s.listener.message), listener := Accepting)
    case EndListen => s.(connections := s.connections.Push(Stop), listener := ListenerDone)
    case RequestPop =>
      s.(connections := s.connections.Pop(),
         request := match s.connections.Front()
                    case Content(x) => Reading(x)
                    case Stop => RequestEnding
                    case Error => RequestFailed)
    case Read(data) =>
      s.(received := s.received + [(s.request.socket, data)],
         request := if Blank(data) then RequestWaiting else Forwarding(Request(s.request.socket, data)))
    case Forward => s.(requests := s.requests.Push(Content(s.request.request)), request := RequestWaiting)
    case RequestEnd => s.(requests := s.requests.Push(Stop), request := RequestDone)
    case AppPop =>
      s.(requests := s.requests.Pop(),
         app := match s.requests.Front()
                case Content(r) => Dispatching(r)
                case Stop => StoppingService(0)
                case Error => AppDone)
    case Dispatch =>
      var i := R.Resolve(c, s.app.request).value;
      R.ResolvePicksFirstElseZero(c, s.app.request);
      var sv := s.services[i];
      s.(services := s.services[i := sv.(entry := sv.entry.Push(Content(s.app.request)))],
         dispatched := s.dispatched + [s.app.request], app := AppWaiting)
    case StopService =>
      var sv := s.services[s.app.service];
      s.(services := s.services[s.app.service := sv.(entry := sv.entry.Push(Stop))],
         app := JoiningService(s.app.service))
    case JoinService => s.(app := StoppingService(s.app.service + 1))
    case AppEnd => s.(responses := s.responses.Push(Outgoing(|s.services|, Stop)), app := AppDone)
    case ServicePop(i) =>
      var sv := s.services[i];
      var pc := match sv.entry.Front()
                case Content(r) => Working(r)
                case Stop => ServiceEnding
                case Error => ServiceDone;
      s.(services := s.services[i := sv.(entry := sv.entry.Pop(), pc := pc)])
    case Work(i, result) =>
      var sv := s.services[i];
      var sv' := if result.None? then sv.(pc := ServiceWaiting)
                 else sv.(pc := Replying(result.value), replies := sv.replies + [result.value]);
      s.(services := s.services[i := sv'.(handled := sv.handled + [sv.pc.request])])
    case Reply(i) =>
      var sv := s.services[i];
      s.(services := s.services[i := sv.(pc := ServiceWaiting)],
         responses := s.responses.Push(Outgoing(i, sv.pc.message)))
    case ServiceEnd(i) =>
      s.(services := s.services[i := s.services[i].(pc := ServiceDone)],
         responses := s.responses.Push(Outgoing(i, Stop)))
    case ResponsePop =>
      s.(responses := s.responses.Pop(),
         response := match s.responses.Front().message
                     case Content(p) => Writing(p)
                     case Stop => ResponseDone
                     case Error => ResponseDone)
    case Write => s.(written := s.written + [s.response.response], response := ResponseWaiting)
    case Join => s.(joined := s.joined + 1)
  }

  /** A run from a state: the actions can be taken one after the other. */
  ghost predicate Legal(c: Services, s: State, run: seq<Action>)
    requires |s.services| == |c|
    decreases |run|
  {
    run == [] || (Enabled(s, run[0]) && Legal(c, Next(c, s, run[0]), run[1..]))
  }

  ghost function Final(c: Services, s: State, run: seq<Action>): (s': State)
    requires |s.services| == |c| && Legal(c, s, run)
    ensures |s'.services| == |c|
    decreases |run|
  {
    if run == [] then s else Final(c, Next(c, s, run[0]), run[1..])
  }

  ghost predicate Reachable(c: Services, s: State) {
    exists run :: Legal(c, Init(|c|), run) && Final(c, Init(|c|), run) == s
  }

  lemma InitIsReachable(c: Services)
    ensures Reachable(c, Init(|c|))
  {
    assert Legal(c, Init(|c|), []) && Final(c, Init(|c|), []) == Init(|c|);
  }

  lemma {:induction false} LegalAppend(c: Services, s: State, run: seq<Action>, a: Action)
    requires |s.services| == |c| && Legal(c, s, run) && Enabled(Final(c, s, run), a)
    ensures Legal(c, s, run + [a]) && Final(c, s, run + [a]) == Next(c, Final(c, s, run), a)
    decreases |run|
  {
    if run == [] {
      assert (run + [a])[1..] == [];
    } else {
      LegalAppend(c, Next(c, s, run[0]), run[1..], a);
      assert (run + [a])[1..] == run[1..] + [a];
    }
  }

  lemma ReachableStep(c: Services, s: State, a: Action)
    requires |s.services| == |c| && Reachable(c, s) && Enabled(s, a)
    ensures Reachable(c, Next(c, s, a))
  {
    var run :| Legal(c, Init(|c|), run) && Final(c, Init(|c|), run) == s;
    LegalAppend(c, Init(|c|), run, a);
  }

  lemma {:induction false} ReachableRun(c: Services, s: State, run: seq<Action>)
    requires |s.services| == |c| && Reachable(c, s) && Legal(c, s, run)
    ensures Reachable(c, Final(c, s, run))
    decreases |run|
  {
    if run == [] {
    } else {
      ReachableStep(c, s, run[0]);
      ReachableRun(c, Next(c, s, run[0]), run[1..]);
    }
  }
}
