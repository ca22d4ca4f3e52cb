/** The queue a caller of the blocking queue would like to have: every call of push and of pop takes
    effect in one indivisible step somewhere between its invocation and its return. */
module AtomicFifo {
  type ThreadId = nat

  datatype Call<T> = Pushing(data: T) | Pushed | Popping | Popped(result: T)

  datatype State<T> = State(content: seq<T>, calls: map<ThreadId, Call<T>>)

  /** What a caller can see of a run. */
  datatype Event<T> =
    | PushInvoked(thread: ThreadId, data: T)
    | PushReturned(thread: ThreadId)
    | PopInvoked(thread: ThreadId)
    | PopReturned(thread: ThreadId, result: T)

  datatype Action<T> =
    | InvokePush(thread: ThreadId, data: T)
    | InvokePop(thread: ThreadId)
    | TakeEffect(thread: ThreadId)
    | Return(thread: ThreadId)

  function Init<T>(): State<T> { State([], map[]) }

  predicate Enabled<T>(s: State<T>, a: Action<T>) {
    match a
    case InvokePush(t, _) => t !in s.calls
    case InvokePop(t) => t !in s.calls
    case TakeEffect(t) => t in s.calls && (s.calls[t].Pushing? || (s.calls[t].Popping? && s.content != []))
    case Return(t) => t in s.calls && (s.calls[t].Pushed? || s.calls[t].Popped?)
  }

  function Next<T>(s: State<T>, a: Action<T>): State<T>
    requires Enabled(s, a)
  {
    match a
    case InvokePush(t, x) => s.(calls := s.calls[t := Pushing(x)])
    case InvokePop(t) => s.(calls := s.calls[t := Popping])
    case TakeEffect(t) =>
      if s.calls[t].Pushing?
      then State(s.content + [s.calls[t].data], s.calls[t := Pushed])
      else State(s.content[1..], s.calls[t := Popped(s.content[0])])
    case Return(t) => s.(calls := s.calls - {t})
  }

  function Seen<T>(s: State<T>, a: Action<T>): seq<Event<T>>
    requires Enabled(s, a)
  {
    match a
    case InvokePush(t, x) => [PushInvoked(t, x)]
    case InvokePop(t) => [PopInvoked(t)]
    case TakeEffect(_) => []
    case Return(t) => if s.calls[t].Pushed? then [PushReturned(t)] else [PopReturned(t, s.calls[t].result)]
  }

  predicate Legal<T>(s: State<T>, run: seq<Action<T>>)
    decreases |run|
  {
    run == [] || (Enabled(s, run[0]) && Legal(Next(s, run[0]), run[1..]))
  }

  function Final<T>(s: State<T>, run: seq<Action<T>>): State<T>
    requires Legal(s, run)
    decreases |run|
  {
    if run == [] then s else Final(Next(s, run[0]), run[1..])
  }

  function Trace<T>(s: State<T>, run: seq<Action<T>>): seq<Event<T>>
    requires Legal(s, run)
    decreases |run|
  {
    if run == [] then [] else Seen(s, run[0]) + Trace(Next(s, run[0]), run[1..])
  }
}

/** The queue as it is built: a std::queue, a mutex and a counting semaphore, used by any number of
    threads whose statements interleave freely. */
module BlockingQueue {
  import opened Wrappers
  import A = AtomicFifo

  type ThreadId = A.ThreadId

  /** The statement a thread inside push or pop has just finished. */
  datatype Pc<T> =
    | PushCalled(data: T)
    | PushLocked(data: T)
    | PushEnqueued
    | PushUnlocked
    | PopCalled
    | PopWaited
    | PopLocked
    | PopCopied(result: T)
    | PopRemoved(result: T)
    | PopUnlocked(result: T)

  datatype State<T> = State(
    canAccess: Option<ThreadId>,      // the mutex: its holder
    canConsume: nat,                  // the semaphore
    queue: seq<T>,
    threads: map<ThreadId, Pc<T>>,    // the threads inside a call
    enqueued: seq<T>,                 // every element queued so far, in order
    dequeued: seq<T>,                 // every element handed out so far, in order
    crashed: bool                     // front() or pop() ran on an empty std::queue
  )

  datatype Action<T> =
    | CallPush(thread: ThreadId, data: T)
    | CallPop(thread: ThreadId)
    | Advance(thread: ThreadId)       // the thread executes its next statement

  function Init<T>(): State<T> { State(None, 0, [], map[], [], [], false) }

  predicate CanAdvance<T>(s: State<T>, pc: Pc<T>) {
    match pc
    case PushCalled(_) => s.canAccess.None?
    case PopCalled => s.canConsume > 0
    case PopWaited => s.canAccess.None?
    case _ => true
  }

  predicate Enabled<T>(s: State<T>, a: Action<T>) {
    match a
    case CallPush(t, _) => t !in s.threads
    case CallPop(t) => t !in s.threads
    case Advance(t) => t in s.threads && CanAdvance(s, s.threads[t])
  }

  function Next<T>(s: State<T>, a: Action<T>): State<T>
    requires Enabled(s, a)
  {
    match a
    case CallPush(t, x) => s.(threads := s.threads[t := PushCalled(x)])
    case CallPop(t) => s.(threads := s.threads[t := PopCalled])
    case Advance(t) =>
      match s.threads[t]
      case PushCalled(x) => s.(canAccess := Some(t), threads := s.threads[t := PushLocked(x)])
      case PushLocked(x) =>
        s.(queue := s.queue + [x], enqueued := s.enqueued + [x], threads := s.threads[t := PushEnqueued])
      case PushEnqueued => s.(canAccess := None, threads := s.threads[t := PushUnlocked])
      case PushUnlocked => s.(canConsume := s.canConsume + 1, threads := s.threads - {t})
      case PopCalled => s.(canConsume := s.canConsume - 1, threads := s.threads[t := PopWaited])
      case PopWaited => s.(canAccess := Some(t), threads := s.threads[t := PopLocked])
      case PopLocked =>
        if s.queue == [] then s.(crashed := true)
        else s.(threads := s.threads[t := PopCopied(s.queue[0])])
      case PopCopied(x) =>
        if s.queue == [] then s.(crashed := true)
        else s.(queue := s.queue[1..], dequeued := s.dequeued + [x], threads := s.threads[t := PopRemoved(x)])
      case PopRemoved(x) => s.(canAccess := None, threads := s.threads[t := PopUnlocked(x)])
      case PopUnlocked(x) => s.(threads := s.threads - {t})
  }

  function Seen<T>(s: State<T>, a: Action<T>): seq<A.Event<T>>
    requires Enabled(s, a)
  {
    match a
    case CallPush(t, x) => [A.PushInvoked(t, x)]
    case CallPop(t) => [A.PopInvoked(t)]
    case Advance(t) =>
      match s.threads[t]
      case PushUnlocked => [A.PushReturned(t)]
      case PopUnlocked(x) => [A.PopReturned(t, x)]
      case _ => []
  }

  predicate Legal<T>(s: State<T>, run: seq<Action<T>>)
    decreases |run|
  {
    run == [] || (Enabled(s, run[0]) && Legal(Next(s, run[0]), run[1..]))
  }

  function Final<T>(s: State<T>, run: seq<Action<T>>): State<T>
    requires Legal(s, run)
    decreases |run|
  {
    if run == [] then s else Final(Next(s, run[0]), run[1..])
  }

  function Trace<T>(s: State<T>, run: seq<Action<T>>): seq<A.Event<T>>
    requires Legal(s, run)
    decreases |run|
  {
    if run == [] then [] else Seen(s, run[0]) + Trace(Next(s, run[0]), run[1..])
  }

  // ---- Invariants of every interleaving ----

  predicate Holds<T>(pc: Pc<T>) {
    pc.PushLocked? || pc.PushEnqueued? || pc.PopLocked? || pc.PopCopied? || pc.PopRemoved?
  }

  predicate OwesPost<T>(pc: Pc<T>) { pc.PushEnqueued? || pc.PushUnlocked? }

  predicate HasClaim<T>(pc: Pc<T>) { pc.PopWaited? || pc.PopLocked? || pc.PopCopied? }

  /** Pushers whose element is queued but whose sem_post has not run. */
  function Owing<T>(threads: map<ThreadId, Pc<T>>): set<ThreadId> {
    set t | t in threads && OwesPost(threads[t])
  }

  /** Poppers that passed sem_wait but have not removed their element. */
  function Claiming<T>(threads: map<ThreadId, Pc<T>>): set<ThreadId> {
    set t | t in threads && HasClaim(threads[t])
  }

  ghost predicate LockInv<T>(s: State<T>) {
    && (forall t <- s.threads :: Holds(s.threads[t]) ==> s.canAccess == Some(t))
    && (s.canAccess.Some? ==> s.canAccess.value in s.threads && Holds(s.threads[s.canAccess.value]))
  }

  ghost predicate CountInv<T>(s: State<T>) {
    |s.queue| == s.canConsume + |Owing(s.threads)| + |Claiming(s.threads)|
  }

  ghost predicate OrderInv<T>(s: State<T>) {
    && s.dequeued + s.queue == s.enqueued
    && (forall t <- s.threads :: s.threads[t].PopCopied? ==> s.queue != [] && s.queue[0] == s.threads[t].result)
    && !s.crashed
  }

  ghost predicate Inv<T>(s: State<T>) { LockInv(s) && CountInv(s) && OrderInv(s) }

  /** How a counted set changes when one thread moves to another statement, or returns. */
  lemma SizeAfterMove(members: set<ThreadId>, after: set<ThreadId>, t: ThreadId, joins: bool)
    requires after == members - {t} + (if joins then {t} else {})
    ensures |after| == |members| + (if joins then 1 else 0) - (if t in members then 1 else 0)
  {
    assert |members - {t}| == |members| - (if t in members then 1 else 0);
  }

  lemma OwingAfterMove<T>(threads: map<ThreadId, Pc<T>>, t: ThreadId, pc: Pc<T>)
    ensures Owing(threads[t := pc]) == Owing(threads) - {t} + (if OwesPost(pc) then {t} else {})
  {
  }

  lemma ClaimingAfterMove<T>(threads: map<ThreadId, Pc<T>>, t: ThreadId, pc: Pc<T>)
    ensures Claiming(threads[t := pc]) == Claiming(threads) - {t} + (if HasClaim(pc) then {t} else {})
  {
  }

  lemma CountsAfterMove<T>(threads: map<ThreadId, Pc<T>>, t: ThreadId, pc: Pc<T>)
    ensures |Owing(threads[t := pc])| ==
            |Owing(threads)| + (if OwesPost(pc) then 1 else 0) - (if t in Owing(threads) then 1 else 0)
    ensures |Claiming(threads[t := pc])| ==
            |Claiming(threads)| + (if HasClaim(pc) then 1 else 0) - (if t in Claiming(threads) then 1 else 0)
  {
    OwingAfterMove(threads, t, pc);
    SizeAfterMove(Owing(threads), Owing(threads[t := pc]), t, OwesPost(pc));
    ClaimingAfterMove(threads, t, pc);
    SizeAfterMove(Claiming(threads), Claiming(threads[t := pc]), t, HasClaim(pc));
  }

  lemma OwingAfterReturn<T>(threads: map<ThreadId, Pc<T>>, t: ThreadId)
    ensures Owing(threads - {t}) == Owing(threads) - {t}
  {
  }

  lemma ClaimingAfterReturn<T>(threads: map<ThreadId, Pc<T>>, t: ThreadId)
    ensures Claiming(threads - {t}) == Claiming(threads) - {t}
  {
  }

  lemma CountsAfterReturn<T>(threads: map<ThreadId, Pc<T>>, t: ThreadId)
    ensures |Owing(threads - {t})| == |Owing(threads)| - (if t in Owing(threads) then 1 else 0)
    ensures |Claiming(threads - {t})| == |Claiming(threads)| - (if t in Claiming(threads) then 1 else 0)
  {
    OwingAfterReturn(threads, t);
    SizeAfterMove(Owing(threads), Owing(threads) - {t}, t, false);
    ClaimingAfterReturn(threads, t);
    SizeAfterMove(Claiming(threads), Claiming(threads) - {t}, t, false);
  }

  /** A popper holding a claim always finds an element. */
  lemma ClaimMeansElement<T>(s: State<T>, t: ThreadId)
    requires CountInv(s) && t in s.threads && HasClaim(s.threads[t])
    ensures s.queue != []
  {
    assert t in Claiming(s.threads);
  }

  lemma LockStep<T>(s: State<T>, a: Action<T>)
    requires LockInv(s) && Enabled(s, a)
    ensures LockInv(Next(s, a))
  {
  }

  /** The statement of a thread leaves it at another statement, or outside, and the other threads alone. */
  lemma ThreadsStep<T>(s: State<T>, a: Action<T>)
    requires Enabled(s, a)
    ensures var t, threads := a.thread, Next(s, a).threads;
            threads == if t in threads then s.threads[t := threads[t]] else s.threads - {t}
  {
  }

  lemma CountStep<T>(s: State<T>, a: Action<T>)
    requires Inv(s) && Enabled(s, a)
    ensures CountInv(Next(s, a))
  {
    var t, s' := a.thread, Next(s, a);
    ThreadsStep(s, a);
    if a.Advance? && HasClaim(s.threads[t]) { ClaimMeansElement(s, t); }
    if t in s'.threads {
      CountsAfterMove(s.threads, t, s'.threads[t]);
    } else {
      CountsAfterReturn(s.threads, t);
    }
  }

  lemma OrderStep<T>(s: State<T>, a: Action<T>)
    requires Inv(s) && Enabled(s, a)
    ensures OrderInv(Next(s, a))
  {
    if a.Advance? && HasClaim(s.threads[a.thread]) { ClaimMeansElement(s, a.thread); }
  }

  lemma StepKeepsInv<T>(s: State<T>, a: Action<T>)
    requires Inv(s) && Enabled(s, a)
    ensures Inv(Next(s, a))
  {
    LockStep(s, a);
    CountStep(s, a);
    OrderStep(s, a);
  }

  /** Every interleaving of any number of pushers and poppers keeps the counting invariant, admits at most
      one lock holder, hands elements out in queueing order and never touches an empty std::queue. */
  lemma {:induction false} RunKeepsInv<T>(s: State<T>, run: seq<Action<T>>)
    requires Inv(s) && Legal(s, run)
    ensures Inv(Final(s, run))
    decreases |run|
  {
    if run == [] {
    } else {
      StepKeepsInv(s, run[0]);
      RunKeepsInv(Next(s, run[0]), run[1..]);
    }
  }

  lemma EveryInterleavingIsFifo<T>(run: seq<Action<T>>)
    requires Legal(Init<T>(), run)
    ensures var s := Final(Init<T>(), run);
            && s.dequeued + s.queue == s.enqueued
            && |s.queue| == s.canConsume + |Owing(s.threads)| + |Claiming(s.threads)|
            && (forall t, u :: t in s.threads && u in s.threads && Holds(s.threads[t]) && Holds(s.threads[u]) ==>
                  t == u)
            && !s.crashed
  {
    assert Inv(Init<T>());
    RunKeepsInv(Init<T>(), run);
  }

  // ---- No lost wake-up ----

  ghost predicate Stuck<T>(s: State<T>) {
    forall t <- s.threads :: !CanAdvance(s, s.threads[t])
  }

  lemma NobodyHoldsTheLock<T>(s: State<T>)
    requires LockInv(s) && Stuck(s)
    ensures s.canAccess.None?
  {
    assert s.canAccess.Some? ==> CanAdvance(s, s.threads[s.canAccess.value]);
  }

  lemma StuckMeansEmpty<T>(s: State<T>)
    requires Inv(s)
    ensures Stuck(s) <==> s.threads == map[] || (s.queue == [] && forall t <- s.threads :: s.threads[t].PopCalled?)
  {
    if Stuck(s) && s.threads != map[] {
      NobodyHoldsTheLock(s);
      forall t <- s.threads ensures s.threads[t].PopCalled? {
        assert !CanAdvance(s, s.threads[t]);
      }
      assert Owing(s.threads) == {} && Claiming(s.threads) == {};
      var t :| t in s.threads;
      assert !CanAdvance(s, s.threads[t]);
    }
  }

  /** The threads inside the queue can all be blocked only in one way: each is a popper in sem_wait, and
      then the queue really is empty. */
  lemma StuckOnlyWhenEmpty<T>(run: seq<Action<T>>)
    requires Legal(Init<T>(), run)
    ensures var s := Final(Init<T>(), run);
            && (Stuck(s) <==> s.threads == map[] || (s.queue == [] && forall t <- s.threads :: s.threads[t].PopCalled?))
            && (Owing(s.threads) == {} && Claiming(s.threads) == {} && s.queue != [] ==> s.canConsume > 0)
  {
    assert Inv(Init<T>());
    RunKeepsInv(Init<T>(), run);
    StuckMeansEmpty(Final(Init<T>(), run));
  }

  // ---- Every call returns, pops as long as elements last ----

  /** The statements a thread has still to execute. */
  function Remaining<T>(pc: Pc<T>): nat {
    match pc
    case PushCalled(_) => 4
    case PushLocked(_) => 3
    case PushEnqueued => 2
    case PushUnlocked => 1
    case PopCalled => 6
    case PopWaited => 5
    case PopLocked => 4
    case PopCopied(_) => 3
    case PopRemoved(_) => 2
    case PopUnlocked(_) => 1
  }

  /** The statements that all threads have still to execute, each with its thread and number. */
  function Pending<T>(threads: map<ThreadId, Pc<T>>): set<(ThreadId, nat)> {
    set t, k: nat | t in threads && k < Remaining(threads[t]) :: (t, k)
  }

  lemma OneLessPending<T>(threads: map<ThreadId, Pc<T>>, after: map<ThreadId, Pc<T>>, t: ThreadId, left: nat)
    requires t in threads && Remaining(threads[t]) == left + 1
    requires if t in after then after == threads[t := after[t]] && Remaining(after[t]) == left
             else after == threads - {t} && left == 0
    ensures Pending(after) == Pending(threads) - {(t, left)}
  {
  }

  lemma AdvanceIsProgress<T>(s: State<T>, t: ThreadId)
    requires Inv(s) && Enabled(s, Advance(t))
    ensures |Pending(Next(s, Advance(t)).threads)| == |Pending(s.threads)| - 1
  {
    var threads, left := Next(s, Advance(t)).threads, Remaining(s.threads[t]) - 1;
    if HasClaim(s.threads[t]) { ClaimMeansElement(s, t); }
    ThreadsStep(s, Advance(t));
    assert if t in threads then Remaining(threads[t]) == left else left == 0;
    OneLessPending(s.threads, threads, t, left);
    assert (t, left) in Pending(s.threads);
  }

  lemma {:induction false} RunIsProgress<T>(s: State<T>, run: seq<Action<T>>)
    requires Inv(s) && Legal(s, run) && forall i :: 0 <= i < |run| ==> run[i].Advance?
    ensures |run| + |Pending(Final(s, run).threads)| == |Pending(s.threads)|
    decreases |run|
  {
    if run == [] {
    } else {
      AdvanceIsProgress(s, run[0].thread);
      StepKeepsInv(s, run[0]);
      RunIsProgress(Next(s, run[0]), run[1..]);
    }
  }

  /** If nobody calls push or pop any more, exactly the statements that remain can be executed, and when no
      thread can go on every push has returned, and every pop too unless the queue is empty. */
  lemma CallsReturnWhileElementsLast<T>(run: seq<Action<T>>, rest: seq<Action<T>>)
    requires Legal(Init<T>(), run) && Legal(Final(Init<T>(), run), rest)
    requires forall i :: 0 <= i < |rest| ==> rest[i].Advance?
    ensures var s := Final(Init<T>(), run);
            var end := Final(s, rest);
            && |rest| + |Pending(end.threads)| == |Pending(s.threads)|
            && (Stuck(end) ==> (forall t <- end.threads :: end.threads[t].PopCalled?)
                               && (end.queue != [] ==> end.threads == map[]))
  {
    assert Inv(Init<T>());
    RunKeepsInv(Init<T>(), run);
    var s := Final(Init<T>(), run);
    RunIsProgress(s, rest);
    RunKeepsInv(s, rest);
    StuckMeansEmpty(Final(s, rest));
  }

  // ---- Refinement of the atomic queue ----

  function AbstractCall<T>(pc: Pc<T>): A.Call<T> {
    match pc
    case PushCalled(x) => A.Pushing(x)
    case PushLocked(x) => A.Pushing(x)
    case PushEnqueued => A.Pushed
    case PushUnlocked => A.Pushed
    case PopCalled => A.Popping
    case PopWaited => A.Popping
    case PopLocked => A.Popping
    case PopCopied(_) => A.Popping
    case PopRemoved(x) => A.Popped(x)
    case PopUnlocked(x) => A.Popped(x)
  }

  function AbstractCalls<T>(threads: map<ThreadId, Pc<T>>): map<ThreadId, A.Call<T>> {
    map t | t in threads :: AbstractCall(threads[t])
  }

  function Abstract<T>(s: State<T>): A.State<T> { A.State(s.queue, AbstractCalls(s.threads)) }

  lemma CallsAfterMove<T>(threads: map<ThreadId, Pc<T>>, t: ThreadId, pc: Pc<T>)
    ensures AbstractCalls(threads[t := pc]) == AbstractCalls(threads)[t := AbstractCall(pc)]
    ensures t in threads && AbstractCall(pc) == AbstractCall(threads[t]) ==>
              AbstractCalls(threads[t := pc]) == AbstractCalls(threads)
  {
  }

  lemma CallsAfterReturn<T>(threads: map<ThreadId, Pc<T>>, t: ThreadId)
    ensures AbstractCalls(threads - {t}) == AbstractCalls(threads) - {t}
  {
  }

  /** The atomic step, if any, that one statement amounts to. */
  function Linearized<T>(s: State<T>, a: Action<T>): seq<A.Action<T>>
    requires Enabled(s, a)
  {
    match a
    case CallPush(t, x) => [A.InvokePush(t, x)]
    case CallPop(t) => [A.InvokePop(t)]
    case Advance(t) =>
      match s.threads[t]
      case PushLocked(_) => [A.TakeEffect(t)]
      case PopCopied(_) => [A.TakeEffect(t)]
      case PushUnlocked => [A.Return(t)]
      case PopUnlocked(_) => [A.Return(t)]
      case _ => []
  }

  lemma StepRefines<T>(s: State<T>, a: Action<T>)
    requires Inv(s) && Enabled(s, a)
    ensures var l := Linearized(s, a);
            && (l == [] ==> Abstract(Next(s, a)) == Abstract(s) && Seen(s, a) == [])
            && (l != [] ==> A.Enabled(Abstract(s), l[0]) && A.Next(Abstract(s), l[0]) == Abstract(Next(s, a))
                            && A.Seen(Abstract(s), l[0]) == Seen(s, a))
  {
    var s' := Next(s, a);
    match a {
      case CallPush(t, x) => CallsAfterMove(s.threads, t, PushCalled(x));
      case CallPop(t) => CallsAfterMove(s.threads, t, PopCalled);
      case Advance(t) =>
        if HasClaim(s.threads[t]) { ClaimMeansElement(s, t); }
        if t in s'.threads {
          assert s'.threads == s.threads[t := s'.threads[t]];
          CallsAfterMove(s.threads, t, s'.threads[t]);
        } else {
          assert s'.threads == s.threads - {t};
          CallsAfterReturn(s.threads, t);
        }
    }
  }

  function Linearize<T>(s: State<T>, run: seq<Action<T>>): seq<A.Action<T>>
    requires Legal(s, run)
    decreases |run|
  {
    if run == [] then [] else Linearized(s, run[0]) + Linearize(Next(s, run[0]), run[1..])
  }

  lemma {:induction false} RunRefines<T>(s: State<T>, run: seq<Action<T>>)
    requires Inv(s) && Legal(s, run)
    ensures A.Legal(Abstract(s), Linearize(s, run))
    ensures A.Final(Abstract(s), Linearize(s, run)) == Abstract(Final(s, run))
    ensures A.Trace(Abstract(s), Linearize(s, run)) == Trace(s, run)
    decreases |run|
  {
    if run == [] {
    } else {
      var l, rest := Linearized(s, run[0]), Linearize(Next(s, run[0]), run[1..]);
      StepRefines(s, run[0]);
      StepKeepsInv(s, run[0]);
      RunRefines(Next(s, run[0]), run[1..]);
      if l == [] {
        assert l + rest == rest;
      } else {
        assert (l + rest)[0] == l[0] && (l + rest)[1..] == rest;
      }
    }
  }

  /** Linearizability: whatever callers see in an interleaved run, they could have seen in a run of the
      atomic queue that ends with the same content. */
  lemma EveryInterleavingIsAtomic<T>(run: seq<Action<T>>)
    requires Legal(Init<T>(), run)
    ensures exists atomic :: A.Legal(A.Init<T>(), atomic)
                             && A.Trace(A.Init<T>(), atomic) == Trace(Init<T>(), run)
                             && A.Final(A.Init<T>(), atomic).content == Final(Init<T>(), run).queue
  {
    assert Inv(Init<T>());
    assert Abstract(Init<T>()) == A.Init<T>();
    RunRefines(Init<T>(), run);
    var atomic := Linearize(Init<T>(), run);
    assert A.Legal(A.Init<T>(), atomic);
  }

  // ---- Calls that no other thread disturbs ----

  lemma Prepend<T>(s: State<T>, a: Action<T>, run: seq<Action<T>>, end: State<T>)
    requires Enabled(s, a) && Legal(Next(s, a), run) && Final(Next(s, a), run) == end
    ensures Legal(s, [a] + run) && Final(s, [a] + run) == end
  {
    assert ([a] + run)[1..] == run;
  }

  /** Undisturbed, the four statements of push append the element and release one permit. */
  lemma SoloPush<T>(s: State<T>, t: ThreadId, x: T)
    requires t !in s.threads && s.canAccess.None?
    ensures var run := [CallPush(t, x), Advance(t), Advance(t), Advance(t), Advance(t)];
            && Legal(s, run)
            && Final(s, run) == s.(queue := s.queue + [x], enqueued := s.enqueued + [x], canConsume := s.canConsume + 1)
  {
    var s1 := s.(threads := s.threads[t := PushCalled(x)]);
    var s2 := s1.(canAccess := Some(t), threads := s1.threads[t := PushLocked(x)]);
    var s3 := s2.(queue := s.queue + [x], enqueued := s.enqueued + [x], threads := s2.threads[t := PushEnqueued]);
    var s4 := s3.(canAccess := None, threads := s3.threads[t := PushUnlocked]);
    var s5 := s4.(canConsume := s.canConsume + 1, threads := s4.threads - {t});
    assert s5.threads == s.threads;
    var a := Advance(t);
    Prepend(s4, a, [], s5);
    Prepend(s3, a, [a], s5);
    Prepend(s2, a, [a, a], s5);
    Prepend(s1, a, [a, a, a], s5);
    Prepend(s, CallPush(t, x), [a, a, a, a], s5);
  }

  /** Undisturbed from the lock on. */
  lemma SoloPopLocked<T>(s: State<T>, t: ThreadId)
    requires t in s.threads && s.threads[t] == PopLocked && s.queue != []
    ensures var run := [Advance(t), Advance(t), Advance(t), Advance(t)];
            && Legal(s, run)
            && Final(s, run) == s.(queue := s.queue[1..], dequeued := s.dequeued + [s.queue[0]], canAccess := None,
                                   threads := s.threads - {t})
  {
    var x, a := s.queue[0], Advance(t);
    var s1 := s.(threads := s.threads[t := PopCopied(x)]);
    var s2 := s1.(queue := s.queue[1..], dequeued := s.dequeued + [x], threads := s1.threads[t := PopRemoved(x)]);
    var s3 := s2.(canAccess := None, threads := s2.threads[t := PopUnlocked(x)]);
    var end := s3.(threads := s3.threads - {t});
    assert end.threads == s.threads - {t};
    Prepend(s3, a, [], end);
    Prepend(s2, a, [a], end);
    Prepend(s1, a, [a, a], end);
    Prepend(s, a, [a, a, a], end);
  }

  /** Undisturbed, the statements of pop take the front element and one permit. */
  lemma SoloPop<T>(s: State<T>, t: ThreadId)
    requires t !in s.threads && s.canAccess.None? && s.canConsume > 0 && s.queue != []
    ensures var run := [CallPop(t), Advance(t), Advance(t), Advance(t), Advance(t), Advance(t), Advance(t)];
            && Legal(s, run)
            && Final(s, run) == s.(queue := s.queue[1..], dequeued := s.dequeued + [s.queue[0]],
                                   canConsume := s.canConsume - 1)
  {
    var x, a := s.queue[0], Advance(t);
    var s1 := s.(threads := s.threads[t := PopCalled]);
    var s2 := s1.(canConsume := s.canConsume - 1, threads := s1.threads[t := PopWaited]);
    var s3 := s2.(canAccess := Some(t), threads := s2.threads[t := PopLocked]);
    var end := s.(queue := s.queue[1..], dequeued := s.dequeued + [x], canConsume := s.canConsume - 1);
    SoloPopLocked(s3, t);
    assert s3.threads - {t} == s.threads;
    Prepend(s2, a, [a, a, a, a], end);
    Prepend(s1, a, [a, a, a, a, a], end);
    Prepend(s, CallPop(t), [a, a, a, a, a, a], end);
  }

  /** The queue as one undisturbed thread sees it. */
  class Queue<T> {
    var canAccess: bool      // the mutex is held
    var canConsume: nat      // the semaphore
    var queue: seq<T>

    ghost predicate Valid()
      reads this
    {
      !canAccess && canConsume == |queue|
    }

    constructor ()
      ensures Valid() && queue == []
    {
      canAccess, canConsume, queue := false, 0, [];
    }

    method Push(data: T)
      requires Valid()
      modifies this
      ensures Valid() && queue == old(queue) + [data]
    {
      canAccess := true;
      queue := queue + [data];
      canAccess := false;
      canConsume := canConsume + 1;
    }

    /** Blocks on an empty queue, so a call that returns has found an element. */
    method Pop() returns (resultData: T)
      requires Valid() && queue != []
      modifies this
      ensures Valid() && resultData == old(queue[0]) && queue == old(queue[1..])
    {
      canConsume := canConsume - 1;
      canAccess := true;
      resultData := queue[0];
      queue := queue[1..];
      canAccess := false;
    }
  }
}
