/** What the actions of a run bring in, the bytes that are read and the results of the tasks, is what the server
    works with: from there to the responses queue and to what is written. */
module PipelineReplies {
  import opened Wrappers
  import opened Sequences
  import opened Messages
  import opened Pipeline
  import opened PipelineInvariants
  import opened PipelineResults

  /** The bytes that a step reads. */
  function ReadNow(a: Action): seq<string> {
    match a
    case Read(data) => [data]
    case _ => []
  }

  function ReadIn(run: seq<Action>): seq<string> {
    if run == [] then [] else ReadNow(run[0]) + ReadIn(run[1..])
  }

  /** What a task of service i returns in a step. */
  function ReturnedNow(a: Action, i: nat): seq<Message<Response>> {
    match a
    case Work(j, Some(m)) => if j == i then [m] else []
    case _ => []
  }

  function Returned(run: seq<Action>, i: nat): seq<Message<Response>> {
    if run == [] then [] else ReturnedNow(run[0], i) + Returned(run[1..], i)
  }

  /** How often service i calls its task. */
  function Calls(run: seq<Action>, i: nat): nat {
    if run == [] then 0
    else (if run[0].Work? && run[0].service == i then 1 else 0) + Calls(run[1..], i)
  }

  function DataOf(received: seq<(Connection, string)>): seq<string> {
    seq(|received|, k requires 0 <= k < |received| => received[k].1)
  }

  ghost predicate Recorded(s: State, i: nat, data: seq<string>, returned: seq<Message<Response>>, calls: nat)
    requires i < |s.services|
  {
    DataOf(s.received) == data && s.services[i].replies == returned && |s.services[i].handled| == calls
  }

  lemma RecordedStep(c: Services, s: State, a: Action, i: nat, data: seq<string>, returned: seq<Message<Response>>,
                     calls: nat)
    requires i < |s.services| == |c| && Enabled(s, a) && Recorded(s, i, data, returned, calls)
    ensures Recorded(Next(c, s, a), i, data + ReadNow(a), returned + ReturnedNow(a, i),
                     calls + if a.Work? && a.service == i then 1 else 0)
  {
    ServiceFieldsStep(c, s, a, i);
    ConnectionsStep(c, s, a);
    WithNothing(returned);
    WithNothing(data);
  }

  lemma FirstRecorded(run: seq<Action>, i: nat, data: seq<string>, returned: seq<Message<Response>>)
    requires run != []
    ensures (data + ReadNow(run[0])) + ReadIn(run[1..]) == data + ReadIn(run)
    ensures (returned + ReturnedNow(run[0], i)) + Returned(run[1..], i) == returned + Returned(run, i)
  {
    Regroup(data, ReadNow(run[0]), ReadIn(run[1..]));
    Regroup(returned, ReturnedNow(run[0], i), Returned(run[1..], i));
  }

  lemma {:induction false} RecordedAfterRun(c: Services, s: State, run: seq<Action>, i: nat, data: seq<string>,
                                            returned: seq<Message<Response>>, calls: nat)
    requires i < |s.services| == |c| && Legal(c, s, run) && Recorded(s, i, data, returned, calls)
    ensures Recorded(Final(c, s, run), i, data + ReadIn(run), returned + Returned(run, i), calls + Calls(run, i))
    decreases |run|
  {
    if run == [] {
      WithNothing(data);
      WithNothing(returned);
    } else {
      RecordedStep(c, s, run[0], i, data, returned, calls);
      FirstRecorded(run, i, data, returned);
      RecordedAfterRun(c, Next(c, s, run[0]), run[1..], i, data + ReadNow(run[0]), returned + ReturnedNow(run[0], i),
                       calls + if run[0].Work? && run[0].service == i then 1 else 0);
    }
  }

  lemma RecordedAtInit(k: nat, i: nat)
    requires i < k
    ensures Recorded(Init(k), i, [], [], 0)
  {
  }

  lemma RecordedFromInit(c: Services, run: seq<Action>, i: nat)
    requires i < |c| && Legal(c, Init(|c|), run)
    ensures Recorded(Final(c, Init(|c|), run), i, ReadIn(run), Returned(run, i), Calls(run, i))
  {
    RecordedAtInit(|c|, i);
    RecordedAfterRun(c, Init(|c|), run, i, [], [], 0);
    WithNothing(ReadIn(run));
    WithNothing(Returned(run, i));
  }

  lemma FinalIsReachable(c: Services, run: seq<Action>)
    requires Legal(c, Init(|c|), run)
    ensures Reachable(c, Final(c, Init(|c|), run))
  {
  }

  lemma WhatWasSent(sent: seq<Message<Response>>, sv: Service)
    requires Sends(sent, sv)
    ensures sent + (match sv.pc case Replying(m) => [m] case _ => [])
         == sv.replies + (if sv.pc.ServiceDone? then [Stop] else [])
  {
    WithNothing(sent);
    WithNothing(sv.replies);
  }

  /** In every run: the bytes received are those read, in order; a service has handled a request for every call of
      its task; and its share of the responses queue, with the reply in its hand, is what its task has returned, in
      order, and one Stop once it has ended. */
  lemma EveryReplyIsQueued(c: Services, run: seq<Action>, i: nat)
    requires i < |c| && Legal(c, Init(|c|), run)
    ensures var s := Final(c, Init(|c|), run);
            var pc := s.services[i].pc;
            && DataOf(s.received) == ReadIn(run)
            && |s.services[i].handled| == Calls(run, i)
            && From(s.responses.log, i) + (match pc case Replying(m) => [m] case _ => [])
               == Returned(run, i) + (if pc.ServiceDone? then [Stop] else [])
  {
    var s := Final(c, Init(|c|), run);
    RecordedFromInit(c, run, i);
    FinalIsReachable(c, run);
    ReachableInv(c, s);
    assert ProducerInv(s, i);
    WhatWasSent(From(s.responses.log, i), s.services[i]);
  }

  /** When the main thread has joined everything, the responses queue has carried what the tasks returned, each
      service's replies in order and then its Stop, and the application handler's Stop, and nothing else. */
  lemma ReturnedServerQueuedEveryReply(c: Services, run: seq<Action>)
    requires c != [] && Legal(c, Init(|c|), run) && Final(c, Init(|c|), run).joined == 4
    ensures var log := Final(c, Init(|c|), run).responses.log;
            && (forall i :: 0 <= i < |c| ==> From(log, i) == Returned(run, i) + [Stop])
            && From(log, |c|) == [Stop]
            && forall j :: 0 <= j < |log| ==> log[j].from <= |c|
  {
    var s := Final(c, Init(|c|), run);
    FinalIsReachable(c, run);
    ReachableInv(c, s);
    ReturnedMeansAllDone(c, s);
    forall i | 0 <= i < |c| ensures From(s.responses.log, i) == Returned(run, i) + [Stop] {
      EveryReplyIsQueued(c, run, i);
      WithNothing(From(s.responses.log, i));
    }
  }

  // ---- What is written ----

  /** Tasks return responses or nothing. */
  predicate OnlyResponses(run: seq<Action>) {
    forall k :: 0 <= k < |run| && run[k].Work? && run[k].result.Some? ==> run[k].result.value.Content?
  }

  /** The response that service i gives in a step. */
  function ResponseNow(a: Action, i: nat): seq<Response> {
    match a
    case Work(j, Some(Content(x))) => if j == i then [x] else []
    case _ => []
  }

  function ResponsesIn(run: seq<Action>, i: nat): seq<Response> {
    if run == [] then [] else ResponseNow(run[0], i) + ResponsesIn(run[1..], i)
  }

  lemma ReturnedNowIsResponse(a: Action, i: nat)
    requires a.Work? && a.result.Some? ==> a.result.value.Content?
    ensures AllContent(ReturnedNow(a, i)) && Payloads(ReturnedNow(a, i)) == ResponseNow(a, i)
  {
    match a
    case Work(_, Some(Content(x))) => PayloadsOfOne(x);
    case _ =>
  }

  lemma BothContent<T>(a: seq<Message<T>>, b: seq<Message<T>>)
    requires AllContent(a) && AllContent(b)
    ensures AllContent(a + b)
  {
  }

  lemma LaterOnlyResponses(run: seq<Action>)
    requires OnlyResponses(run) && run != []
    ensures OnlyResponses(run[1..])
  {
    assert forall k :: 0 <= k < |run| - 1 ==> run[1..][k] == run[k + 1];
  }

  lemma {:induction false} ReturnedResponses(run: seq<Action>, i: nat)
    requires OnlyResponses(run)
    ensures AllContent(Returned(run, i)) && Payloads(Returned(run, i)) == ResponsesIn(run, i)
    decreases |run|
  {
    if run == [] {
    } else {
      LaterOnlyResponses(run);
      ReturnedResponses(run[1..], i);
      ReturnedNowIsResponse(run[0], i);
      PayloadsOfConcat(ReturnedNow(run[0], i), Returned(run[1..], i));
      BothContent(ReturnedNow(run[0], i), Returned(run[1..], i));
    }
  }

  lemma RepliesAreResponses(c: Services, run: seq<Action>)
    requires Legal(c, Init(|c|), run) && OnlyResponses(run)
    ensures NoErrorReplies(Final(c, Init(|c|), run))
  {
    var s := Final(c, Init(|c|), run);
    forall i | 0 <= i < |c| ensures AllContent(s.services[i].replies) {
      RecordedFromInit(c, run, i);
      ReturnedResponses(run, i);
    }
  }

  /** If tasks return responses or nothing and everything has been joined, what was written is what the responses
      queue carried before the Stop of the first service, which is behind all that its task returned; a server with
      one service has written exactly what its task returned, in order. */
  lemma FirstServiceIsAnswered(c: Services, run: seq<Action>)
    requires c != [] && Legal(c, Init(|c|), run) && Final(c, Init(|c|), run).joined == 4 && OnlyResponses(run)
    ensures var s := Final(c, Init(|c|), run);
            && (exists n :: 0 <= n < |s.responses.log| && s.responses.log[n] == Outgoing(0, Stop)
                            && s.written == Payloads(Bare(s.responses.log[..n]))
                            && Payloads(From(s.responses.log[..n], 0)) == ResponsesIn(run, 0))
            && (|c| == 1 ==> s.written == ResponsesIn(run, 0))
  {
    var s := Final(c, Init(|c|), run);
    FinalIsReachable(c, run);
    RepliesAreResponses(c, run);
    NoResponseOfFirstServiceIsLost(c, s);
    RecordedFromInit(c, run, 0);
    ReturnedResponses(run, 0);
  }
}
