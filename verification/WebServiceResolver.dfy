/** Which service a request goes to. */
module WebServiceResolver {
  import opened Wrappers

  /** The first service from position i on that can handle the request. */
  function FirstFit<R>(services: seq<R -> bool>, request: R, i: nat): Option<nat>
    requires i <= |services|
    decreases |services| - i
  {
    if i == |services| then None
    else if services[i](request) then Some(i)
    else FirstFit(services, request, i + 1)
  }

  function Resolve<R>(services: seq<R -> bool>, request: R): Option<nat> {
    if services == [] then None
    else if FirstFit(services, request, 0).Some? then FirstFit(services, request, 0)
    else Some(0)
  }

  lemma {:induction false} FirstFitIsFirst<R>(services: seq<R -> bool>, request: R, i: nat)
    requires i <= |services|
    ensures match FirstFit(services, request, i)
            case None => forall j :: i <= j < |services| ==> !services[j](request)
            case Some(f) => i <= f < |services| && services[f](request)
                            && forall j :: i <= j < f ==> !services[j](request)
    decreases |services| - i
  {
    if i == |services| || services[i](request) {
    } else {
      FirstFitIsFirst(services, request, i + 1);
    }
  }

  /** No service at all gives null; otherwise the first that can handle the request, or else service 0. */
  lemma ResolvePicksFirstElseZero<R>(services: seq<R -> bool>, request: R)
    ensures match Resolve(services, request)
            case None => services == []
            case Some(f) =>
              && f < |services|
              && (services[f](request) || f == 0)
              && (forall j :: 0 <= j < f ==> !services[j](request))
              && ((exists j :: 0 <= j < |services| && services[j](request)) ==> services[f](request))
  {
    FirstFitIsFirst(services, request, 0);
  }
}
