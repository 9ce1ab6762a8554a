/** Services' side of a connector: the table of calls that are being run for the other side. */
module IpcServices {
  import opened Wrappers
  import opened IpcClient

  datatype Proc = PromiseProc | Subscription

  datatype Ending = Completes | Breaks(err: IpcError)

  /** What an exposed function does when it is called; an observable may emit while it is being subscribed. */
  datatype FnOut =
    | Throws(err: IpcError)
    | Nothing
    | GivesPromise
    | GivesObservable(early: seq<Body>, ended: Option<Ending>)

  datatype Settlement = Resolved(body: Body) | Rejected(err: IpcError)

  /** Running calls, and a log of messages given to the sink. */
  datatype Services = Services(procs: map<nat, Proc>, sent: seq<Reply>)

  function Sends(s: Services, replies: seq<Reply>): Services {
    s.(sent := s.sent + replies)
  }

  function Items(num: nat, bodies: seq<Body>): seq<Reply> {
    seq(|bodies|, i requires 0 <= i < |bodies| => Interim(num, bodies[i]))
  }

  function EndOf(num: nat, ended: Ending): Reply {
    match ended
    case Completes => End(num, "")
    case Breaks(err) => Error(num, err)
  }

  function Emitted(num: nat, bodies: seq<Body>, ended: Option<Ending>): seq<Reply> {
    Items(num, bodies) + if ended.None? then [] else [EndOf(num, ended.value)]
  }

  function AfterCallStart(s: Services, num: nat, out: FnOut): Services {
    if num in s.procs then Sends(s, [Error(num, DuplicateFnCallNum)]) else
    match out
    case Throws(err) => Sends(s, [Error(num, err)])
    case Nothing => s
    case GivesPromise => s.(procs := s.procs[num := PromiseProc])
    case GivesObservable(early, ended) =>
      Sends(s, Emitted(num, early, ended)).(procs := s.procs[num := Subscription])
  }

  function AfterSettlement(s: Services, num: nat, r: Settlement): Services {
    Sends(s, [if r.Resolved? then End(num, r.body) else Error(num, r.err)]).(procs := s.procs - {num})
  }

  function AfterItem(s: Services, num: nat, body: Body): Services {
    Sends(s, [Interim(num, body)])
  }

  function AfterEnding(s: Services, num: nat, ended: Ending): Services {
    Sends(s, [EndOf(num, ended)]).(procs := s.procs - {num})
  }

  /** The callback on cancelling is called before unsubscribing, and may still make an observable emit. */
  function AfterCancel(s: Services, num: nat, late: seq<Body>, ended: Option<Ending>): Services {
    if num !in s.procs then s
    else if s.procs[num].Subscription? then Sends(s, Emitted(num, late, ended)).(procs := s.procs - {num})
    else s.(procs := s.procs - {num})
  }

  class ServicesSideImpl {
    var fnCallProcs: map<nat, Proc>
    var sent: seq<Reply>

    ghost function State(): Services
      reads this
    {
      Services(fnCallProcs, sent)
    }

    constructor ()
      ensures State() == Services(map[], [])
    {
      fnCallProcs, sent := map[], [];
    }

    method SendMsg(msg: Reply)
      modifies `sent
      ensures sent == old(sent) + [msg]
    {
      sent := sent + [msg];
    }

    /** Emissions of an observable, as its observer passes them on. */
    method Observe(num: nat, bodies: seq<Body>, ended: Option<Ending>)
      modifies this
      ensures sent == old(sent) + Emitted(num, bodies, ended)
      ensures fnCallProcs == if ended.None? then old(fnCallProcs) else old(fnCallProcs) - {num}
    {
      for i := 0 to |bodies|
        invariant sent == old(sent) + Items(num, bodies)[..i] && fnCallProcs == old(fnCallProcs)
      {
        ProcessNext(num, bodies[i]);
      }
      assert Items(num, bodies)[..|bodies|] == Items(num, bodies);
      if ended.Some? {
        ProcessEnding(num, ended.value);
      }
    }

    method ProcessNext(num: nat, body: Body)
      modifies `sent
      ensures State() == AfterItem(old(State()), num, body)
      ensures sent == old(sent) + [Interim(num, body)]
    {
      SendMsg(Interim(num, body));
    }

    method ProcessEnding(num: nat, ended: Ending)
      modifies this
      ensures State() == AfterEnding(old(State()), num, ended)
      ensures sent == old(sent) + [if ended.Completes? then End(num, "") else Error(num, ended.err)]
      ensures num !in fnCallProcs
    {
      SendMsg(EndOf(num, ended));
      fnCallProcs := fnCallProcs - {num};
    }

    method ProcessSettlement(num: nat, r: Settlement)
      modifies this
      ensures State() == AfterSettlement(old(State()), num, r)
      ensures sent == old(sent) + [if r.Resolved? then End(num, r.body) else Error(num, r.err)]
      ensures num !in fnCallProcs
    {
      if r.Resolved? {
        SendMsg(End(num, r.body));
      } else {
        SendMsg(Error(num, r.err));
      }
      fnCallProcs := fnCallProcs - {num};
    }

    method ProcessCallStart(num: nat, out: FnOut)
      modifies this
      ensures State() == AfterCallStart(old(State()), num, out)
      ensures num in old(fnCallProcs) ==>
                sent == old(sent) + [Error(num, DuplicateFnCallNum)] && fnCallProcs == old(fnCallProcs)
      ensures num !in old(fnCallProcs) ==>
                && (num in fnCallProcs <==> out.GivesPromise? || out.GivesObservable?)
                && fnCallProcs - {num} == old(fnCallProcs)
                && (out.Throws? ==> sent == old(sent) + [Error(num, out.err)])
                && (out.Nothing? || out.GivesPromise? ==> sent == old(sent))
    {
      if num in fnCallProcs {
        SendMsg(Error(num, DuplicateFnCallNum));
        return;
      }
      match out
      case Throws(err) =>
        SendMsg(Error(num, err));
      case Nothing =>
      case GivesPromise =>
        fnCallProcs := fnCallProcs[num := PromiseProc];
      case GivesObservable(early, ended) =>
        Observe(num, early, ended);
        fnCallProcs := fnCallProcs[num := Subscription];
    }

    method ProcessCallCancelation(num: nat, late: seq<Body>, ended: Option<Ending>)
      modifies this
      ensures State() == AfterCancel(old(State()), num, late, ended)
      ensures fnCallProcs == old(fnCallProcs) - {num}
      ensures num !in old(fnCallProcs) || old(fnCallProcs)[num].PromiseProc? ==> sent == old(sent)
    {
      if num !in fnCallProcs {
        return;
      }
      if fnCallProcs[num].Subscription? {
        Observe(num, late, ended);
      }
      fnCallProcs := fnCallProcs - {num};
    }

    method Stop()
      modifies `fnCallProcs
      ensures State() == old(State()).(procs := map[])
    {
      fnCallProcs := map[];
    }
  }
}
