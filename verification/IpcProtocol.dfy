/** Calls from one side of a connection to functions of the other side, over two in-order channels. */
module IpcProtocol {
  import opened Wrappers
  import opened IpcClient
  import opened IpcServices

  /** Where a call with some number is. */
  datatype Place = Starting | Running(source: Proc) | Finished | Unanswered | Dropped

  /**
    Channels are logs of sent messages, of which the other side processed the first taken and seen ones.
    History: calls by their numbers, places of calls, invocations of functions, and the number of replies
    that were processed before clients' side stopped.
  */
  datatype System = System(
    client: Client,
    services: Services,
    taken: nat,
    seen: nat,
    servicesUp: bool,
    made: map<nat, FnCall>,
    place: map<nat, Place>,
    invoked: seq<(nat, Call)>,
    heard: nat)

  datatype Action =
    | StartCall(kind: Kind, call: Call)
    | CancelCall(num: nat)
    | TakeRequest(out: FnOut, late: seq<Body>, lateEnd: Option<Ending>)
    | Settles(num: nat, r: Settlement)
    | Emits(num: nat, body: Body)
    | Ends(num: nat, ended: Ending)
    | SeeReply
    | StopClient(order: seq<nat>)
    | StopServices

  const START := System(Client(map[], 1, false, [], []), Services(map[], []), 0, 0, true, map[], map[], [], 0)

  ghost function StartStep(s: System, kind: Kind, call: Call): System {
    if s.client.counter >= MAX_SAFE_INTEGER || !CanNumber(s.client) then s else
    var num := s.client.counter;
    var client := if kind.Promise? then AfterStartPromise(s.client, num, call, true)
                  else AfterStartObservable(s.client, num, call, true);
    if s.client.stopped then s.(client := client)
    else s.(client := client, made := s.made[num := FnCall(num, kind, call, 0)], place := s.place[num := Starting])
  }

  /** A function to cancel is given only for observable calls, it can be called any number of times. */
  function CancelStep(s: System, num: nat): System {
    if num in s.made && s.made[num].kind.Observable? && !s.client.stopped then
      s.(client := With(s.client, [Cancel(num)], []))
    else s
  }

  predicate IsDuplicateError(ended: Ending) {
    ended == Breaks(DuplicateFnCallNum)
  }

  /** Functions do not end observables while these are being subscribed, and do not fail with connector's own error. */
  predicate Expected(a: Action) {
    match a
    case TakeRequest(out, _, lateEnd) =>
      && (out.GivesObservable? ==> out.ended.None?)
      && out != Throws(DuplicateFnCallNum)
      && (lateEnd.Some? ==> !IsDuplicateError(lateEnd.value))
    case Settles(_, r) => r != Rejected(DuplicateFnCallNum)
    case Ends(_, ended) => !IsDuplicateError(ended)
    case _ => true
  }

  function PlaceAfterStart(out: FnOut): Place {
    match out
    case Throws(_) => Finished
    case Nothing => Unanswered
    case GivesPromise => Running(PromiseProc)
    case GivesObservable(_, _) => Running(Subscription)
  }

  function TakeStep(s: System, out: FnOut, late: seq<Body>, lateEnd: Option<Ending>): System {
    if !s.servicesUp || s.taken >= |s.client.sent| then s else
    var s1 := s.(taken := s.taken + 1);
    match s.client.sent[s.taken]
    case Start(num, call) =>
      var s2 := s1.(services := AfterCallStart(s.services, num, out));
      if num in s.services.procs then s2
      else s2.(place := s.place[num := PlaceAfterStart(out)], invoked := s.invoked + [(num, call)])
    case Cancel(num) =>
      var s2 := s1.(services := AfterCancel(s.services, num, late, lateEnd));
      if num in s.services.procs && s.services.procs[num].Subscription?
      then s2.(place := s.place[num := if lateEnd.Some? then Finished else Dropped])
      else s2
  }

  predicate IsRunning(s: System, num: nat, source: Proc) {
    s.servicesUp && num in s.place && s.place[num] == Running(source)
  }

  function SettleStep(s: System, num: nat, r: Settlement): System {
    if !IsRunning(s, num, PromiseProc) then s
    else s.(services := AfterSettlement(s.services, num, r), place := s.place[num := Finished])
  }

  function EmitStep(s: System, num: nat, body: Body): System {
    if !IsRunning(s, num, Subscription) then s else s.(services := AfterItem(s.services, num, body))
  }

  function EndStep(s: System, num: nat, ended: Ending): System {
    if !IsRunning(s, num, Subscription) then s
    else s.(services := AfterEnding(s.services, num, ended), place := s.place[num := Finished])
  }

  ghost function StopClientStep(s: System, order: seq<nat>): System {
    if OrderOf(order, s.client.calls.Keys) then s.(client := AfterStop(s.client, order)) else s
  }

  ghost function SeeStep(s: System): System {
    if s.seen >= |s.services.sent| then s else
    var reply := s.services.sent[s.seen];
    if !CanNumber(s.client.(calls := Without(s.client.calls, reply.num))) then s else
    var client :=
      match reply
      case Interim(num, body) => AfterInterim(s.client, num, body)
      case End(num, body) => AfterEnd(s.client, num, body)
      case Error(num, err) => AfterError(s.client, num, err, true);
    s.(client := client, seen := s.seen + 1, heard := if s.client.stopped then s.heard else s.seen + 1)
  }

  /** What runs at services side is not heard from, after it stops. */
  function StopServicesStep(s: System): System {
    if !s.servicesUp then s else
    s.(services := s.services.(procs := map[]), servicesUp := false,
       place := map num | num in s.place :: if s.place[num].Running? then Dropped else s.place[num])
  }

  ghost function Step(s: System, a: Action): System {
    if !Expected(a) then s else
    match a
    case StartCall(kind, call) => StartStep(s, kind, call)
    case CancelCall(num) => CancelStep(s, num)
    case TakeRequest(out, late, lateEnd) => TakeStep(s, out, late, lateEnd)
    case Settles(num, r) => SettleStep(s, num, r)
    case Emits(num, body) => EmitStep(s, num, body)
    case Ends(num, ended) => EndStep(s, num, ended)
    case SeeReply => SeeStep(s)
    case StopClient(order) => StopClientStep(s, order)
    case StopServices => StopServicesStep(s)
  }

  ghost function Run(actions: seq<Action>): System {
    if |actions| == 0 then START else Step(Run(actions[..|actions| - 1]), actions[|actions| - 1])
  }

  // ------------------------------------------------------- reading of the logs

  function RepliesTo(num: nat, log: seq<Reply>): seq<Reply> {
    if |log| == 0 then []
    else
      var last := log[|log| - 1];
      RepliesTo(num, log[..|log| - 1]) + if last.num == num then [last] else []
  }

  function SignalsTo(id: nat, log: seq<Effect>): seq<Signal> {
    if |log| == 0 then []
    else
      var last := log[|log| - 1];
      SignalsTo(id, log[..|log| - 1]) + if last.id == id then [last.signal] else []
  }

  predicate IsFinal(r: Reply) {
    !r.Interim?
  }

  /** Signal that a reply should cause at a caller. */
  function SignalFor(kind: Kind, r: Reply): Signal {
    match r
    case Interim(_, body) => if kind.Promise? then Resolve(body) else IpcClient.Next(body)
    case End(_, body) => if kind.Promise? then Resolve(body) else Complete
    case Error(_, err) => if kind.Promise? then Reject(err) else Fail(err)
  }

  /** A promise is settled with the first reply, an observer gets all of them. */
  function SignalsFor(kind: Kind, replies: seq<Reply>): seq<Signal> {
    if kind.Promise? then
      if |replies| == 0 then [] else [SignalFor(kind, replies[0])]
    else
      seq(|replies|, i requires 0 <= i < |replies| => SignalFor(kind, replies[i]))
  }

  /** Replies after which nothing more is told to the caller. */
  predicate IsClosed(kind: Kind, replies: seq<Reply>) {
    |replies| > 0 && (kind.Promise? || IsFinal(replies[|replies| - 1]))
  }
}
