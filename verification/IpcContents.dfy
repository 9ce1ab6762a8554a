/** What is said in replies, and to callers, comes from what functions gave. */
module IpcContents {
  import opened Wrappers
  import opened IpcClient
  import opened IpcServices
  import opened IpcProtocol
  import opened IpcProofs
  import opened IpcRuns

  // ---------------------------------------------------------- what functions give

  function EachOf(n: nat, bodies: seq<Body>): seq<Reply> {
    if |bodies| == 0 then [] else EachOf(n, bodies[..|bodies| - 1]) + [Interim(n, bodies[|bodies| - 1])]
  }

  function Ended(n: nat, ended: Option<Ending>): seq<Reply> {
    match ended
    case None => []
    case Some(Completes) => [End(n, "")]
    case Some(Breaks(err)) => [Error(n, err)]
  }

  /** What is given when a start of call n is taken. */
  function GivenAtStart(n: nat, out: FnOut): seq<Reply> {
    match out
    case Throws(err) => [Error(n, err)]
    case GivesObservable(early, ended) => EachOf(n, early) + Ended(n, ended)
    case _ => []
  }

  /** What an action gives in answer to call n: values, items and errors are those of call's function. */
  function GivenNow(s: System, a: Action, n: nat): seq<Reply> {
    if !Expected(a) then [] else
    match a
    case Settles(num, r) =>
      if num != n || !IsRunning(s, n, PromiseProc) then []
      else if r.Resolved? then [End(n, r.body)] else [Error(n, r.err)]
    case Emits(num, body) =>
      if num == n && IsRunning(s, n, Subscription) then [Interim(n, body)] else []
    case Ends(num, ended) =>
      if num == n && IsRunning(s, n, Subscription) then Ended(n, Some(ended)) else []
    case TakeRequest(out, late, lateEnd) =>
      if !s.servicesUp || s.taken >= |s.client.sent| || s.client.sent[s.taken].num != n then []
      else if s.client.sent[s.taken].Start? then
        if n in s.services.procs then [Error(n, DuplicateFnCallNum)] else GivenAtStart(n, out)
      else if n in s.services.procs && s.services.procs[n].Subscription? then
        EachOf(n, late) + Ended(n, lateEnd)
      else []
    case _ => []
  }

  /** All that was given in answer to call n. */
  ghost function Given(actions: seq<Action>, n: nat): seq<Reply> {
    if |actions| == 0 then []
    else
      var before := actions[..|actions| - 1];
      Given(before, n) + GivenNow(Run(before), actions[|actions| - 1], n)
  }

  // ------------------------------------------------------------------- replies

  lemma {:induction false} EachIsItem(n: nat, bodies: seq<Body>)
    ensures EachOf(n, bodies) == Items(n, bodies)
  {
    if |bodies| > 0 {
      EachIsItem(n, bodies[..|bodies| - 1]);
    }
  }

  lemma EmittedIsGiven(n: nat, bodies: seq<Body>, ended: Option<Ending>)
    ensures Emitted(n, bodies, ended) == EachOf(n, bodies) + Ended(n, ended)
    ensures forall i :: 0 <= i < |Emitted(n, bodies, ended)| ==> Emitted(n, bodies, ended)[i].num == n
  {
    EachIsItem(n, bodies);
  }

  /** More replies are sent to one number. */
  lemma SentMore(s: System, s': System, num: nat, more: seq<Reply>, n: nat)
    requires s'.services.sent == s.services.sent + more
    requires forall i :: 0 <= i < |more| ==> more[i].num == num
    ensures RepliesTo(n, s'.services.sent) == RepliesTo(n, s.services.sent) + if n == num then more else []
  {
    RepliesAppend(n, s.services.sent, more);
    RepliesOfOne(n, num, more);
  }

  lemma StartIsGiven(s: System, num: nat, out: FnOut, s': System, n: nat)
    requires s'.services == AfterCallStart(s.services, num, out)
    ensures RepliesTo(n, s'.services.sent) == RepliesTo(n, s.services.sent) +
              if n != num then []
              else if n in s.services.procs then [Error(n, DuplicateFnCallNum)] else GivenAtStart(n, out)
  {
    if num in s.services.procs {
      SentMore(s, s', num, [Error(num, DuplicateFnCallNum)], n);
    } else if out.GivesObservable? {
      EmittedIsGiven(num, out.early, out.ended);
      SentMore(s, s', num, Emitted(num, out.early, out.ended), n);
    } else {
      assert s.services.sent + [] == s.services.sent;
      SentMore(s, s', num, GivenAtStart(num, out), n);
    }
  }

  lemma CancelIsGiven(s: System, num: nat, late: seq<Body>, lateEnd: Option<Ending>, s': System, n: nat)
    requires s'.services == AfterCancel(s.services, num, late, lateEnd)
    ensures RepliesTo(n, s'.services.sent) == RepliesTo(n, s.services.sent) +
              if n == num && n in s.services.procs && s.services.procs[n].Subscription? then
                EachOf(n, late) + Ended(n, lateEnd)
              else []
  {
    if num in s.services.procs && s.services.procs[num].Subscription? {
      EmittedIsGiven(num, late, lateEnd);
      SentMore(s, s', num, Emitted(num, late, lateEnd), n);
    }
  }

  lemma TakenIsGiven(s: System, a: Action, n: nat)
    requires a.TakeRequest? && Expected(a)
    ensures RepliesTo(n, Step(s, a).services.sent) == RepliesTo(n, s.services.sent) + GivenNow(s, a, n)
  {
    if s.servicesUp && s.taken < |s.client.sent| {
      match s.client.sent[s.taken]
      case Start(num, _) => StartIsGiven(s, num, a.out, Step(s, a), n);
      case Cancel(num) => CancelIsGiven(s, num, a.late, a.lateEnd, Step(s, a), n);
    }
  }

  lemma StepGives(s: System, a: Action, n: nat)
    ensures RepliesTo(n, Step(s, a).services.sent) == RepliesTo(n, s.services.sent) + GivenNow(s, a, n)
  {
    if Expected(a) {
      match a
      case TakeRequest(_, _, _) => TakenIsGiven(s, a, n);
      case Settles(num, _) =>
        if IsRunning(s, num, PromiseProc) { SentMore(s, Step(s, a), num, GivenNow(s, a, num), n); }
      case Emits(num, _) =>
        if IsRunning(s, num, Subscription) { SentMore(s, Step(s, a), num, GivenNow(s, a, num), n); }
      case Ends(num, _) =>
        if IsRunning(s, num, Subscription) { SentMore(s, Step(s, a), num, GivenNow(s, a, num), n); }
      case _ => assert Step(s, a).services.sent == s.services.sent;
    }
  }

  /** Replies to a call say exactly what its function gave, in the same order. */
  lemma {:induction false} RepliesAreGiven(actions: seq<Action>, n: nat)
    ensures RepliesTo(n, Run(actions).services.sent) == Given(actions, n)
  {
    if |actions| > 0 {
      RepliesAreGiven(actions[..|actions| - 1], n);
      StepGives(Run(actions[..|actions| - 1]), actions[|actions| - 1], n);
    }
  }

  /** Settling of a running promise is said at once, and it is the last reply. */
  lemma SettlingIsSaid(actions: seq<Action>, n: nat, r: Settlement)
    requires IsRunning(Run(actions), n, PromiseProc) && r != Rejected(DuplicateFnCallNum)
    ensures var replies := RepliesTo(n, Run(actions + [Settles(n, r)]).services.sent);
            && |replies| > 0
            && replies[|replies| - 1] == if r.Resolved? then End(n, r.body) else Error(n, r.err)
  {
    var all := actions + [Settles(n, r)];
    assert all[..|actions|] == actions;
    RepliesAreGiven(all, n);
  }

  // ------------------------------------------------------------ causes of replies

  /** Action a, at which the next request to be taken is the given one, says what is in reply r. */
  predicate Says(a: Action, next: Option<Request>, r: Reply) {
    match r
    case Interim(n, body) =>
      || a == Emits(n, body)
      || (a.TakeRequest? && IsStartOf(next, n) && a.out.GivesObservable? && body in a.out.early)
      || (a.TakeRequest? && next == Some(Cancel(n)) && body in a.late)
    case End(n, body) =>
      || a == Settles(n, Resolved(body))
      || (body == "" && a == Ends(n, Completes))
      || (body == "" && a.TakeRequest? && next == Some(Cancel(n)) && a.lateEnd == Some(Completes))
    case Error(n, err) =>
      || a == Settles(n, Rejected(err))
      || a == Ends(n, Breaks(err))
      || (a.TakeRequest? && IsStartOf(next, n) && a.out == Throws(err))
      || (a.TakeRequest? && next == Some(Cancel(n)) && a.lateEnd == Some(Breaks(err)))
  }

  predicate IsStartOf(next: Option<Request>, n: nat) {
    next.Some? && next.value.Start? && next.value.num == n
  }

  function NextRequest(s: System): Option<Request> {
    if s.taken < |s.client.sent| then Some(s.client.sent[s.taken]) else None
  }

  lemma {:induction false} EachIsFrom(n: nat, bodies: seq<Body>, r: Reply)
    requires r in EachOf(n, bodies)
    ensures r.Interim? && r.num == n && r.body in bodies
  {
    var shorter := bodies[..|bodies| - 1];
    if r in EachOf(n, shorter) {
      EachIsFrom(n, shorter, r);
    }
  }

  /** A call to be started is not running yet. */
  predicate NextIsFree(s: System) {
    s.taken < |s.client.sent| && s.client.sent[s.taken].Start? ==> s.client.sent[s.taken].num !in s.services.procs
  }

  lemma StartIsSaid(a: Action, request: Request, n: nat, r: Reply)
    requires a.TakeRequest? && request.Start? && request.num == n && r in GivenAtStart(n, a.out)
    requires a.out.GivesObservable? ==> a.out.ended.None?
    ensures Says(a, Some(request), r)
  {
    if a.out.GivesObservable? {
      EachIsFrom(n, a.out.early, r);
    }
  }

  lemma CancelIsSaid(a: Action, n: nat, r: Reply)
    requires a.TakeRequest? && r in EachOf(n, a.late) + Ended(n, a.lateEnd)
    ensures Says(a, Some(Cancel(n)), r)
  {
    if r in EachOf(n, a.late) {
      EachIsFrom(n, a.late, r);
    }
  }

  lemma TakenIsSaid(s: System, a: Action, n: nat, r: Reply)
    requires NextIsFree(s) && a.TakeRequest? && r in GivenNow(s, a, n)
    ensures Says(a, NextRequest(s), r)
  {
    var request := s.client.sent[s.taken];
    if request.Start? {
      StartIsSaid(a, request, n, r);
    } else {
      CancelIsSaid(a, n, r);
    }
  }

  lemma GivenIsSaid(s: System, a: Action, n: nat, r: Reply)
    requires NextIsFree(s) && r in GivenNow(s, a, n)
    ensures Says(a, NextRequest(s), r)
  {
    if a.TakeRequest? {
      TakenIsSaid(s, a, n, r);
    }
  }

  lemma StartNotRunning(s: System)
    requires Inv(s)
    ensures NextIsFree(s)
  {
    if s.taken < |s.client.sent| && s.client.sent[s.taken].Start? {
      assert s.place[s.client.sent[s.taken].num] == Starting;
    }
  }

  /** Each reply has an action, at which its call's function gave what the reply says. */
  lemma {:induction false} ReplyHasCause(actions: seq<Action>, r: Reply)
    requires r in RepliesTo(r.num, Run(actions).services.sent)
    ensures exists k :: 0 <= k < |actions| && Says(actions[k], NextRequest(Run(actions[..k])), r)
  {
    RepliesAreGiven(actions, r.num);
    var k := GivenAt(actions, r.num, r);
    RunKeepsInv(actions[..k]);
    StartNotRunning(Run(actions[..k]));
    GivenIsSaid(Run(actions[..k]), actions[k], r.num, r);
  }

  lemma {:induction false} GivenAt(actions: seq<Action>, n: nat, r: Reply) returns (k: nat)
    requires r in Given(actions, n)
    ensures k < |actions| && r in GivenNow(Run(actions[..k]), actions[k], n)
  {
    var before := actions[..|actions| - 1];
    if r in Given(before, n) {
      k := GivenAt(before, n, r);
      assert before[..k] == actions[..k];
    } else {
      k := |actions| - 1;
    }
  }

  // ------------------------------------------------------------- what callers hear

  /** A caller's signal that tells what a reply says. */
  predicate Tells(kind: Kind, signal: Signal, r: Reply) {
    match signal
    case Resolve(body) => kind.Promise? && !r.Error? && r.body == body
    case Reject(err) => kind.Promise? && r.Error? && r.err == err
    case Next(body) => kind.Observable? && r.Interim? && r.body == body
    case Complete => kind.Observable? && r.End?
    case Fail(err) => kind.Observable? && r.Error? && r.err == err
  }

  predicate TellsStopping(kind: Kind, signal: Signal) {
    signal == if kind.Promise? then Reject(Stopped) else Fail(Stopped)
  }

  lemma ToldAsGiven(kind: Kind, signals: seq<Signal>, replies: seq<Reply>, i: nat)
    requires ToldRight(kind, signals, replies) && i < |signals|
    ensures || (i < |replies| && Tells(kind, signals[i], replies[i]))
            || (i == |signals| - 1 && TellsStopping(kind, signals[i]))
  {
    var told := SignalsFor(kind, replies);
    if i < |told| {
      assert signals[i] == told[i];
    }
  }

  /** A caller is told, one after another, what call's function gave, and at the end may be told about stopping. */
  lemma CallerHearsFunction(actions: seq<Action>, n: nat, i: nat)
    requires n in Run(actions).made && i < |SignalsTo(n, Run(actions).client.effects)|
    ensures var kind, signals := Run(actions).made[n].kind, SignalsTo(n, Run(actions).client.effects);
            || (i < |Given(actions, n)| && Tells(kind, signals[i], Given(actions, n)[i]))
            || (i == |signals| - 1 && TellsStopping(kind, signals[i]))
  {
    TellsOwnReplies(actions, n);
    RepliesAreGiven(actions, n);
    var s := Run(actions);
    var all := Given(actions, n);
    var k :| 0 <= k <= |all| && ToldRight(s.made[n].kind, SignalsTo(n, s.client.effects), all[..k]);
    ToldAsGiven(s.made[n].kind, SignalsTo(n, s.client.effects), all[..k], i);
  }

  /** When all replies are seen, a promise was told the first thing that was given, and an observer was told all. */
  lemma CallerHearsAll(actions: seq<Action>, n: nat)
    requires n in Run(actions).made && !Run(actions).client.stopped
    requires Run(actions).seen == |Run(actions).services.sent|
    ensures var kind, given := Run(actions).made[n].kind, Given(actions, n);
            |SignalsTo(n, Run(actions).client.effects)| == (if kind.Promise? && |given| > 1 then 1 else |given|)
  {
    TellsOwnReplies(actions, n);
    RepliesAreGiven(actions, n);
  }
}
