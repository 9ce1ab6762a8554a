/** What holds in every run of a connection with fewer than 2^53-1 calls. */
module IpcRuns {
  import opened Wrappers
  import opened IpcClient
  import opened IpcServices
  import opened IpcProtocol
  import opened IpcProofs

  // ---------------------------------------------------------------- one place

  ghost predicate StartInTransit(s: System, n: nat) {
    exists i :: s.taken <= i < |s.client.sent| && s.client.sent[i].Start? && s.client.sent[i].num == n
  }

  ghost predicate FinalInTransit(s: System, n: nat) {
    exists i :: s.seen <= i < |s.services.sent| && s.services.sent[i].num == n && IsFinal(s.services.sent[i])
  }

  lemma {:induction false} FinalIsThere(num: nat, log: seq<Reply>, from: nat)
    requires from <= |log|
    requires RepliesTo(num, log) != [] && IsFinal(RepliesTo(num, log)[|RepliesTo(num, log)| - 1])
    requires RepliesTo(num, log) != RepliesTo(num, log[..from])
    ensures exists i :: from <= i < |log| && log[i].num == num && IsFinal(log[i])
  {
    assert log[..|log|] == log;
    if log[|log| - 1].num != num {
      var shorter := log[..|log| - 1];
      assert shorter[..from] == log[..from];
      FinalIsThere(num, shorter, from);
      var i :| from <= i < |shorter| && shorter[i].num == num && IsFinal(shorter[i]);
      assert log[i] == shorter[i];
    }
  }

  lemma {:induction false} NoFinal(num: nat, log: seq<Reply>)
    requires AllInterim(RepliesTo(num, log))
    ensures forall i :: 0 <= i < |log| && log[i].num == num ==> log[i].Interim?
  {
    if |log| > 0 {
      var shorter := log[..|log| - 1];
      var all := RepliesTo(num, log);
      assert RepliesTo(num, shorter) == all[..|RepliesTo(num, shorter)|];
      NoFinal(num, shorter);
      if log[|log| - 1].num == num {
        assert all[|all| - 1] == log[|log| - 1];
      }
      assert forall i :: 0 <= i < |shorter| ==> log[i] == shorter[i];
    }
  }

  lemma StartingPlace(s: System, n: nat)
    requires s.place.Keys == s.made.Keys && Requests(s) && n in s.place
    ensures s.place[n] == Starting <==> StartInTransit(s, n)
  {
    if s.place[n] == Starting {
      var i :| s.taken <= i < |s.client.sent| && s.client.sent[i] == Start(n, s.made[n].call);
      assert s.client.sent[i].Start?;
    }
  }

  lemma FinishedPlace(s: System, n: nat)
    requires Replies(s) && n in s.place && FinalInTransit(s, n)
    ensures s.place[n] == Finished
  {
    assert FitsPlace(s.place[n], RepliesTo(n, s.services.sent));
    if s.place[n] != Finished {
      NoFinal(n, s.services.sent);
    }
  }

  lemma FinishedIsInTransit(s: System, n: nat)
    requires Replies(s) && s.heard == s.seen && n in s.made && n in s.place && s.place[n] == Finished
    requires !IsClosed(s.made[n].kind, Heard(s, n))
    ensures FinalInTransit(s, n)
  {
    assert FitsPlace(s.place[n], RepliesTo(n, s.services.sent));
    FinalIsThere(n, s.services.sent, s.seen);
  }

  /** No two of three places have a call. */
  ghost predicate NotInTwoPlaces(s: System, n: nat) {
    && !(StartInTransit(s, n) && n in s.services.procs)
    && !(StartInTransit(s, n) && FinalInTransit(s, n))
    && !(n in s.services.procs && FinalInTransit(s, n))
  }

  ghost predicate InSomePlace(s: System, n: nat) {
    StartInTransit(s, n) || n in s.services.procs || FinalInTransit(s, n)
  }

  lemma NotInTwo(s: System, n: nat)
    requires Inv(s) && n in s.made
    ensures NotInTwoPlaces(s, n)
    ensures s.place[n] == Unanswered ==> !InSomePlace(s, n)
  {
    StartingPlace(s, n);
    if FinalInTransit(s, n) {
      FinishedPlace(s, n);
    }
  }

  /** While a call is not cancelled, services do not forget it before its final reply. */
  ghost predicate NotForgotten(s: System) {
    s.servicesUp ==> forall n :: n in s.place && Cancel(n) !in s.client.sent ==>
      s.place[n] != Dropped && (s.place[n] == Running(PromiseProc) ==> n in s.services.procs)
  }

  /** Clients' steps only send more. */
  lemma SendingKeepsThem(s: System, s': System)
    requires NotForgotten(s) && s.client.sent <= s'.client.sent
    requires s'.servicesUp == s.servicesUp && s'.services == s.services
    requires forall n :: n in s'.place ==> s'.place[n] == Starting || (n in s.place && s'.place[n] == s.place[n])
    ensures NotForgotten(s')
  {
    forall r | r in s.client.sent ensures r in s'.client.sent {
      var i :| 0 <= i < |s.client.sent| && s.client.sent[i] == r;
      assert s'.client.sent[i] == r;
    }
  }

  /** Services' step changes what they have of one call, which goes on or is cancelled. */
  ghost predicate MovesOne(s: System, s': System, num: nat) {
    && s'.client == s.client && s'.servicesUp == s.servicesUp && num in s'.place
    && (forall n :: n in s'.place && n != num ==> n in s.place && s'.place[n] == s.place[n])
    && (forall n :: n in s.services.procs && n != num ==> n in s'.services.procs)
    && (Cancel(num) in s.client.sent
        || (s'.place[num] != Dropped && (s'.place[num] == Running(PromiseProc) ==> num in s'.services.procs)))
  }

  lemma MovingKeepsThem(s: System, s': System, num: nat)
    requires NotForgotten(s) && MovesOne(s, s', num)
    ensures NotForgotten(s')
  {
  }

  lemma StartKeepsThem(s: System, num: nat, call: Call, out: FnOut, late: seq<Body>, lateEnd: Option<Ending>)
    requires s.place.Keys == s.made.Keys && Requests(s) && Procs(s) && s.servicesUp && NotForgotten(s)
    requires s.taken < |s.client.sent| && s.client.sent[s.taken] == Start(num, call)
    requires out.GivesObservable? ==> out.ended.None?
    ensures NotForgotten(TakeStep(s, out, late, lateEnd))
  {
    TakeStartShape(s, num, call, out, late, lateEnd);
    MovingKeepsThem(s, TakeStep(s, out, late, lateEnd), num);
  }

  lemma CancelShape(s: System, num: nat, out: FnOut, late: seq<Body>, lateEnd: Option<Ending>)
    requires s.servicesUp && num in s.services.procs
    requires s.taken < |s.client.sent| && s.client.sent[s.taken] == Cancel(num)
    ensures var s' := TakeStep(s, out, late, lateEnd);
            && s'.client == s.client && s'.servicesUp == s.servicesUp
            && s'.services.procs == s.services.procs - {num}
            && s'.place == if s.services.procs[num].PromiseProc? then s.place
                           else s.place[num := if lateEnd.Some? then Finished else Dropped]
  {}

  lemma CancelMovesOne(s: System, num: nat, out: FnOut, late: seq<Body>, lateEnd: Option<Ending>)
    requires Procs(s) && s.servicesUp && NotForgotten(s)
    requires s.taken < |s.client.sent| && s.client.sent[s.taken] == Cancel(num)
    ensures NotForgotten(TakeStep(s, out, late, lateEnd))
  {
    assert Cancel(num) in s.client.sent;
    if num in s.services.procs {
      CancelShape(s, num, out, late, lateEnd);
      MovingKeepsThem(s, TakeStep(s, out, late, lateEnd), num);
    }
  }

  lemma TakingKeepsThem(s: System, out: FnOut, late: seq<Body>, lateEnd: Option<Ending>)
    requires Inv(s) && NotForgotten(s) && Expected(TakeRequest(out, late, lateEnd))
    ensures NotForgotten(TakeStep(s, out, late, lateEnd))
  {
    if s.servicesUp && s.taken < |s.client.sent| {
      match s.client.sent[s.taken]
      case Start(num, call) => StartKeepsThem(s, num, call, out, late, lateEnd);
      case Cancel(num) => CancelMovesOne(s, num, out, late, lateEnd);
    }
  }

  /** Steps of running calls, and stopping of services. */
  lemma ServicesKeepThem(s: System, a: Action)
    requires Procs(s) && NotForgotten(s) && (a.Settles? || a.Emits? || a.Ends? || a.StopServices?)
    ensures NotForgotten(Step(s, a))
  {
    if a.Settles? && IsRunning(s, a.num, PromiseProc) {
      MovingKeepsThem(s, SettleStep(s, a.num, a.r), a.num);
    } else if a.Ends? && IsRunning(s, a.num, Subscription) {
      MovingKeepsThem(s, EndStep(s, a.num, a.ended), a.num);
    }
  }

  lemma StartOnlySends(s: System, kind: Kind, call: Call)
    requires Numbers(s) && NotForgotten(s)
    ensures NotForgotten(StartStep(s, kind, call))
  {
    if s.client.counter < MAX_SAFE_INTEGER {
      StartShape(s, kind, call);
      SendingKeepsThem(s, StartStep(s, kind, call));
    }
  }

  lemma SeeingOnlySends(s: System)
    requires Inv(s) && NotForgotten(s)
    ensures NotForgotten(SeeStep(s))
  {
    if s.seen < |s.services.sent| {
      SeeShape(s);
      SendingKeepsThem(s, SeeStep(s));
    }
  }

  lemma ClientsKeepThem(s: System, a: Action)
    requires Inv(s) && NotForgotten(s) && (a.StartCall? || a.CancelCall? || a.SeeReply? || a.StopClient?)
    ensures NotForgotten(Step(s, a))
  {
    match a
    case StartCall(kind, call) => StartOnlySends(s, kind, call);
    case CancelCall(num) => SendingKeepsThem(s, CancelStep(s, num));
    case SeeReply => SeeingOnlySends(s);
    case StopClient(order) => SendingKeepsThem(s, StopClientStep(s, order));
  }

  lemma StepKeepsThem(s: System, a: Action)
    requires Inv(s) && NotForgotten(s)
    ensures NotForgotten(Step(s, a))
  {
    if a.TakeRequest? {
      if Expected(a) { TakingKeepsThem(s, a.out, a.late, a.lateEnd); }
    } else if a.StartCall? || a.CancelCall? || a.SeeReply? || a.StopClient? {
      ClientsKeepThem(s, a);
    } else {
      ServicesKeepThem(s, a);
    }
  }

  lemma {:induction false} RunKeepsThem(actions: seq<Action>)
    ensures NotForgotten(Run(actions))
  {
    if |actions| > 0 {
      RunKeepsInv(actions[..|actions| - 1]);
      RunKeepsThem(actions[..|actions| - 1]);
      StepKeepsThem(Run(actions[..|actions| - 1]), actions[|actions| - 1]);
    }
  }

  /** Replies that were seen do not close a pending call. */
  lemma PendingIsOpen(s: System, n: nat)
    requires Told(s) && n in s.made && n in s.client.calls
    ensures s.heard == s.seen && !IsClosed(s.made[n].kind, Heard(s, n))
  {
    assert ToldTo(s, n);
  }

  lemma FinishedPending(s: System, n: nat)
    requires Replies(s) && Told(s) && n in s.made && n in s.client.calls && n in s.place
    ensures s.place[n] == Finished ==> FinalInTransit(s, n)
  {
    if s.place[n] == Finished {
      PendingIsOpen(s, n);
      FinishedIsInTransit(s, n);
    }
  }

  lemma RunningIsThere(s: System, n: nat)
    requires Procs(s) && NotForgotten(s) && s.servicesUp
    requires n in s.place && Cancel(n) !in s.client.sent
    ensures s.place[n].Running? ==> n in s.services.procs
    ensures s.place[n] != Dropped
  {
    if s.place[n].Running? {
      match s.place[n].source
      case PromiseProc => assert s.place[n] == Running(PromiseProc);
      case Subscription => assert s.place[n] == Running(Subscription);
    }
  }

  lemma InSome(s: System, n: nat)
    requires Inv(s) && NotForgotten(s) && n in s.client.calls
    requires s.servicesUp && Cancel(n) !in s.client.sent
    ensures n in s.place && (s.place[n] == Unanswered || InSomePlace(s, n))
  {
    StartingPlace(s, n);
    RunningIsThere(s, n);
    FinishedPending(s, n);
  }

  /**
    No number is in two of these places: a start in transit, the table of services, a final reply in transit.
    A pending call, which was not cancelled, is in one of them while services are up, unless its function gave
    nothing back.
  */
  lemma ExactlyOnePlace(actions: seq<Action>, n: nat)
    requires n in Run(actions).made
    ensures NotInTwoPlaces(Run(actions), n)
    ensures var s := Run(actions);
            && n in s.place
            && (n in s.client.calls && s.servicesUp && Cancel(n) !in s.client.sent ==>
                  (InSomePlace(s, n) <==> s.place[n] != Unanswered))
  {
    RunKeepsInv(actions);
    RunKeepsThem(actions);
    var s := Run(actions);
    NotInTwo(s, n);
    if n in s.client.calls && s.servicesUp && Cancel(n) !in s.client.sent {
      InSome(s, n);
    }
  }

  // ------------------------------------------------------ settled at most once

  /** What a caller can be told, by replies of one invocation, and by stopping. */
  ghost predicate ToldRight(kind: Kind, signals: seq<Signal>, replies: seq<Reply>) {
    || signals == SignalsFor(kind, replies)
    || (&& !IsClosed(kind, replies)
        && signals == SignalsFor(kind, replies) + [if kind.Promise? then Reject(Stopped) else Fail(Stopped)])
  }

  /** Functions are invoked at most once for each call, with the argument of that call. */
  lemma OneInvocation(actions: seq<Action>)
    ensures var s := Run(actions);
            && (forall i :: 0 <= i < |s.invoked| ==>
                  s.invoked[i].0 in s.made && s.invoked[i].1 == s.made[s.invoked[i].0].call)
            && (forall i, j :: 0 <= i < j < |s.invoked| ==> s.invoked[i].0 != s.invoked[j].0)
  {
    RunKeepsInv(actions);
  }

  /** Heard replies to a call are the first ones of those sent. */
  lemma HeardIsPrefix(s: System, n: nat)
    requires s.heard <= |s.services.sent|
    ensures Heard(s, n) <= RepliesTo(n, s.services.sent)
    ensures s.heard == |s.services.sent| ==> Heard(s, n) == RepliesTo(n, s.services.sent)
  {
    var sent := s.services.sent;
    RepliesAppend(n, sent[..s.heard], sent[s.heard..]);
    assert sent == sent[..s.heard] + sent[s.heard..];
  }

  lemma ToldByHeard(s: System, n: nat)
    requires Inv(s) && n in s.made
    ensures ToldRight(s.made[n].kind, SignalsTo(n, s.client.effects), Heard(s, n))
    ensures !s.client.stopped ==> SignalsTo(n, s.client.effects) == SignalsFor(s.made[n].kind, Heard(s, n))
    ensures !s.client.stopped ==> s.heard == s.seen
  {
    assert ToldTo(s, n);
  }

  /**
    A caller is told exactly what first replies to its own call say, each of them once and in order: a promise
    is settled with the first one. Only a call, that replies did not close, is failed by stopping.
  */
  lemma TellsOwnReplies(actions: seq<Action>, n: nat)
    requires n in Run(actions).made
    ensures var s := Run(actions);
            var all := RepliesTo(n, s.services.sent);
            exists k :: 0 <= k <= |all| && ToldRight(s.made[n].kind, SignalsTo(n, s.client.effects), all[..k])
    ensures var s := Run(actions);
            !s.client.stopped && s.seen == |s.services.sent| ==>
              SignalsTo(n, s.client.effects) == SignalsFor(s.made[n].kind, RepliesTo(n, s.services.sent))
  {
    RunKeepsInv(actions);
    var s := Run(actions);
    ToldByHeard(s, n);
    HeardIsPrefix(s, n);
    assert RepliesTo(n, s.services.sent)[..|Heard(s, n)|] == Heard(s, n);
  }

  /** The stream of replies to a call: any number of items and at most one final reply, after which there is none. */
  lemma StreamsAreWellFormed(actions: seq<Action>, n: nat)
    requires n in Run(actions).made
    ensures var replies := RepliesTo(n, Run(actions).services.sent);
            AllInterim(replies) || EndsFinal(replies)
  {
    RunKeepsInv(actions);
    var s := Run(actions);
    assert FitsPlace(s.place[n], RepliesTo(n, s.services.sent));
  }

  predicate IsTerminal(signal: Signal) {
    !signal.Next?
  }

  /** No promise is settled twice, and no observer is told anything after its completion or failure. */
  lemma SettledAtMostOnce(actions: seq<Action>, n: nat)
    requires n in Run(actions).made
    ensures var signals := SignalsTo(n, Run(actions).client.effects);
            && (forall i :: 0 <= i < |signals| - 1 ==> !IsTerminal(signals[i]))
            && (Run(actions).made[n].kind.Promise? ==> |signals| <= 1)
  {
    RunKeepsInv(actions);
    var s := Run(actions);
    StreamsAreWellFormed(actions, n);
    ToldByHeard(s, n);
    HeardIsPrefix(s, n);
    SignalsEnd(s.made[n].kind, SignalsTo(n, s.client.effects), Heard(s, n), RepliesTo(n, s.services.sent));
  }

  lemma SignalsEnd(kind: Kind, signals: seq<Signal>, heard: seq<Reply>, all: seq<Reply>)
    requires ToldRight(kind, signals, heard) && heard <= all && (AllInterim(all) || EndsFinal(all))
    ensures forall i :: 0 <= i < |signals| - 1 ==> !IsTerminal(signals[i])
    ensures kind.Promise? ==> |signals| <= 1
  {
    assert forall i :: 0 <= i < |heard| ==> heard[i] == all[i];
  }

  /** Services never get a number that they have in use. */
  lemma NoDuplicateNumbers(actions: seq<Action>)
    ensures forall i :: 0 <= i < |Run(actions).services.sent| ==>
              Run(actions).services.sent[i] != Error(Run(actions).services.sent[i].num, DuplicateFnCallNum)
  {
    RunKeepsInv(actions);
  }

  // ------------------------------------------------------------------ stopping

  /** Nothing is told to callers, when the side is stopped, except for calls that are started then. */
  ghost predicate TellsNothing(s: System, s': System) {
    && s'.client.stopped && s'.client.calls == map[]
    && forall n :: n in s.made ==> n in s'.made && SignalsTo(n, s'.client.effects) == SignalsTo(n, s.client.effects)
  }

  lemma StepStaysStopped(s: System, a: Action)
    requires Inv(s) && s.client.stopped
    ensures TellsNothing(s, Step(s, a))
  {
    if a.StartCall? {
      StartWhenStopped(s, a.kind, a.call);
    } else if a.SeeReply? {
      SeeWhenStopped(s);
    } else {
      OthersKeepClient(s, a);
    }
  }

  lemma SeeWhenStopped(s: System)
    requires s.client.calls == map[]
    ensures SeeStep(s).client == s.client && SeeStep(s).made == s.made
  {
  }

  lemma OthersKeepClient(s: System, a: Action)
    requires s.client.stopped && !a.StartCall? && !a.SeeReply?
    ensures Step(s, a).client == s.client && Step(s, a).made == s.made
  {
  }

  lemma StartWhenStopped(s: System, kind: Kind, call: Call)
    requires Inv(s) && s.client.stopped
    ensures var s' := StartStep(s, kind, call);
            && s'.client.stopped && s'.client.calls == map[] && s'.made == s.made
            && forall n :: n in s.made ==> SignalsTo(n, s'.client.effects) == SignalsTo(n, s.client.effects)
  {
    if s.client.counter < MAX_SAFE_INTEGER {
      StartShape(s, kind, call);
      forall n | n in s.made
        ensures SignalsTo(n, s.client.effects + [Effect(s.client.counter, Reject(NotConnected))]) ==
                SignalsTo(n, s.client.effects)
      {
        SignalsAppend(n, s.client.effects, [Effect(s.client.counter, Reject(NotConnected))]);
      }
    }
  }

  lemma {:induction false} RunSplits(actions: seq<Action>, more: seq<Action>)
    requires |more| > 0
    ensures Run(actions + more) == Step(Run(actions + more[..|more| - 1]), more[|more| - 1])
  {
    var all := actions + more;
    assert all[..|all| - 1] == actions + more[..|more| - 1];
  }

  /** After stopping, the table of calls is empty for good, and callers of earlier calls are told nothing more. */
  lemma {:induction false} StoppedForGood(actions: seq<Action>, more: seq<Action>)
    requires Run(actions).client.stopped
    ensures TellsNothing(Run(actions), Run(actions + more))
  {
    RunKeepsInv(actions);
    if |more| == 0 {
      assert actions + more == actions;
    } else {
      StoppedForGood(actions, more[..|more| - 1]);
      RunKeepsInv(actions + more[..|more| - 1]);
      RunSplits(actions, more);
      StepStaysStopped(Run(actions + more[..|more| - 1]), more[|more| - 1]);
    }
  }

  /** Stopping fails every pending call, once, and tells nothing to callers of other calls. */
  lemma StopFailsPending(actions: seq<Action>, order: seq<nat>)
    requires !Run(actions).client.stopped && OrderOf(order, Run(actions).client.calls.Keys)
    ensures var s, s' := Run(actions), Step(Run(actions), StopClient(order));
            && s'.client.stopped && s'.client.calls == map[]
            && forall n :: n in s.made ==>
                 SignalsTo(n, s'.client.effects) == SignalsTo(n, s.client.effects) +
                   if n !in s.client.calls then []
                   else [if s.made[n].kind.Promise? then Reject(Stopped) else Fail(Stopped)]
  {
    RunKeepsInv(actions);
    StopSignalsAll(Run(actions), order);
  }
}
