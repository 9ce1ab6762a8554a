module IpcProofs {
  import opened Wrappers
  import opened IpcClient
  import opened IpcServices
  import opened IpcProtocol

  // --------------------------------------------------------------- log lemmas

  lemma {:induction false} RepliesAppend(num: nat, a: seq<Reply>, b: seq<Reply>)
    ensures RepliesTo(num, a + b) == RepliesTo(num, a) + RepliesTo(num, b)
  {
    if |b| == 0 {
      assert a + b == a;
    } else {
      assert (a + b)[..|a + b| - 1] == a + b[..|b| - 1];
      RepliesAppend(num, a, b[..|b| - 1]);
    }
  }

  lemma {:induction false} SignalsAppend(id: nat, a: seq<Effect>, b: seq<Effect>)
    ensures SignalsTo(id, a + b) == SignalsTo(id, a) + SignalsTo(id, b)
  {
    if |b| == 0 {
      assert a + b == a;
    } else {
      assert (a + b)[..|a + b| - 1] == a + b[..|b| - 1];
      SignalsAppend(id, a, b[..|b| - 1]);
    }
  }

  /** Replies that are all to one number. */
  lemma {:induction false} RepliesOfOne(num: nat, n: nat, log: seq<Reply>)
    requires forall i :: 0 <= i < |log| ==> log[i].num == n
    ensures RepliesTo(num, log) == if num == n then log else []
  {
    if |log| > 0 {
      RepliesOfOne(num, n, log[..|log| - 1]);
      assert log == log[..|log| - 1] + [log[|log| - 1]];
    }
  }

  lemma {:induction false} StopSignalsTo(id: nat, calls: map<nat, FnCall>, order: seq<nat>)
    requires forall num :: num in order ==> num in calls && calls[num].id == num
    requires forall i, j :: 0 <= i < j < |order| ==> order[i] != order[j]
    ensures SignalsTo(id, StopSignals(calls, order)) ==
            if id in order then [SignalError(calls[id], Stopped).signal] else []
  {
    if |order| > 0 {
      var front, last := order[..|order| - 1], order[|order| - 1];
      StopSignalsTo(id, calls, front);
      SignalsAppend(id, StopSignals(calls, front), [SignalError(calls[last], Stopped)]);
      SignalsOfOne(id, SignalError(calls[last], Stopped));
      assert order == front + [last];
      assert id in order <==> id in front || id == last;
    }
  }

  lemma SignalsOfOne(id: nat, e: Effect)
    ensures SignalsTo(id, [e]) == if e.id == id then [e.signal] else []
  {
  }

  // ----------------------------------------------------------------- invariant

  ghost predicate Numbers(s: System) {
    && 1 <= s.client.counter <= MAX_SAFE_INTEGER
    && s.place.Keys == s.made.Keys
    && (forall n :: n in s.made ==> n < s.client.counter && s.made[n].id == n)
    && (forall n :: n in s.client.calls ==> n in s.made && s.client.calls[n] == s.made[n])
    && (s.client.stopped ==> s.client.calls == map[])
  }

  ghost predicate InTransit(sent: seq<Request>, from: nat, r: Request) {
    exists i :: from <= i < |sent| && sent[i] == r
  }

  lemma TransitGrows(sent: seq<Request>, from: nat, r: Request, more: seq<Request>)
    requires InTransit(sent, from, r)
    ensures InTransit(sent + more, from, r)
  {
    var i :| from <= i < |sent| && sent[i] == r;
    assert (sent + more)[i] == r;
  }

  lemma TransitMoves(sent: seq<Request>, from: nat, r: Request)
    requires InTransit(sent, from, r) && from < |sent| && sent[from] != r
    ensures InTransit(sent, from + 1, r)
  {
    var i :| from <= i < |sent| && sent[i] == r;
    assert i != from;
  }

  /** A call is starting, while its start is in transit. */
  ghost predicate Requests(s: System)
    requires s.place.Keys == s.made.Keys
  {
    && s.taken <= |s.client.sent|
    && (forall i :: 0 <= i < |s.client.sent| && s.client.sent[i].Start? ==>
          && s.client.sent[i].num in s.made
          && s.client.sent[i].call == s.made[s.client.sent[i].num].call
          && (s.place[s.client.sent[i].num] == Starting <==> s.taken <= i))
    && (forall i, j :: 0 <= i < j < |s.client.sent| && s.client.sent[i].Start? && s.client.sent[j].Start? ==>
          s.client.sent[i].num != s.client.sent[j].num)
    && (forall n :: n in s.made && s.place[n] == Starting ==>
          InTransit(s.client.sent, s.taken, Start(n, s.made[n].call)))
  }

  ghost predicate Procs(s: System) {
    && (forall n :: n in s.services.procs ==>
          s.servicesUp && n in s.place && s.place[n] == Running(s.services.procs[n]))
    && (forall n :: n in s.place && s.place[n].Running? ==> s.servicesUp)
    && (forall n :: n in s.place && s.place[n] == Running(Subscription) ==> n in s.services.procs)
  }

  predicate AllInterim(replies: seq<Reply>) {
    forall i :: 0 <= i < |replies| ==> replies[i].Interim?
  }

  /** Items, followed by one final reply. */
  predicate EndsFinal(replies: seq<Reply>) {
    |replies| > 0 && IsFinal(replies[|replies| - 1]) && AllInterim(replies[..|replies| - 1])
  }

  /** What has been sent to a caller, according to the place of a call. */
  predicate FitsPlace(place: Place, replies: seq<Reply>) {
    match place
    case Starting => replies == []
    case Unanswered => replies == []
    case Running(source) => if source.PromiseProc? then replies == [] else AllInterim(replies)
    case Finished => EndsFinal(replies)
    case Dropped => AllInterim(replies)
  }

  ghost predicate Replies(s: System) {
    && s.seen <= |s.services.sent|
    && (forall i :: 0 <= i < |s.services.sent| ==>
          s.services.sent[i].num in s.made &&
          (s.services.sent[i].Error? ==> s.services.sent[i].err != DuplicateFnCallNum))
    && (forall n :: n in s.place ==> FitsPlace(s.place[n], RepliesTo(n, s.services.sent)))
  }

  function Heard(s: System, n: nat): seq<Reply>
    requires s.heard <= |s.services.sent|
  {
    RepliesTo(n, s.services.sent[..s.heard])
  }

  /**
    Caller of call n was told exactly what its replies tell, and, when these do not close the call, it was
    also told about stopping. The call is pending, while it is not closed.
  */
  ghost predicate ToldTo(s: System, n: nat)
    requires n in s.made && s.heard <= |s.services.sent|
  {
    var open := !IsClosed(s.made[n].kind, Heard(s, n));
    && (n in s.client.calls <==> !s.client.stopped && open)
    && SignalsTo(n, s.client.effects) ==
       SignalsFor(s.made[n].kind, Heard(s, n)) +
         if s.client.stopped && open then [SignalError(s.made[n], Stopped).signal] else []
  }

  ghost predicate Told(s: System)
  {
    && s.heard <= s.seen <= |s.services.sent|
    && (!s.client.stopped ==> s.heard == s.seen)
    && (forall n :: n in s.made ==> ToldTo(s, n))
    && (forall n :: s.client.counter <= n ==> SignalsTo(n, s.client.effects) == [])
  }

  /** Each start causes at most one invocation. */
  ghost predicate Invocations(s: System)
    requires s.place.Keys == s.made.Keys
  {
    && (forall i :: 0 <= i < |s.invoked| ==>
          && s.invoked[i].0 in s.made
          && s.invoked[i].1 == s.made[s.invoked[i].0].call
          && s.place[s.invoked[i].0] != Starting)
    && (forall i, j :: 0 <= i < j < |s.invoked| ==> s.invoked[i].0 != s.invoked[j].0)
  }

  ghost predicate Inv(s: System) {
    Numbers(s) && Requests(s) && Procs(s) && Replies(s) && Told(s) && Invocations(s)
  }

  lemma InitialInv()
    ensures Inv(START)
  {
  }

  // ------------------------------------------------------------ clients' steps

  lemma CounterIsFree(s: System)
    requires Numbers(s)
    ensures CanNumber(s.client) && NextNum(s.client.calls.Keys, s.client.counter) == s.client.counter
    ensures forall num :: CanNumber(s.client.(calls := Without(s.client.calls, num)))
  {
    var c := s.client.counter;
    assert 1 <= c <= MAX_SAFE_INTEGER && c !in s.client.calls.Keys;
    forall num ensures CanNumber(s.client.(calls := Without(s.client.calls, num))) {
      assert c !in Without(s.client.calls, num).Keys;
    }
  }

  lemma StartShape(s: System, kind: Kind, call: Call)
    requires Numbers(s) && s.client.counter < MAX_SAFE_INTEGER
    ensures var n := s.client.counter;
            var fnCall := FnCall(n, kind, call, 0);
            StartStep(s, kind, call) ==
            if s.client.stopped then
              s.(client := s.client.(counter := n + 1, effects := s.client.effects +
                   if kind.Promise? then [Effect(n, Reject(NotConnected))] else []))
            else
              s.(client := s.client.(counter := n + 1, calls := s.client.calls[n := fnCall],
                                     sent := s.client.sent + [Start(n, call)]),
                 made := s.made[n := fnCall], place := s.place[n := Starting])
  {
    CounterIsFree(s);
  }

  lemma NoRepliesToNew(s: System, n: nat, k: nat)
    requires Replies(s) && n !in s.made && k <= |s.services.sent|
    ensures RepliesTo(n, s.services.sent[..k]) == []
  {
    if k > 0 {
      NoRepliesToNew(s, n, k - 1);
      assert s.services.sent[..k][..k - 1] == s.services.sent[..k - 1];
    }
  }

  lemma StartStopped(s: System, kind: Kind, call: Call)
    requires Inv(s) && s.client.stopped && s.client.counter < MAX_SAFE_INTEGER
    ensures Inv(StartStep(s, kind, call))
  {
    StartShape(s, kind, call);
    var s' := StartStep(s, kind, call);
    StartStoppedTold(s, s', if kind.Promise? then [Effect(s.client.counter, Reject(NotConnected))] else []);
    SameReplies(s, s');
    MovedRequests(s, s');
  }

  lemma StartStoppedTold(s: System, s': System, more: seq<Effect>)
    requires Numbers(s) && Told(s) && s.client.stopped
    requires more == [] || more == [Effect(s.client.counter, Reject(NotConnected))]
    requires s' == s.(client := s.client.(counter := s.client.counter + 1, effects := s.client.effects + more))
    ensures Told(s')
  {
    forall n ensures SignalsTo(n, s'.client.effects) ==
                     SignalsTo(n, s.client.effects) + SignalsTo(n, more) {
      SignalsAppend(n, s.client.effects, more);
    }
    forall n | n in s.made ensures ToldTo(s', n) {
      assert ToldTo(s, n) && Heard(s', n) == Heard(s, n);
    }
  }

  lemma StartRequests(s: System, n: nat, fnCall: FnCall, s': System)
    requires s.place.Keys == s.made.Keys && Requests(s) && StartedNew(s, n, fnCall, s') && n !in s.made
    ensures s'.made.Keys == s'.place.Keys && Requests(s')
  {
    forall m | m in s'.made && s'.place[m] == Starting
      ensures InTransit(s'.client.sent, s'.taken, Start(m, s'.made[m].call))
    {
      if m == n {
        assert s'.client.sent[|s.client.sent|] == Start(n, fnCall.call);
      } else {
        TransitGrows(s.client.sent, s.taken, Start(m, s.made[m].call), [Start(n, fnCall.call)]);
      }
    }
  }

  /** Side after a new call with number n is started. */
  ghost predicate StartedNew(s: System, n: nat, fnCall: FnCall, s': System) {
    && n == s.client.counter && fnCall.id == n && !s.client.stopped && n < MAX_SAFE_INTEGER
    && s' == s.(client := s.client.(counter := n + 1, calls := s.client.calls[n := fnCall],
                                    sent := s.client.sent + [Start(n, fnCall.call)]),
                made := s.made[n := fnCall], place := s.place[n := Starting])
  }

  lemma StartTold(s: System, n: nat, fnCall: FnCall, s': System)
    requires Inv(s) && StartedNew(s, n, fnCall, s')
    ensures Told(s')
  {
    NoRepliesToNew(s, n, s.heard);
    assert s'.client.effects == s.client.effects;
    forall m | m in s'.made ensures ToldTo(s', m) {
      assert Heard(s', m) == Heard(s, m);
      assert m != n ==> ToldTo(s, m);
    }
  }

  lemma StartReplies(s: System, n: nat, fnCall: FnCall, s': System)
    requires Inv(s) && StartedNew(s, n, fnCall, s')
    ensures Replies(s')
  {
    NoRepliesToNew(s, n, |s.services.sent|);
    assert s.services.sent[..|s.services.sent|] == s.services.sent;
  }

  lemma StartNumbers(s: System, n: nat, fnCall: FnCall, s': System)
    requires Inv(s) && StartedNew(s, n, fnCall, s') && fnCall.duplicates == 0
    ensures Numbers(s')
  {
  }

  lemma StartProcs(s: System, n: nat, fnCall: FnCall, s': System)
    requires Procs(s) && StartedNew(s, n, fnCall, s') && n !in s.place
    ensures Procs(s')
  {
  }

  lemma StartInvocations(s: System, n: nat, fnCall: FnCall, s': System)
    requires s.place.Keys == s.made.Keys && Invocations(s) && StartedNew(s, n, fnCall, s') && n !in s.place
    ensures s'.place.Keys == s'.made.Keys && Invocations(s')
  {
  }

  lemma StartKeepsInv(s: System, kind: Kind, call: Call)
    requires Inv(s)
    ensures Inv(StartStep(s, kind, call))
  {
    if s.client.counter < MAX_SAFE_INTEGER {
      if s.client.stopped {
        StartStopped(s, kind, call);
      } else {
        StartShape(s, kind, call);
        var s', n := StartStep(s, kind, call), s.client.counter;
        StartTold(s, n, FnCall(n, kind, call, 0), s');
        StartReplies(s, n, FnCall(n, kind, call, 0), s');
        StartNumbers(s, n, FnCall(n, kind, call, 0), s');
        StartProcs(s, n, FnCall(n, kind, call, 0), s');
        StartInvocations(s, n, FnCall(n, kind, call, 0), s');
        StartRequests(s, n, FnCall(n, kind, call, 0), s');
      }
    }
  }

  lemma CancelKeepsInv(s: System, num: nat)
    requires Inv(s)
    ensures Inv(CancelStep(s, num))
  {
    var s' := CancelStep(s, num);
    if s' != s {
      SendsCancel(s, num, s');
      assert s'.client.effects == s.client.effects;
    }
  }

  /** Sending of a cancellation does not disturb starts. */
  lemma SendsCancel(s: System, num: nat, s': System)
    requires s.place.Keys == s.made.Keys && Requests(s)
    requires s'.client.sent == s.client.sent + [Cancel(num)]
    requires (s'.place, s'.made, s'.taken) == (s.place, s.made, s.taken)
    ensures Requests(s')
  {
    forall n | n in s'.made && s'.place[n] == Starting
      ensures InTransit(s'.client.sent, s'.taken, Start(n, s'.made[n].call))
    {
      TransitGrows(s.client.sent, s.taken, Start(n, s.made[n].call), [Cancel(num)]);
    }
  }

  // ----------------------------------------------------- clients' side replies

  /** Client hears one more reply, that is to call n. */
  lemma HeardMore(s: System, m: nat)
    requires s.heard < |s.services.sent|
    ensures var r := s.services.sent[s.heard];
            RepliesTo(m, s.services.sent[..s.heard + 1]) ==
            RepliesTo(m, s.services.sent[..s.heard]) + if r.num == m then [r] else []
  {
    assert s.services.sent[..s.heard + 1][..s.heard] == s.services.sent[..s.heard];
  }

  /** Streams of replies close only with their last reply. */
  lemma HeardIsOpen(s: System, n: nat)
    requires Replies(s) && n in s.place && s.heard < |s.services.sent| && s.services.sent[s.heard].num == n
    ensures AllInterim(Heard(s, n))
  {
    var all := RepliesTo(n, s.services.sent);
    RepliesAppend(n, s.services.sent[..s.heard], s.services.sent[s.heard..]);
    assert s.services.sent == s.services.sent[..s.heard] + s.services.sent[s.heard..];
    RepliesAppend(n, [s.services.sent[s.heard]], s.services.sent[s.heard + 1..]);
    assert s.services.sent[s.heard..] == [s.services.sent[s.heard]] + s.services.sent[s.heard + 1..];
    RepliesOfOne(n, n, [s.services.sent[s.heard]]);
    var rest := RepliesTo(n, s.services.sent[s.heard + 1..]);
    assert all == Heard(s, n) + [s.services.sent[s.heard]] + rest;
    assert forall i :: 0 <= i < |Heard(s, n)| ==> Heard(s, n)[i] == all[i];
  }

  /** State after one more reply is processed by clients' side. */
  ghost predicate Saw(s: System, s': System)
    requires s.seen < |s.services.sent|
  {
    var r := s.services.sent[s.seen];
    && s' == s.(client := s'.client, seen := s.seen + 1, heard := if s.client.stopped then s.heard else s.seen + 1)
    && (s'.client.counter, s'.client.stopped) == (s.client.counter, s.client.stopped)
    && if r.num !in s.client.calls then s'.client == s.client
       else
         var kind := s.client.calls[r.num].kind;
         && s'.client.effects == s.client.effects + [Effect(r.num, SignalFor(kind, r))]
         && s'.client.calls == (if kind.Promise? || IsFinal(r) then Without(s.client.calls, r.num) else s.client.calls)
         && s'.client.sent == s.client.sent + (if kind.Promise? && r.Interim? then [Cancel(r.num)] else [])
  }

  lemma SeeShape(s: System)
    requires Inv(s) && s.seen < |s.services.sent|
    ensures Saw(s, SeeStep(s))
  {
    CounterIsFree(s);
    var r := s.services.sent[s.seen];
    assert r.Error? ==> r.err != DuplicateFnCallNum;
  }

  lemma SignalsWithMore(kind: Kind, replies: seq<Reply>, r: Reply)
    requires !IsClosed(kind, replies)
    requires kind.Observable? ==> AllInterim(replies)
    ensures SignalsFor(kind, replies + [r]) == SignalsFor(kind, replies) + [SignalFor(kind, r)]
    ensures IsClosed(kind, replies + [r]) <==> kind.Promise? || IsFinal(r)
  {
  }

  /** The reply is to call m, and m is pending. */
  lemma SeeOwn(s: System, s': System, m: nat)
    requires s.seen < |s.services.sent| && Saw(s, s') && !s.client.stopped && s.heard == s.seen
    requires m in s.client.calls && m in s.made && s.made[m] == s.client.calls[m] && s.services.sent[s.seen].num == m
    requires ToldTo(s, m) && AllInterim(Heard(s, m)) && s'.heard <= |s'.services.sent|
    ensures ToldTo(s', m)
  {
    HeardMore(s, m);
    var r := s.services.sent[s.seen];
    SignalsAppend(m, s.client.effects, [Effect(m, SignalFor(s.made[m].kind, r))]);
    SignalsWithMore(s.made[m].kind, Heard(s, m), r);
  }

  /** The reply is to call m, that is not pending any longer: it is a promise, settled before. */
  lemma SeeLate(s: System, s': System, m: nat)
    requires s.seen < |s.services.sent| && Saw(s, s') && !s.client.stopped && s.heard == s.seen
    requires m !in s.client.calls && m in s.made && s.services.sent[s.seen].num == m
    requires ToldTo(s, m) && AllInterim(Heard(s, m)) && s'.heard <= |s'.services.sent|
    ensures ToldTo(s', m)
  {
    HeardMore(s, m);
    assert s.made[m].kind.Promise?;
  }

  lemma SeeOther(s: System, s': System, m: nat)
    requires s.seen < |s.services.sent| && Saw(s, s') && !s.client.stopped && s.heard == s.seen
    requires m in s.made && s.services.sent[s.seen].num != m
    requires ToldTo(s, m) && s'.heard <= |s'.services.sent|
    ensures ToldTo(s', m)
  {
    HeardMore(s, m);
    var r := s.services.sent[s.seen];
    if r.num in s.client.calls {
      SignalsAppend(m, s.client.effects, [Effect(r.num, SignalFor(s.client.calls[r.num].kind, r))]);
    }
  }

  lemma SeeTold(s: System, s': System)
    requires Inv(s) && s.seen < |s.services.sent| && Saw(s, s')
    ensures Told(s')
  {
    forall m | m in s.made ensures ToldTo(s', m) {
      assert ToldTo(s, m);
      if s.client.stopped {
        assert Heard(s', m) == Heard(s, m);
      } else if s.services.sent[s.seen].num != m {
        SeeOther(s, s', m);
      } else {
        HeardIsOpen(s, m);
        if m in s.client.calls {
          SeeOwn(s, s', m);
        } else {
          SeeLate(s, s', m);
        }
      }
    }
    SeeUnused(s, s');
  }

  lemma SeeUnused(s: System, s': System)
    requires Inv(s) && s.seen < |s.services.sent| && Saw(s, s')
    ensures forall m :: s.client.counter <= m ==> SignalsTo(m, s'.client.effects) == []
  {
    var r := s.services.sent[s.seen];
    if r.num in s.client.calls {
      forall m | s.client.counter <= m ensures SignalsTo(m, s'.client.effects) == [] {
        SignalsAppend(m, s.client.effects, [Effect(r.num, SignalFor(s.made[r.num].kind, r))]);
      }
    }
  }

  lemma SeeRequests(s: System, s': System)
    requires Inv(s) && s.seen < |s.services.sent| && Saw(s, s')
    ensures s'.place.Keys == s'.made.Keys && Requests(s')
  {
    if s'.client.sent != s.client.sent {
      SendsCancel(s, s.services.sent[s.seen].num, s');
    }
  }

  lemma SeeKeepsInv(s: System)
    requires Inv(s)
    ensures Inv(SeeStep(s))
  {
    if s.seen < |s.services.sent| {
      SeeShape(s);
      SawKeepsInv(s, SeeStep(s));
    }
  }

  lemma SawKeepsInv(s: System, s': System)
    requires Inv(s) && s.seen < |s.services.sent| && Saw(s, s')
    ensures Inv(s')
  {
    SeeTold(s, s');
    SeeRequests(s, s');
    SawReplies(s, s');
    assert Numbers(s') && Procs(s') && Invocations(s');
  }

  lemma SawReplies(s: System, s': System)
    requires Replies(s) && s.seen < |s.services.sent| && Saw(s, s')
    ensures Replies(s')
  {
  }

  // ------------------------------------------------------------------- stopping

  /** Each pending call is told about stopping, and no other. */
  lemma StopSignalsAll(s: System, order: seq<nat>)
    requires Numbers(s) && OrderOf(order, s.client.calls.Keys)
    ensures forall m :: SignalsTo(m, s.client.effects + StopSignals(s.client.calls, order)) ==
              SignalsTo(m, s.client.effects) +
              if m in s.client.calls then [SignalError(s.client.calls[m], Stopped).signal] else []
  {
    forall m ensures SignalsTo(m, s.client.effects + StopSignals(s.client.calls, order)) ==
              SignalsTo(m, s.client.effects) +
              if m in s.client.calls then [SignalError(s.client.calls[m], Stopped).signal] else []
    {
      SignalsAppend(m, s.client.effects, StopSignals(s.client.calls, order));
      StopSignalsTo(m, s.client.calls, order);
    }
  }

  lemma StopTold(s: System, order: seq<nat>, s': System)
    requires Numbers(s) && Told(s) && OrderOf(order, s.client.calls.Keys) && !s.client.stopped
    requires s' == s.(client := s.client.(calls := map[], stopped := true,
                                          effects := s.client.effects + StopSignals(s.client.calls, order)))
    ensures Told(s')
  {
    StopSignalsAll(s, order);
    forall m | m in s.made ensures ToldTo(s', m) {
      assert Heard(s', m) == Heard(s, m);
      assert ToldTo(s, m);
    }
  }

  lemma StopClientKeepsInv(s: System, order: seq<nat>)
    requires Inv(s) && OrderOf(order, s.client.calls.Keys)
    ensures Inv(StopClientStep(s, order))
  {
    var s' := StopClientStep(s, order);
    if !s.client.stopped {
      assert s'.client.sent == s.client.sent;
      StopTold(s, order, s');
      assert Numbers(s') && Requests(s') && Procs(s') && Replies(s') && Invocations(s');
    }
  }

  lemma SameTold(s: System, s': System)
    requires Told(s)
    requires (s'.client.calls, s'.client.effects, s'.client.stopped, s'.client.counter) ==
             (s.client.calls, s.client.effects, s.client.stopped, s.client.counter)
    requires s'.made == s.made && s'.heard == s.heard && s'.seen == s.seen
    requires s.services.sent <= s'.services.sent
    ensures Told(s')
  {
    forall m | m in s.made ensures ToldTo(s', m) {
      assert ToldTo(s, m);
      assert s'.services.sent[..s.heard] == s.services.sent[..s.heard];
    }
  }

  lemma SameReplies(s: System, s': System)
    requires Replies(s)
    requires s'.services.sent == s.services.sent && (s'.seen, s'.made, s'.place) == (s.seen, s.made, s.place)
    ensures Replies(s')
  {
  }

  lemma StopServicesKeepsInv(s: System)
    requires Inv(s)
    ensures Inv(StopServicesStep(s))
  {
    var s' := StopServicesStep(s);
    SameTold(s, s');
    StopServicesReplies(s);
    StopServicesProcs(s);
    MovedRequests(s, s');
  }

  lemma StopServicesProcs(s: System)
    requires Numbers(s) && Procs(s)
    ensures Numbers(StopServicesStep(s)) && Procs(StopServicesStep(s))
    ensures s.place.Keys == StopServicesStep(s).place.Keys
  {
  }

  lemma StopServicesReplies(s: System)
    requires Replies(s)
    ensures Replies(StopServicesStep(s))
  {
  }

  // ------------------------------------------------------------- services' steps

  ghost predicate NoDuplicateErrors(replies: seq<Reply>) {
    forall i :: 0 <= i < |replies| && replies[i].Error? ==> replies[i].err != DuplicateFnCallNum
  }

  /** Services send more replies to one call, and move it to another place. */
  lemma RepliesMove(s: System, s': System, num: nat, more: seq<Reply>, place: Place)
    requires Replies(s) && s.place.Keys == s.made.Keys && num in s.place
    requires s'.services.sent == s.services.sent + more && s'.seen == s.seen
    requires s'.made == s.made && s'.place == s.place[num := place]
    requires (forall i :: 0 <= i < |more| ==> more[i].num == num) && NoDuplicateErrors(more)
    requires FitsPlace(place, RepliesTo(num, s.services.sent) + more)
    ensures Replies(s')
  {
    forall n | n in s'.place ensures FitsPlace(s'.place[n], RepliesTo(n, s'.services.sent)) {
      MovedReplies(s.services.sent, n, num, more);
      assert FitsPlace(s.place[n], RepliesTo(n, s.services.sent));
    }
    MovedLog(s, s', more, num);
  }

  lemma MovedReplies(sent: seq<Reply>, n: nat, num: nat, more: seq<Reply>)
    requires forall i :: 0 <= i < |more| ==> more[i].num == num
    ensures RepliesTo(n, sent + more) == if n == num then RepliesTo(n, sent) + more else RepliesTo(n, sent)
  {
    RepliesAppend(n, sent, more);
    RepliesOfOne(n, num, more);
  }

  lemma MovedLog(s: System, s': System, more: seq<Reply>, num: nat)
    requires Replies(s) && num in s.made
    requires s'.services.sent == s.services.sent + more && s'.made == s.made
    requires (forall i :: 0 <= i < |more| ==> more[i].num == num) && NoDuplicateErrors(more)
    ensures forall i :: 0 <= i < |s'.services.sent| ==>
              s'.services.sent[i].num in s'.made &&
              (s'.services.sent[i].Error? ==> s'.services.sent[i].err != DuplicateFnCallNum)
  {
    forall i | 0 <= i < |s'.services.sent|
      ensures s'.services.sent[i].num in s'.made
      ensures s'.services.sent[i].Error? ==> s'.services.sent[i].err != DuplicateFnCallNum
    {
      if i >= |s.services.sent| {
        assert s'.services.sent[i] == more[i - |s.services.sent|];
      }
    }
  }

  lemma EmittedFits(num: nat, before: seq<Reply>, bodies: seq<Body>, ended: Option<Ending>)
    requires AllInterim(before)
    ensures FitsPlace(if ended.Some? then Finished else Dropped, before + Emitted(num, bodies, ended))
    ensures forall i :: 0 <= i < |Emitted(num, bodies, ended)| ==> Emitted(num, bodies, ended)[i].num == num
    ensures ended.None? || !IsDuplicateError(ended.value) ==> NoDuplicateErrors(Emitted(num, bodies, ended))
  {
  }

  /** A running call sends its final reply. */
  lemma FinishKeepsInv(s: System, num: nat, final: Reply, s': System)
    requires Inv(s) && num in s.place && s.place[num].Running?
    requires final.num == num && IsFinal(final) && NoDuplicateErrors([final])
    requires s' == s.(services := Services(s.services.procs - {num}, s.services.sent + [final]),
                      place := s.place[num := Finished])
    ensures Inv(s')
  {
    assert FitsPlace(s.place[num], RepliesTo(num, s.services.sent));
    RepliesMove(s, s', num, [final], Finished);
    SameTold(s, s');
    MovedKeepsRest(s, s', num);
  }

  lemma SettlesKeepsInv(s: System, num: nat, r: Settlement)
    requires Inv(s) && r != Rejected(DuplicateFnCallNum) && IsRunning(s, num, PromiseProc)
    ensures Inv(SettleStep(s, num, r))
  {
    FinishKeepsInv(s, num, if r.Resolved? then End(num, r.body) else Error(num, r.err), SettleStep(s, num, r));
  }

  /** Parts of the invariant that hold after a running call is moved on. */
  lemma MovedKeepsRest(s: System, s': System, num: nat)
    requires Numbers(s) && Requests(s) && Procs(s) && Invocations(s)
    requires num in s.place && s.place[num].Running?
    requires s' == s.(services := s'.services, place := s'.place)
    requires num in s'.place && s'.place == s.place[num := s'.place[num]] && s'.place[num] != Starting
    requires !s'.place[num].Running?
    requires s'.services.procs == s.services.procs - {num}
    ensures Numbers(s') && Requests(s') && Procs(s') && Invocations(s')
  {
    MovedProcs(s, s', num);
    MovedRequests(s, s');
  }

  lemma MovedProcs(s: System, s': System, num: nat)
    requires Procs(s) && num in s.place
    requires s' == s.(services := s'.services, place := s'.place)
    requires num in s'.place && s'.place == s.place[num := s'.place[num]] && !s'.place[num].Running?
    requires s'.services.procs == s.services.procs - {num}
    ensures Procs(s')
  {
  }

  /** No call gets to be starting, or stops being so. */
  lemma MovedRequests(s: System, s': System)
    requires s.place.Keys == s.made.Keys && Requests(s) && Invocations(s)
    requires s'.place.Keys == s.place.Keys
    requires forall n :: n in s.place ==> (s.place[n] == Starting <==> s'.place[n] == Starting)
    requires (s'.client.sent, s'.taken, s'.made, s'.invoked) == (s.client.sent, s.taken, s.made, s.invoked)
    ensures Requests(s') && Invocations(s')
  {
  }

  /** Services only sent something. */
  lemma SentKeepsRest(s: System, s': System)
    requires Numbers(s) && Requests(s) && Procs(s) && Invocations(s)
    requires s' == s.(services := s'.services) && s'.services.procs == s.services.procs
    ensures Numbers(s') && Requests(s') && Procs(s') && Invocations(s')
  {
  }

  lemma EmitsKeepsInv(s: System, num: nat, body: Body)
    requires Inv(s) && IsRunning(s, num, Subscription)
    ensures Inv(EmitStep(s, num, body))
  {
    var s' := EmitStep(s, num, body);
    EmitsReplies(s, num, body, s');
    SameTold(s, s');
    SentKeepsRest(s, s');
  }

  lemma EmitsReplies(s: System, num: nat, body: Body, s': System)
    requires Replies(s) && s.place.Keys == s.made.Keys && num in s.place && s.place[num] == Running(Subscription)
    requires s' == s.(services := AfterItem(s.services, num, body))
    ensures Replies(s')
  {
    assert FitsPlace(s.place[num], RepliesTo(num, s.services.sent));
    assert s.place[num := Running(Subscription)] == s.place;
    RepliesMove(s, s', num, [Interim(num, body)], Running(Subscription));
  }

  lemma EndsKeepsInv(s: System, num: nat, ended: Ending)
    requires Inv(s) && !IsDuplicateError(ended) && IsRunning(s, num, Subscription)
    ensures Inv(EndStep(s, num, ended))
  {
    FinishKeepsInv(s, num, EndOf(num, ended), EndStep(s, num, ended));
  }

  lemma TakenCancel(s: System, num: nat, s1: System)
    requires Inv(s) && s.taken < |s.client.sent| && s.client.sent[s.taken] == Cancel(num)
    requires s1 == s.(taken := s.taken + 1)
    ensures Inv(s1)
  {
    CancelKeepsRequests(s, num);
    SameReplies(s, s1);
    SameTold(s, s1);
    TakenKeepsRest(s, s1);
  }

  lemma TakenKeepsRest(s: System, s1: System)
    requires Numbers(s) && Procs(s) && Invocations(s) && s1 == s.(taken := s.taken + 1)
    ensures Numbers(s1) && Procs(s1) && Invocations(s1)
  {
  }

  lemma CancelIsTaken(s: System, num: nat, late: seq<Body>, lateEnd: Option<Ending>, s': System)
    requires Inv(s) && s.taken < |s.client.sent| && s.client.sent[s.taken] == Cancel(num)
    requires lateEnd.Some? ==> !IsDuplicateError(lateEnd.value)
    requires
      var s1 := s.(taken := s.taken + 1);
      s' == if num !in s.services.procs then s1
            else if s.services.procs[num].PromiseProc? then
              s1.(services := s.services.(procs := s.services.procs - {num}))
            else s1.(services := Sends(s.services, Emitted(num, late, lateEnd)).(procs := s.services.procs - {num}),
                     place := s.place[num := if lateEnd.Some? then Finished else Dropped])
    ensures Inv(s')
  {
    var s1 := s.(taken := s.taken + 1);
    TakenCancel(s, num, s1);
    if num in s.services.procs {
      if s.services.procs[num].Subscription? {
        CancelsSubscription(s1, num, late, lateEnd, s');
      } else {
        ForgetsPromise(s1, num, s');
      }
    }
  }

  lemma CancelsSubscription(s: System, num: nat, late: seq<Body>, lateEnd: Option<Ending>, s': System)
    requires Inv(s) && num in s.services.procs && s.services.procs[num].Subscription?
    requires lateEnd.Some? ==> !IsDuplicateError(lateEnd.value)
    requires s' == s.(services := Sends(s.services, Emitted(num, late, lateEnd)).(procs := s.services.procs - {num}),
                      place := s.place[num := if lateEnd.Some? then Finished else Dropped])
    ensures Inv(s')
  {
    assert FitsPlace(s.place[num], RepliesTo(num, s.services.sent));
    EmittedFits(num, RepliesTo(num, s.services.sent), late, lateEnd);
    RepliesMove(s, s', num, Emitted(num, late, lateEnd), if lateEnd.Some? then Finished else Dropped);
    SameTold(s, s');
    MovedKeepsRest(s, s', num);
  }

  /** A promise goes on, and its outcome is still sent. */
  lemma ForgetsPromise(s: System, num: nat, s': System)
    requires Inv(s) && num in s.services.procs && s.services.procs[num].PromiseProc?
    requires s' == s.(services := s.services.(procs := s.services.procs - {num}))
    ensures Inv(s')
  {
    SameTold(s, s');
    SameReplies(s, s');
    ForgetsProc(s, num, s');
  }

  lemma ForgetsProc(s: System, num: nat, s': System)
    requires Numbers(s) && Requests(s) && Procs(s) && Invocations(s)
    requires num in s.services.procs && s.services.procs[num].PromiseProc?
    requires s' == s.(services := s.services.(procs := s.services.procs - {num}))
    ensures Numbers(s') && Requests(s') && Procs(s') && Invocations(s')
  {
    MovedRequests(s, s');
    assert Numbers(s') && Procs(s');
  }

  lemma CancelKeepsRequests(s: System, num: nat)
    requires s.place.Keys == s.made.Keys && Requests(s)
    requires s.taken < |s.client.sent| && s.client.sent[s.taken] == Cancel(num)
    ensures Requests(s.(taken := s.taken + 1))
  {
    forall n | n in s.made && s.place[n] == Starting
      ensures InTransit(s.client.sent, s.taken + 1, Start(n, s.made[n].call))
    {
      TransitMoves(s.client.sent, s.taken, Start(n, s.made[n].call));
    }
  }

  function RepliesAtStart(num: nat, out: FnOut): seq<Reply> {
    match out
    case Throws(err) => [Error(num, err)]
    case GivesObservable(early, _) => Emitted(num, early, None)
    case _ => []
  }

  function ProcsAtStart(procs: map<nat, Proc>, num: nat, out: FnOut): map<nat, Proc> {
    match out
    case GivesPromise => procs[num := PromiseProc]
    case GivesObservable(_, _) => procs[num := Subscription]
    case _ => procs
  }

  lemma StartFits(num: nat, out: FnOut)
    requires out.GivesObservable? ==> out.ended.None?
    requires out != Throws(DuplicateFnCallNum)
    ensures FitsPlace(PlaceAfterStart(out), RepliesAtStart(num, out))
    ensures forall i :: 0 <= i < |RepliesAtStart(num, out)| ==> RepliesAtStart(num, out)[i].num == num
    ensures NoDuplicateErrors(RepliesAtStart(num, out))
  {
    if out.GivesObservable? {
      EmittedFits(num, [], out.early, None);
      assert [] + Emitted(num, out.early, None) == Emitted(num, out.early, None);
    }
  }

  ghost predicate Took(s: System, s': System, num: nat, call: Call, out: FnOut) {
    s' == s.(services := Services(ProcsAtStart(s.services.procs, num, out), s.services.sent + RepliesAtStart(num, out)),
             taken := s.taken + 1, place := s.place[num := PlaceAfterStart(out)], invoked := s.invoked + [(num, call)])
  }

  lemma TakeStartShape(s: System, num: nat, call: Call, out: FnOut, late: seq<Body>, lateEnd: Option<Ending>)
    requires s.place.Keys == s.made.Keys && Requests(s) && Procs(s) && s.servicesUp
    requires s.taken < |s.client.sent| && s.client.sent[s.taken] == Start(num, call)
    requires out.GivesObservable? ==> out.ended.None?
    ensures num in s.place && s.place[num] == Starting && s.made[num].call == call && num !in s.services.procs
    ensures Took(s, TakeStep(s, out, late, lateEnd), num, call, out)
  {
    assert s.client.sent[s.taken].Start?;
    assert s.services.sent + [] == s.services.sent;
  }

  lemma StartIsTaken(s: System, num: nat, call: Call, out: FnOut, late: seq<Body>, lateEnd: Option<Ending>)
    requires Inv(s) && s.servicesUp && s.taken < |s.client.sent| && s.client.sent[s.taken] == Start(num, call)
    requires out.GivesObservable? ==> out.ended.None?
    requires out != Throws(DuplicateFnCallNum)
    ensures Inv(TakeStep(s, out, late, lateEnd))
  {
    TakeStartShape(s, num, call, out, late, lateEnd);
    TookKeepsInv(s, TakeStep(s, out, late, lateEnd), num, call, out);
  }

  lemma TookKeepsInv(s: System, s': System, num: nat, call: Call, out: FnOut)
    requires Inv(s) && s.servicesUp && s.taken < |s.client.sent| && s.client.sent[s.taken] == Start(num, call)
    requires out.GivesObservable? ==> out.ended.None?
    requires out != Throws(DuplicateFnCallNum)
    requires num in s.place && s.place[num] == Starting && s.made[num].call == call
    requires num !in s.services.procs && Took(s, s', num, call, out)
    ensures Inv(s')
  {
    assert FitsPlace(s.place[num], RepliesTo(num, s.services.sent));
    StartFits(num, out);
    assert RepliesTo(num, s.services.sent) + RepliesAtStart(num, out) == RepliesAtStart(num, out);
    RepliesMove(s, s', num, RepliesAtStart(num, out), PlaceAfterStart(out));
    SameTold(s, s');
    TookRequests(s, s', num, call, out);
    TookProcs(s, s', num, call, out);
    TookInvocations(s, s', num, call, out);
  }

  lemma TookRequests(s: System, s': System, num: nat, call: Call, out: FnOut)
    requires s.place.Keys == s.made.Keys && Requests(s) && num in s.place
    requires s.taken < |s.client.sent| && s.client.sent[s.taken] == Start(num, call)
    requires Took(s, s', num, call, out)
    ensures s'.place.Keys == s'.made.Keys && Requests(s')
  {
    assert s.client.sent[s.taken].Start?;
    forall n | n in s'.made && s'.place[n] == Starting
      ensures InTransit(s.client.sent, s.taken + 1, Start(n, s.made[n].call))
    {
      TransitMoves(s.client.sent, s.taken, Start(n, s.made[n].call));
    }
  }

  lemma TookProcs(s: System, s': System, num: nat, call: Call, out: FnOut)
    requires Numbers(s) && Procs(s) && s.servicesUp
    requires num in s.place && s.place[num] == Starting && num !in s.services.procs && Took(s, s', num, call, out)
    ensures Numbers(s') && Procs(s')
  {
  }

  lemma TookInvocations(s: System, s': System, num: nat, call: Call, out: FnOut)
    requires s.place.Keys == s.made.Keys && Invocations(s)
    requires num in s.place && s.place[num] == Starting && s.made[num].call == call && Took(s, s', num, call, out)
    ensures s'.place.Keys == s'.made.Keys && Invocations(s')
  {
  }

  lemma TakeKeepsInv(s: System, out: FnOut, late: seq<Body>, lateEnd: Option<Ending>)
    requires Inv(s) && Expected(TakeRequest(out, late, lateEnd))
    ensures Inv(TakeStep(s, out, late, lateEnd))
  {
    if s.servicesUp && s.taken < |s.client.sent| {
      match s.client.sent[s.taken]
      case Start(num, call) => StartIsTaken(s, num, call, out, late, lateEnd);
      case Cancel(num) => CancelIsTaken(s, num, late, lateEnd, TakeStep(s, out, late, lateEnd));
    }
  }

  lemma NextKeepsInv(s: System, a: Action)
    requires Inv(s)
    ensures Inv(Step(s, a))
  {
    if Expected(a) {
      match a
      case StartCall(kind, call) => StartKeepsInv(s, kind, call);
      case CancelCall(num) => CancelKeepsInv(s, num);
      case TakeRequest(out, late, lateEnd) => TakeKeepsInv(s, out, late, lateEnd);
      case Settles(num, r) =>
        if IsRunning(s, num, PromiseProc) {
          SettlesKeepsInv(s, num, r);
        }
      case Emits(num, body) =>
        if IsRunning(s, num, Subscription) {
          EmitsKeepsInv(s, num, body);
        }
      case Ends(num, ended) =>
        if IsRunning(s, num, Subscription) {
          EndsKeepsInv(s, num, ended);
        }
      case SeeReply => SeeKeepsInv(s);
      case StopClient(order) =>
        if OrderOf(order, s.client.calls.Keys) {
          StopClientKeepsInv(s, order);
        }
      case StopServices => StopServicesKeepsInv(s);
    }
  }

  lemma {:induction false} RunKeepsInv(actions: seq<Action>)
    ensures Inv(Run(actions))
  {
    if |actions| == 0 {
      InitialInv();
    } else {
      RunKeepsInv(actions[..|actions| - 1]);
      NextKeepsInv(Run(actions[..|actions| - 1]), actions[|actions| - 1]);
    }
  }
}
