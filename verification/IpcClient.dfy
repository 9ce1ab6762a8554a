/** Clients' side of a connector: the table of pending calls, numbering of calls, replies and stopping. */
module IpcClient {
  import opened Wrappers

  /** Largest number up to which integers are exact in a 64-bit float. */
  const MAX_SAFE_INTEGER: nat := 0x1F_FFFF_FFFF_FFFF

  const MAX_DUPLICATE_ATTEMPTS := 100

  type Body = string

  /** Path of a function together with bytes of a call's argument. */
  type Call = string

  datatype IpcError = DuplicateFnCallNum | NotConnected | Stopped | Failed(msg: string)

  datatype Request = Start(num: nat, call: Call) | Cancel(num: nat)

  datatype Reply = Interim(num: nat, body: Body) | End(num: nat, body: Body) | Error(num: nat, err: IpcError)

  datatype Kind = Promise | Observable

  /** A pending call; id tells deferred objects and observers of different calls apart. */
  datatype FnCall = FnCall(id: nat, kind: Kind, call: Call, duplicates: nat)

  datatype Signal = Resolve(body: Body) | Reject(err: IpcError) | Next(body: Body) | Complete | Fail(err: IpcError)

  /** A signal given to deferred or to observer of a call. */
  datatype Effect = Effect(id: nat, signal: Signal)

  /** State of the side, with logs of messages given to its sink, and of signals given to its callers. */
  datatype Client = Client(
    calls: map<nat, FnCall>,
    counter: nat,
    stopped: bool,
    sent: seq<Request>,
    effects: seq<Effect>)

  // ------------------------------------------------------------------ numbering

  /** Adding one in 64-bit floats: 2^53 + 1 rounds to 2^53. */
  function FloatIncrement(n: nat): nat {
    if n <= MAX_SAFE_INTEGER then n + 1 else n
  }

  function NextInCycle(n: nat): nat {
    if n < MAX_SAFE_INTEGER then n + 1 else 1
  }

  /** Number of steps in the cycle from n to a free number. */
  function CyclicDistance(n: nat, free: nat): nat
    requires 1 <= free <= MAX_SAFE_INTEGER && n <= MAX_SAFE_INTEGER + 1
  {
    if n <= free then free - n
    else if n <= MAX_SAFE_INTEGER then MAX_SAFE_INTEGER - n + free
    else free
  }

  /** The first number, starting from n, that is not taken. */
  function FirstFree(taken: set<nat>, n: nat, ghost free: nat): (num: nat)
    requires 1 <= free <= MAX_SAFE_INTEGER && free !in taken && n <= MAX_SAFE_INTEGER + 1
    ensures num !in taken && num <= MAX_SAFE_INTEGER + 1
    ensures n >= 1 ==> num >= 1
    ensures n !in taken ==> num == n
    decreases CyclicDistance(n, free)
  {
    if n !in taken then n else FirstFree(taken, NextInCycle(n), free)
  }

  /** Numbers from one to n do not fit into a smaller set. */
  lemma {:induction false} SomeNumberIsFree(taken: set<nat>, n: nat) returns (free: nat)
    requires |taken| < n
    ensures 1 <= free <= n && free !in taken
  {
    if n !in taken {
      free := n;
    } else {
      free := SomeNumberIsFree(taken - {n}, n - 1);
    }
  }

  /** Any free number that measures the search gives the same result. */
  lemma {:induction false} FirstFreeIsOne(taken: set<nat>, n: nat, free: nat, free': nat)
    requires 1 <= free <= MAX_SAFE_INTEGER && free !in taken && n <= MAX_SAFE_INTEGER + 1
    requires 1 <= free' <= MAX_SAFE_INTEGER && free' !in taken
    ensures FirstFree(taken, n, free) == FirstFree(taken, n, free')
    decreases CyclicDistance(n, free)
  {
    if n in taken {
      FirstFreeIsOne(taken, NextInCycle(n), free, free');
    }
  }

  ghost predicate HasFree(taken: set<nat>) {
    exists free: nat :: 1 <= free <= MAX_SAFE_INTEGER && free !in taken
  }

  /** Number for a new call. */
  ghost function NextNum(taken: set<nat>, n: nat): (num: nat)
    requires HasFree(taken) && n <= MAX_SAFE_INTEGER + 1
    ensures num !in taken && num <= MAX_SAFE_INTEGER + 1
    ensures n >= 1 ==> num >= 1
    ensures n !in taken ==> num == n
  {
    var free: nat :| 1 <= free <= MAX_SAFE_INTEGER && free !in taken;
    FirstFree(taken, n, free)
  }

  // ------------------------------------------------------------ what calls do

  function With(c: Client, sent: seq<Request>, effects: seq<Effect>): Client {
    c.(sent := c.sent + sent, effects := c.effects + effects)
  }

  function Without(calls: map<nat, FnCall>, num: nat): map<nat, FnCall> {
    calls - {num}
  }

  function SignalError(call: FnCall, err: IpcError): Effect {
    Effect(call.id, if call.kind.Promise? then Reject(err) else Fail(err))
  }

  /** An item of an observable; a promise gets it as its value, and the call is cancelled. */
  function AfterInterim(c: Client, num: nat, body: Body): Client {
    if num !in c.calls then c else
    var call := c.calls[num];
    match call.kind
    case Observable => With(c, [], [Effect(call.id, Next(body))])
    case Promise => With(c, [Cancel(num)], [Effect(call.id, Resolve(body))]).(calls := Without(c.calls, num))
  }

  function AfterEnd(c: Client, num: nat, body: Body): Client {
    if num !in c.calls then c else
    var call := c.calls[num];
    With(c, [], [Effect(call.id, if call.kind.Observable? then Complete else Resolve(body))])
      .(calls := Without(c.calls, num))
  }

  ghost predicate CanNumber(c: Client) {
    HasFree(c.calls.Keys) && 1 <= c.counter <= MAX_SAFE_INTEGER + 1
  }

  /** A call is put under a new number, and its start is sent; sendOk tells if the sink takes the message. */
  ghost function Started(c: Client, call: FnCall, sendOk: bool): Client
    requires CanNumber(c)
  {
    var num := NextNum(c.calls.Keys, c.counter);
    var numbered := c.(counter := FloatIncrement(num));
    if sendOk then With(numbered, [Start(num, call.call)], []).(calls := c.calls[num := call])
    else With(numbered, [], [SignalError(call, Failed("sink"))])
  }

  /** A call with a number, that services side has already in use, is repeated under another number. */
  ghost function AfterError(c: Client, num: nat, err: IpcError, sendOk: bool): Client
    requires CanNumber(c.(calls := Without(c.calls, num)))
  {
    if num !in c.calls then c else
    var call := c.calls[num];
    var c1 := c.(calls := Without(c.calls, num));
    if err != DuplicateFnCallNum then With(c1, [], [SignalError(call, err)])
    else if call.duplicates > 0 && call.duplicates + 1 >= MAX_DUPLICATE_ATTEMPTS then c1
    else Started(c1, call.(duplicates := call.duplicates + 1), sendOk)
  }

  /** A pending call leaves the table under all numbers, and its caller is told nothing. */
  ghost predicate LeftUnsettled(c: Client, num: nat, c': Client)
    requires num in c.calls
  {
    c'.effects == c.effects && forall n :: n in c'.calls ==> c'.calls[n].id != c.calls[num].id
  }

  /** An error leaves a call unsettled exactly when it is about a duplicate number, and attempts are used up. */
  lemma UnsettledWhenUsedUp(c: Client, num: nat, err: IpcError, sendOk: bool)
    requires num in c.calls && CanNumber(c.(calls := Without(c.calls, num)))
    requires forall n :: n in c.calls && n != num ==> c.calls[n].id != c.calls[num].id
    ensures LeftUnsettled(c, num, AfterError(c, num, err, sendOk)) <==>
            err == DuplicateFnCallNum && c.calls[num].duplicates >= MAX_DUPLICATE_ATTEMPTS - 1
  {
    var call := c.calls[num];
    var c1 := c.(calls := Without(c.calls, num));
    var c' := AfterError(c, num, err, sendOk);
    if err != DuplicateFnCallNum || (call.duplicates < MAX_DUPLICATE_ATTEMPTS - 1 && !sendOk) {
      assert |c'.effects| == |c.effects| + 1;
    } else if call.duplicates < MAX_DUPLICATE_ATTEMPTS - 1 {
      var next := NextNum(c1.calls.Keys, c1.counter);
      assert next in c'.calls && c'.calls[next].id == call.id;
    }
  }

  /** Errors about duplicate numbers, one after another. */
  ghost function AfterDuplicates(c: Client, nums: seq<nat>): Client
    decreases |nums|
  {
    if |nums| == 0 then c
    else if !CanNumber(c.(calls := Without(c.calls, nums[0]))) then AfterDuplicates(c, nums[1..])
    else AfterDuplicates(AfterError(c, nums[0], DuplicateFnCallNum, true), nums[1..])
  }

  lemma FewCallsCanNumber(c: Client, num: nat)
    requires num in c.calls && |c.calls| <= MAX_SAFE_INTEGER && 1 <= c.counter <= MAX_SAFE_INTEGER + 1
    ensures CanNumber(c.(calls := Without(c.calls, num)))
  {
    var rest := Without(c.calls, num);
    assert rest.Keys == c.calls.Keys - {num};
    assert |rest.Keys| < MAX_SAFE_INTEGER;
    var free := SomeNumberIsFree(rest.Keys, MAX_SAFE_INTEGER);
    assert 1 <= free <= MAX_SAFE_INTEGER && free !in rest.Keys;
  }

  /** A call that was tried for some times is left unsettled by the rest of a hundred errors. */
  lemma {:induction false} AttemptsUseUp(c: Client, num: nat) returns (nums: seq<nat>)
    requires num in c.calls && c.calls[num].duplicates < MAX_DUPLICATE_ATTEMPTS
    requires |c.calls| <= MAX_SAFE_INTEGER && 1 <= c.counter <= MAX_SAFE_INTEGER + 1
    ensures |nums| == MAX_DUPLICATE_ATTEMPTS - c.calls[num].duplicates
    ensures AfterDuplicates(c, nums).effects == c.effects
    ensures AfterDuplicates(c, nums).calls == Without(c.calls, num)
    decreases MAX_DUPLICATE_ATTEMPTS - c.calls[num].duplicates
  {
    FewCallsCanNumber(c, num);
    var call := c.calls[num];
    var c1 := AfterError(c, num, DuplicateFnCallNum, true);
    if call.duplicates == MAX_DUPLICATE_ATTEMPTS - 1 {
      nums := [num];
      assert nums[1..] == [] && AfterDuplicates(c, nums) == AfterDuplicates(c1, []);
    } else {
      var rest := Without(c.calls, num);
      var next := NextNum(rest.Keys, c.counter);
      assert c1.calls == rest[next := call.(duplicates := call.duplicates + 1)];
      assert c1.calls.Keys == rest.Keys + {next} && rest.Keys == c.calls.Keys - {num};
      var more := AttemptsUseUp(c1, next);
      nums := [num] + more;
      assert nums[1..] == more && Without(c1.calls, next) == rest;
    }
  }

  /** A promise call that gets a hundred errors about its numbers is never settled. */
  lemma HundredDuplicatesLeaveUnsettled(c: Client, id: nat, call: Call) returns (num: nat, nums: seq<nat>)
    requires CanNumber(c) && !c.stopped && |c.calls| < MAX_SAFE_INTEGER
    ensures var started := AfterStartPromise(c, id, call, true);
            && num in started.calls && started.calls[num] == FnCall(id, Promise, call, 0)
            && |nums| == MAX_DUPLICATE_ATTEMPTS
            && AfterDuplicates(started, nums).effects == c.effects
            && AfterDuplicates(started, nums).calls == c.calls
  {
    num := NextNum(c.calls.Keys, c.counter);
    var started := AfterStartPromise(c, id, call, true);
    assert started.calls == c.calls[num := FnCall(id, Promise, call, 0)];
    assert started.calls.Keys == c.calls.Keys + {num};
    nums := AttemptsUseUp(started, num);
    assert Without(started.calls, num) == c.calls;
  }

  ghost function AfterStartPromise(c: Client, id: nat, call: Call, sendOk: bool): Client
    requires CanNumber(c)
  {
    if c.stopped then
      With(c, [], [Effect(id, Reject(NotConnected))]).(counter := FloatIncrement(NextNum(c.calls.Keys, c.counter)))
    else
      Started(c, FnCall(id, Promise, call, 0), sendOk)
  }

  /** An observable call that can't be started throws, instead of signalling to observer. */
  ghost function AfterStartObservable(c: Client, id: nat, call: Call, sendOk: bool): Client
    requires CanNumber(c)
  {
    if c.stopped || !sendOk then
      c.(counter := FloatIncrement(NextNum(c.calls.Keys, c.counter)))
    else
      Started(c, FnCall(id, Observable, call, 0), true)
  }

  /** Signals to calls with given numbers, in some order of these numbers. */
  function StopSignals(calls: map<nat, FnCall>, order: seq<nat>): seq<Effect>
    requires forall num :: num in order ==> num in calls
  {
    if |order| == 0 then []
    else StopSignals(calls, order[..|order| - 1]) + [SignalError(calls[order[|order| - 1]], Stopped)]
  }

  /** Order in which numbers are, each of them once. */
  ghost predicate OrderOf(order: seq<nat>, nums: set<nat>) {
    && (forall num :: num in order <==> num in nums)
    && (forall i, j :: 0 <= i < j < |order| ==> order[i] != order[j])
  }

  ghost function AfterStop(c: Client, order: seq<nat>): Client
    requires OrderOf(order, c.calls.Keys)
  {
    if c.stopped then c
    else With(c, [], StopSignals(c.calls, order)).(calls := map[], stopped := true)
  }

  // ---------------------------------------------------------------------- class

  class ClientsSideImpl {
    var fnCalls: map<nat, FnCall>
    var fnCallCounter: nat
    var isStopped: bool
    var sent: seq<Request>
    var effects: seq<Effect>

    ghost function State(): Client
      reads this
    {
      Client(fnCalls, fnCallCounter, isStopped, sent, effects)
    }

    constructor ()
      ensures State() == Client(map[], 1, false, [], [])
    {
      fnCalls, fnCallCounter, isStopped, sent, effects := map[], 1, false, [], [];
    }

    method Notify(id: nat, signal: Signal)
      modifies `effects
      ensures effects == old(effects) + [Effect(id, signal)]
    {
      effects := effects + [Effect(id, signal)];
    }

    /** The sink may throw, in which case nothing is sent. */
    method SendMsg(msg: Request, sendOk: bool) returns (ok: bool)
      modifies `sent
      ensures ok == sendOk && sent == old(sent) + if sendOk then [msg] else []
    {
      if sendOk {
        sent := sent + [msg];
      }
      ok := sendOk;
    }

    method NextFnCallNum() returns (num: nat)
      requires HasFree(fnCalls.Keys) && fnCallCounter <= MAX_SAFE_INTEGER + 1
      modifies `fnCallCounter
      ensures num == NextNum(fnCalls.Keys, old(fnCallCounter)) && fnCallCounter == FloatIncrement(num)
      ensures num !in fnCalls && num <= fnCallCounter <= MAX_SAFE_INTEGER + 1
    {
      ghost var taken := fnCalls.Keys;
      ghost var free: nat :| 1 <= free <= MAX_SAFE_INTEGER && free !in taken;
      while fnCallCounter in fnCalls
        invariant fnCallCounter <= MAX_SAFE_INTEGER + 1
        invariant FirstFree(taken, fnCallCounter, free) == FirstFree(taken, old(fnCallCounter), free)
        decreases CyclicDistance(fnCallCounter, free)
      {
        if fnCallCounter < MAX_SAFE_INTEGER {
          fnCallCounter := fnCallCounter + 1;
        } else {
          fnCallCounter := 1;
        }
      }
      num := fnCallCounter;
      fnCallCounter := FloatIncrement(fnCallCounter);
      assert num == NextNum(taken, old(fnCallCounter)) by {
        var free': nat :| 1 <= free' <= MAX_SAFE_INTEGER && free' !in taken
          && NextNum(taken, old(fnCallCounter)) == FirstFree(taken, old(fnCallCounter), free');
        FirstFreeIsOne(taken, old(fnCallCounter), free, free');
      }
    }

    method ProcessInterimCallReply(num: nat, body: Body)
      modifies this
      ensures State() == AfterInterim(old(State()), num, body)
      ensures num in old(fnCalls) && old(fnCalls)[num].kind.Promise? ==>
                && num !in fnCalls && sent == old(sent) + [Cancel(num)]
                && effects == old(effects) + [Effect(old(fnCalls)[num].id, Resolve(body))]
      ensures num in old(fnCalls) && old(fnCalls)[num].kind.Observable? ==>
                && fnCalls == old(fnCalls) && sent == old(sent)
                && effects == old(effects) + [Effect(old(fnCalls)[num].id, Next(body))]
    {
      if num !in fnCalls {
        return;
      }
      var call := fnCalls[num];
      if call.kind.Observable? {
        Notify(call.id, Next(body));
      } else {
        Notify(call.id, Resolve(body));
        var _ := SendMsg(Cancel(num), true);
        fnCalls := Without(fnCalls, num);
      }
    }

    method ProcessEndCallReply(num: nat, body: Body)
      modifies this
      ensures State() == AfterEnd(old(State()), num, body)
    {
      if num !in fnCalls {
        return;
      }
      var call := fnCalls[num];
      if call.kind.Observable? {
        Notify(call.id, Complete);
      } else {
        Notify(call.id, Resolve(body));
      }
      fnCalls := Without(fnCalls, num);
    }

    method ProcessCallError(num: nat, err: IpcError, sendOk: bool)
      requires CanNumber(State().(calls := Without(fnCalls, num)))
      modifies this
      ensures State() == AfterError(old(State()), num, err, sendOk)
    {
      if num !in fnCalls {
        return;
      }
      var call := fnCalls[num];
      fnCalls := Without(fnCalls, num);
      if err == DuplicateFnCallNum {
        RetryWithOtherCallNum(call, sendOk);
      } else if call.kind.Observable? {
        Notify(call.id, Fail(err));
      } else {
        Notify(call.id, Reject(err));
      }
    }

    method RetryWithOtherCallNum(failed: FnCall, sendOk: bool)
      requires CanNumber(State())
      modifies this
      ensures State() ==
              if failed.duplicates > 0 && failed.duplicates + 1 >= MAX_DUPLICATE_ATTEMPTS then old(State())
              else Started(old(State()), failed.(duplicates := failed.duplicates + 1), sendOk)
      ensures failed.duplicates + 1 >= MAX_DUPLICATE_ATTEMPTS ==> fnCalls == old(fnCalls) && sent == old(sent)
      ensures failed.duplicates + 1 < MAX_DUPLICATE_ATTEMPTS && sendOk ==>
                exists num :: num !in old(fnCalls)
                  && fnCalls == old(fnCalls)[num := failed.(duplicates := failed.duplicates + 1)]
                  && sent == old(sent) + [Start(num, failed.call)] && effects == old(effects)
      ensures failed.duplicates + 1 < MAX_DUPLICATE_ATTEMPTS && !sendOk ==>
                && fnCalls == old(fnCalls) && sent == old(sent)
                && |effects| == |old(effects)| + 1 && effects[|effects| - 1].id == failed.id
    {
      var call := failed;
      if call.duplicates != 0 {
        call := call.(duplicates := call.duplicates + 1);
        if call.duplicates >= MAX_DUPLICATE_ATTEMPTS {
          return;
        }
      } else {
        call := call.(duplicates := 1);
      }
      var num := NextFnCallNum();
      ghost var before := fnCalls;
      fnCalls := fnCalls[num := call];
      var ok := SendMsg(Start(num, call.call), sendOk);
      if !ok {
        fnCalls := Without(fnCalls, num);
        assert fnCalls == before;
        if call.kind.Promise? {
          Notify(call.id, Reject(Failed("sink")));
        } else {
          Notify(call.id, Fail(Failed("sink")));
        }
      }
    }

    /** Puts a call into the table under a new number. */
    method SetupFnCall(call: FnCall) returns (num: nat)
      requires CanNumber(State())
      modifies `fnCalls, `fnCallCounter
      ensures num == NextNum(old(fnCalls).Keys, old(fnCallCounter)) && fnCallCounter == FloatIncrement(num)
      ensures fnCalls == old(fnCalls)[num := call]
    {
      num := NextFnCallNum();
      fnCalls := fnCalls[num := call];
    }

    method StartPromiseCall(id: nat, call: Call, sendOk: bool)
      requires CanNumber(State())
      modifies this
      ensures State() == AfterStartPromise(old(State()), id, call, sendOk)
      ensures old(isStopped) || !sendOk ==>
                && fnCalls == old(fnCalls) && sent == old(sent)
                && effects == old(effects) + [Effect(id, Reject(if isStopped then NotConnected else Failed("sink")))]
      ensures !old(isStopped) && sendOk ==>
                && effects == old(effects)
                && exists num :: num !in old(fnCalls)
                     && fnCalls == old(fnCalls)[num := FnCall(id, Promise, call, 0)]
                     && sent == old(sent) + [Start(num, call)]
    {
      ghost var before := fnCalls;
      var num := SetupFnCall(FnCall(id, Promise, call, 0));
      var ok := false;
      if !isStopped {
        ok := SendMsg(Start(num, call), sendOk);
      }
      if !ok {
        fnCalls := Without(fnCalls, num);
        assert fnCalls == before;
        Notify(id, Reject(if isStopped then NotConnected else Failed("sink")));
      }
    }

    method StartObservableCall(id: nat, call: Call, sendOk: bool) returns (started: bool)
      requires CanNumber(State())
      modifies this
      ensures State() == AfterStartObservable(old(State()), id, call, sendOk)
      ensures started == (!old(isStopped) && sendOk)
      ensures effects == old(effects)
      ensures !started ==> fnCalls == old(fnCalls) && sent == old(sent)
      ensures started ==>
                exists num :: num !in old(fnCalls)
                  && fnCalls == old(fnCalls)[num := FnCall(id, Observable, call, 0)]
                  && sent == old(sent) + [Start(num, call)]
    {
      ghost var before := fnCalls;
      var num := SetupFnCall(FnCall(id, Observable, call, 0));
      started := false;
      if !isStopped {
        started := SendMsg(Start(num, call), sendOk);
      }
      if !started {
        fnCalls := Without(fnCalls, num);
        assert fnCalls == before;
      }
    }

    /** Calls are failed one after another, in the order in which the map gives them. */
    method Stop() returns (ghost order: seq<nat>)
      modifies this
      ensures OrderOf(order, old(fnCalls).Keys)
      ensures State() == AfterStop(old(State()), order)
    {
      order := [];
      if isStopped {
        order := SomeOrder(fnCalls.Keys);
        return;
      }
      isStopped := true;
      var left := fnCalls.Keys;
      while left != {}
        invariant left <= fnCalls.Keys && OrderOf(order, fnCalls.Keys - left)
        invariant fnCalls == old(fnCalls) && isStopped && sent == old(sent) && fnCallCounter == old(fnCallCounter)
        invariant effects == old(effects) + StopSignals(fnCalls, order)
        decreases left
      {
        var num :| num in left;
        var call := fnCalls[num];
        if call.kind.Promise? {
          Notify(call.id, Reject(Stopped));
        } else {
          Notify(call.id, Fail(Stopped));
        }
        left := left - {num};
        assert (order + [num])[..|order|] == order;
        order := order + [num];
      }
      assert fnCalls.Keys - left == fnCalls.Keys;
      fnCalls := map[];
    }
  }

  lemma SomeOrder(nums: set<nat>) returns (order: seq<nat>)
    ensures OrderOf(order, nums)
  {
    order := [];
    if nums != {} {
      var num :| num in nums;
      order := SomeOrder(nums - {num});
      order := order + [num];
    }
  }
}
