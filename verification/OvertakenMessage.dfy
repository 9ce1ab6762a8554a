/** A run, in which a message that others overtook can no longer be opened. */
module OvertakenMessage {
  import opened KeyMaterial
  import opened RatchetProtocol
  import opened RatchetProofs
  import opened RatchetRuns

  function FivePids(c: char): seq<Pid> {
    [[c, '0'], [c, '1'], [c, '2'], [c, '3'], [c, '4']]
  }

  /** A send at a time, for which pids of a new pair start with c. */
  function SendAt(now: int, key: KeyId, c: char): Action {
    Send(now, 0, key, key + 1, FivePids(c), 0)
  }

  lemma Then(steps: seq<Step>, s: System, step: Step) returns (more: seq<Step>, s': System)
    requires s == Run(Initial("A", "B"), steps)
    ensures more == steps + [step] && s' == Next(s, step) == Run(Initial("A", "B"), more)
  {
    more, s' := steps + [step], Next(s, step);
    assert more[..|steps|] == steps;
  }

  predicate OwnsBelow(x: Side, key: KeyId) {
    forall k :: k in x.own ==> k < key
  }

  predicate PidsBelow(x: Side, c: char) {
    forall i, pid :: 0 <= i < |x.pairs| && pid in x.pairs[i].pids ==> |pid| > 0 && pid[0] < c
  }

  /** It is me who sends next: under peer's last pair, with nothing suggested yet for what comes back. */
  predicate Ready(me: Side, peer: Side, time: int, key: KeyId, c: char) {
    && Inv(me, peer)
    && me.gen == |peer.pairs| > 0 && me.keys.suggested.None?
    && me.clock <= time && peer.clock <= time
    && OwnsBelow(me, key) && OwnsBelow(peer, key)
    && PidsBelow(me, c) && PidsBelow(peer, c)
  }

  lemma SendAddsPair(me: Side, peer: Side, time: int, now: int, key: KeyId, c: char)
    requires Ready(me, peer, time, key, c) && time + MIN_PERIOD_FOR_PAIR <= now
    ensures var me' := SendStep(me, peer, SendAt(now, key, c));
            && SentOne(me, peer, me') && me'.keys.suggested.Some? && me'.keys.suggested.value.pids == FivePids(c)
            && me'.own == me.own + {key, key + 1} && me'.clock == now
  {
    var a := SendAt(now, key, c);
    assert PairInv(peer, me, me.gen - 1);
    if |me.pairs| > 0 {
      assert PairInv(me, peer, |me.pairs| - 1);
    }
    forall pid | pid in a.pids ensures pid !in LivePids(me.keys) {
      assert pid[0] == c;
    }
    assert CanSend(me, peer, a) && CanAddPair(me, a);
    SendShape(me, peer, a);
  }

  lemma SendLooks(me: Side, peer: Side, me': Side, now: int, key: KeyId, c: char, c': char)
    requires OwnsBelow(me, key) && PidsBelow(me, c) && c < c'
    requires SentOne(me, peer, me') && me'.keys.suggested.Some? && me.keys.suggested.None?
    requires me'.keys.suggested.value.pids == FivePids(c) && me'.own == me.own + {key, key + 1}
    ensures OwnsBelow(me', key + 2) && PidsBelow(me', c') && |me'.pairs| == |me.pairs| + 1
  {
  }

  lemma TakeLast(peer: Side, me: Side, i: nat)
    requires Inv(peer, me) && i < |me.out|
    requires me.out[i].gen == |peer.pairs| > 0 && me.out[i].sug == |me.pairs|
    ensures var peer' := DeliverStep(peer, me, i);
            && Inv(peer', me) && peer'.gen == |me.pairs| && peer'.keys.suggested.None?
            && peer' == peer.(keys := peer'.keys, gen := peer'.gen, hi := peer'.hi)
  {
    DeliverShape(peer, me, i);
    DeliverKeepsInv(peer, me, i);
    assert MsgInv(me, peer, me.out[i]);
    DeliverSlots(peer, me, i, DeliverStep(peer, me, i));
  }

  /** One sends a message with a new pair, the other gets it, and it is other's turn. */
  lemma Turn(me: Side, peer: Side, time: int, now: int, key: KeyId, c: char, c': char) returns (me': Side, peer': Side)
    requires Ready(me, peer, time, key, c) && time + MIN_PERIOD_FOR_PAIR <= now && c < c'
    ensures me' == Do(me, peer, SendAt(now, key, c))
    ensures |me'.out| == |me.out| + 1 && me.out <= me'.out
    ensures peer' == Do(peer, me', Deliver(|me.out|))
    ensures Ready(peer', me', now, key + 2, c')
    ensures |me'.pairs| == |me.pairs| + 1 && me'.keys.suggested.Some? && me'.gen == me.gen
    ensures peer'.out == peer.out && peer'.pairs == peer.pairs
  {
    SendAddsPair(me, peer, time, now, key, c);
    me' := SendStep(me, peer, SendAt(now, key, c));
    SendLooks(me, peer, me', now, key, c, c');
    SendKeepsInv(me, peer, SendAt(now, key, c));
    TakeLast(peer, me', |me.out|);
    peer' := DeliverStep(peer, me', |me.out|);
  }

  lemma SendAddsNoPair(me: Side, peer: Side, time: int, key: KeyId, c: char)
    requires Ready(peer, me, time, key, c) && me.keys.suggested.Some? && me.gen > 0
    ensures var me' := SendStep(me, peer, SendAt(time, key, c));
            && SentOne(me, peer, me') && me'.pairs == me.pairs && me'.keys.suggested == me.keys.suggested
            && me'.own == me.own + {key, key + 1} && me'.clock == time
  {
    var a := SendAt(time, key, c);
    assert PairInv(peer, me, me.gen - 1);
    assert CanSend(me, peer, a);
    SendShape(me, peer, a);
  }

  /** An extra message, sent under the same pairs as the one before it. */
  lemma SendsAgain(me: Side, peer: Side, time: int, key: KeyId, c: char) returns (me': Side)
    requires Ready(peer, me, time, key, c) && me.keys.suggested.Some? && me.gen > 0
    ensures me' == Do(me, peer, SendAt(time, key, c))
    ensures Ready(peer, me', time, key + 2, c)
    ensures |me'.out| == |me.out| + 1 && me.out <= me'.out && me'.out[|me.out|].gen == me.gen
  {
    SendAddsNoPair(me, peer, time, key, c);
    SendKeepsInv(me, peer, SendAt(time, key, c));
    me' := SendStep(me, peer, SendAt(time, key, c));
  }

  lemma IntroductionRun() returns (steps: seq<Step>, s: System)
    ensures s == Run(Initial("A", "B"), steps)
    ensures s.b.gen == 1 && |s.a.pairs| == 1 && |s.a.out| == 1 && |s.b.out| == 0
    ensures s.b.keys.suggested.None? && s.a.clock <= 1 && s.b.clock <= 1
    ensures OwnsBelow(s.a, 20) && OwnsBelow(s.b, 20) && PidsBelow(s.a, 'b') && PidsBelow(s.b, 'b')
  {
    steps, s := [], Initial("A", "B");
    steps, s := Then(steps, s, ByB(Publish(0)));
    assert s.b.published == {0};
    steps, s := Then(steps, s, ByA(SendAt(1, 10, 'a')));
    assert |s.a.out| == 1;
    steps, s := Then(steps, s, ByB(Deliver(0)));
  }

  /** B learns A's first pair from an introductory message. */
  lemma Introduction() returns (steps: seq<Step>, s: System)
    ensures s == Run(Initial("A", "B"), steps)
    ensures Ready(s.b, s.a, 1, 20, 'b') && |s.a.out| == 1 && |s.b.out| == 0
  {
    steps, s := IntroductionRun();
    SidesInv("A", "B", steps, false);
  }

  lemma RoundOfB(steps: seq<Step>, s: System, time: int, key: KeyId, c: char, c': char)
    returns (more: seq<Step>, s': System)
    requires s == Run(Initial("A", "B"), steps)
    requires Ready(s.b, s.a, time, key, c) && c < c'
    ensures s' == Run(Initial("A", "B"), more)
    ensures Ready(s'.a, s'.b, time + MIN_PERIOD_FOR_PAIR, key + 2, c')
    ensures s'.a.out == s.a.out && s.b.out <= s'.b.out && |s'.b.out| == |s.b.out| + 1
    ensures s'.b.keys.suggested.Some? && s'.b.gen == s.b.gen && Used(s'.a) == |s.a.pairs| == |s'.a.pairs|
  {
    var now := time + MIN_PERIOD_FOR_PAIR;
    var b, a := Turn(s.b, s.a, time, now, key, c, c');
    more, s' := Then(steps, s, ByB(SendAt(now, key, c)));
    more, s' := Then(more, s', ByA(Deliver(|s.b.out|)));
  }

  lemma RoundOfA(steps: seq<Step>, s: System, time: int, key: KeyId, c: char, c': char)
    returns (more: seq<Step>, s': System)
    requires s == Run(Initial("A", "B"), steps)
    requires Ready(s.a, s.b, time, key, c) && c < c'
    ensures s' == Run(Initial("A", "B"), more)
    ensures Ready(s'.b, s'.a, time + MIN_PERIOD_FOR_PAIR, key + 2, c')
    ensures s'.b.out == s.b.out && |s'.a.pairs| == |s.a.pairs| + 1
  {
    var now := time + MIN_PERIOD_FOR_PAIR;
    var a, b := Turn(s.a, s.b, time, now, key, c, c');
    more, s' := Then(steps, s, ByA(SendAt(now, key, c)));
    more, s' := Then(more, s', ByB(Deliver(|s.a.out|)));
  }

  /** B sends two messages under A's first pair, of which only the first one is delivered. */
  lemma SecondIsLate() returns (steps: seq<Step>, s: System, time: int)
    ensures s == Run(Initial("A", "B"), steps) && Ready(s.a, s.b, time, 24, 'c')
    ensures |s.b.out| == 2 && s.b.out[1].gen == 1 && Used(s.a) == |s.a.pairs| == 1
  {
    steps, s := Introduction();
    steps, s := RoundOfB(steps, s, 1, 20, 'b', 'c');
    time := 1 + MIN_PERIOD_FOR_PAIR;
    var b := SendsAgain(s.b, s.a, time, 22, 'c');
    steps, s := Then(steps, s, ByB(SendAt(time, 22, 'c')));
  }

  /** Both sides go on, till A's third pair is in use. */
  lemma MoreRounds(steps: seq<Step>, s: System, time: int) returns (more: seq<Step>, s': System)
    requires s == Run(Initial("A", "B"), steps) && Ready(s.a, s.b, time, 24, 'c')
    requires Used(s.a) == |s.a.pairs| == 1
    ensures s' == Run(Initial("A", "B"), more)
    ensures Inv(s'.a, s'.b) && s.b.out <= s'.b.out && Used(s'.a) == 3
  {
    more, s' := RoundOfA(steps, s, time, 24, 'c', 'd');
    more, s' := RoundOfB(more, s', time + MIN_PERIOD_FOR_PAIR, 26, 'd', 'e');
    more, s' := RoundOfA(more, s', time + 2 * MIN_PERIOD_FOR_PAIR, 28, 'e', 'f');
    more, s' := RoundOfB(more, s', time + 3 * MIN_PERIOD_FOR_PAIR, 30, 'f', 'g');
  }

  /**
    B sends two messages under A's first pair, and the second one is late. It can be opened no longer,
    when messages under A's third pair got delivered.
  */
  lemma OvertakenIsLost() returns (steps: seq<Step>)
    ensures var s := Run(Initial("A", "B"), steps);
            && |s.b.out| > 1 && s.b.out[1].msg.meta.ByPid?
            && Receive(s.a.keys, "B", s.a.published, s.b.out[1].msg) == (s.a.keys, Undecryptable)
  {
    var s, time;
    steps, s, time := SecondIsLate();
    steps, s := MoreRounds(steps, s, time);
    LostOne(s, 1);
    ReachableAddresses(steps);
  }

  lemma LostOne(s: System, i: nat)
    requires Inv(s.a, s.b) && i < |s.b.out| && s.b.out[i].gen == 1 && Used(s.a) == 3
    ensures s.b.out[i].msg.meta.ByPid?
    ensures Receive(s.a.keys, s.b.address, s.a.published, s.b.out[i].msg) == (s.a.keys, Undecryptable)
  {
    assert MsgInv(s.b, s.a, s.b.out[i]);
    ArrivalOfDropped(s.a, s.b, i);
  }

  lemma ReachableAddresses(steps: seq<Step>)
    ensures Run(Initial("A", "B"), steps).b.address == "B"
  {
    RunKeepsInv(Initial("A", "B"), []);
    ReachableInv("A", "B", []);
    RunGrows(Initial("A", "B"), steps);
  }
}
