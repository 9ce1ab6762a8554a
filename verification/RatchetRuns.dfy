/** What holds in every run of two correspondents, whatever the network does with messages. */
module RatchetRuns {
  import opened Wrappers
  import opened KeyMaterial
  import opened RatchetProtocol
  import opened RatchetProofs
  import opened Keyring

  /** How many of the first n messages are sent under a generation of pairs. */
  function Earlier(out: seq<Sent>, n: nat, gen: nat): nat
    requires n <= |out|
  {
    if n == 0 then 0 else Earlier(out, n - 1, gen) + if out[n - 1].gen == gen then 1 else 0
  }

  /** A message under a ratcheted pair has its number among messages under this pair, an introductory one has one. */
  predicate IsCounted(out: seq<Sent>, i: nat)
    requires i < |out|
  {
    out[i].msg.msgCount == if out[i].gen == 0 then 1 else Earlier(out, i, out[i].gen) + 1
  }

  predicate CountInv(q: Side) {
    && (forall i :: 0 <= i < |q.out| ==> IsCounted(q.out, i))
    && (q.gen > 0 ==>
          q.keys.sending.Ratcheted? && q.keys.sending.sentCount == Earlier(q.out, |q.out|, q.gen))
  }

  lemma {:induction false} EarlierInPrefix(out: seq<Sent>, out': seq<Sent>, n: nat, gen: nat)
    requires n <= |out| && out <= out'
    ensures Earlier(out, n, gen) == Earlier(out', n, gen)
  {
    if n > 0 {
      EarlierInPrefix(out, out', n - 1, gen);
    }
  }

  lemma {:induction false} NoneEarlier(out: seq<Sent>, n: nat, gen: nat)
    requires n <= |out| && forall j :: 0 <= j < n ==> out[j].gen < gen
    ensures Earlier(out, n, gen) == 0
  {
    if n > 0 {
      NoneEarlier(out, n - 1, gen);
    }
  }

  lemma {:induction false} EarlierGrows(out: seq<Sent>, i: nat, j: nat, gen: nat)
    requires i < j <= |out| && out[i].gen == gen
    ensures Earlier(out, i, gen) < Earlier(out, j, gen)
    decreases j
  {
    if i + 1 < j {
      EarlierGrows(out, i, j - 1, gen);
    }
  }

  lemma DoKeepsInv(p: Side, q: Side, a: Action)
    requires Inv(p, q)
    ensures Inv(Do(p, q, a), q)
  {
    match a
    case Send(_, _, _, _, _, _) => SendKeepsInv(p, q, a);
    case Deliver(i) => DeliverKeepsInv(p, q, i);
    case Publish(key) => PublishKeepsInv(p, q, key);
  }

  /** One more message is counted, and the count of others stays. */
  lemma OneMoreCounted(p: Side, p': Side)
    requires CountInv(p) && p.out <= p'.out && |p'.out| == |p.out| + 1 && p'.gen == p.gen
    requires var m := p'.out[|p.out|];
             && m.gen == p.gen
             && (p.gen == 0 ==> m.msg.msgCount == 1)
             && (p.gen > 0 ==> p'.keys.sending.Ratcheted? && m.msg.msgCount == p'.keys.sending.sentCount
                               && p.keys.sending.Ratcheted? && m.msg.msgCount == p.keys.sending.sentCount + 1)
    ensures CountInv(p')
  {
    forall i | 0 <= i < |p'.out| ensures IsCounted(p'.out, i) {
      EarlierInPrefix(p.out, p'.out, i, p'.out[i].gen);
      assert i < |p.out| ==> IsCounted(p.out, i) && p'.out[i] == p.out[i];
    }
    EarlierInPrefix(p.out, p'.out, |p.out|, p.gen);
  }

  lemma SendKeepsCounts(p: Side, q: Side, a: Action, p': Side)
    requires Inv(p, q) && CountInv(p) && a.Send? && SentOne(p, q, p') && SentUnder(p, q, a, p')
    ensures CountInv(p')
  {
    OneMoreCounted(p, p');
  }

  lemma DeliverKeepsCounts(p: Side, q: Side, i: nat, p': Side)
    requires CountInv(p) && i < |q.out| && q.out[i].sug <= |q.pairs|
    requires Delivered(p, q, i, p')
    requires forall j :: 0 <= j < |p.out| ==> p.out[j].gen <= p.gen
    ensures CountInv(p')
  {
    if p'.gen > p.gen {
      NoneEarlier(p.out, |p.out|, p'.gen);
    }
  }

  lemma DoKeepsCounts(p: Side, q: Side, a: Action)
    requires Inv(p, q) && CountInv(p)
    ensures CountInv(Do(p, q, a))
  {
    match a
    case Send(_, _, _, _, _, _) =>
      SendUnder(p, q, a);
      if SendStep(p, q, a) != p {
        SendKeepsCounts(p, q, a, SendStep(p, q, a));
      }
    case Deliver(i) =>
      if i < |q.out| {
        SentBefore(p, q);
        DeliverShape(p, q, i);
        DeliverKeepsCounts(p, q, i, DeliverStep(p, q, i));
      }
    case Publish(key) =>
  }

  predicate SystemInv(s: System) {
    Inv(s.a, s.b) && CountInv(s.a) && CountInv(s.b)
  }

  lemma {:induction false} RunKeepsInv(s: System, steps: seq<Step>)
    requires SystemInv(s)
    ensures SystemInv(Run(s, steps))
  {
    if |steps| > 0 {
      var before := Run(s, steps[..|steps| - 1]);
      RunKeepsInv(s, steps[..|steps| - 1]);
      match steps[|steps| - 1]
      case ByA(action) =>
        DoKeepsInv(before.a, before.b, action);
        DoKeepsCounts(before.a, before.b, action);
      case ByB(action) =>
        DoKeepsInv(before.b, before.a, action);
        DoKeepsCounts(before.b, before.a, action);
    }
  }

  lemma ReachableInv(a: Address, b: Address, steps: seq<Step>)
    ensures SystemInv(Run(Initial(a, b), steps))
  {
    RunKeepsInv(Initial(a, b), steps);
  }

  function Me(s: System, isA: bool): Side { if isA then s.a else s.b }
  function Peer(s: System, isA: bool): Side { Me(s, !isA) }

  lemma SidesInv(a: Address, b: Address, steps: seq<Step>, isA: bool)
    ensures var s := Run(Initial(a, b), steps);
            Inv(Me(s, isA), Peer(s, isA)) && CountInv(Me(s, isA))
  {
    ReachableInv(a, b, steps);
  }

  // ---------------------------------------- what the invariant says of one side

  predicate SendsUnderLivePair(sending: SendingPair, theirs: Keys) {
    && (|| (theirs.suggested.Some? && SendsUnder(sending, theirs.suggested.value))
        || (theirs.inUse.Some? && SendsUnder(sending, theirs.inUse.value)))
    && sending.msgMasterKey == SharedKey(sending.senderKey, sending.recipientKey)
  }

  lemma LivePair(me: Side, peer: Side)
    requires Inv(me, peer) && me.keys.sending.Ratcheted?
    ensures SendsUnderLivePair(me.keys.sending, peer.keys)
  {
    assert PairInv(peer, me, me.gen - 1);
  }

  function Slots(k: Keys): set<Option<ReceptionPair>> {
    {k.suggested, k.inUse, k.retired}
  }

  /** Is a pair with the message's master key in one of the three slots? */
  predicate PairIsKept(k: Keys, m: Message) {
    exists slot :: slot in Slots(k) && slot.Some? && slot.value.msgMasterKey == m.enc
  }

  predicate OpensAndAbsorbs(m: Message, outcome: Outcome) {
    && outcome.Opened?
    && outcome.absorbed == (if m.nextCrypto.None? then NothingToAbsorb else AbsorbedIt)
  }

  lemma MastersOfDropped(p: Side, q: Side, g: nat)
    requires Inv(p, q) && 0 < g && g + 1 < Used(p)
    ensures forall slot :: slot in Slots(p.keys) && slot.Some? ==>
              slot.value.msgMasterKey != p.pairs[g - 1].msgMasterKey
  {
    MastersDiffer(p, q, g - 1, Used(p) - 2);
    MastersDiffer(p, q, g - 1, Used(p) - 1);
    if p.keys.suggested.Some? {
      MastersDiffer(p, q, g - 1, Used(p));
    }
  }

  lemma PairsOfKept(p: Side, q: Side, m: Sent)
    requires SlotsInv(p) && MsgInv(q, p, m) && 0 < m.gen && Used(p) <= m.gen + 1
    ensures PairIsKept(p.keys, m.msg)
  {
    assert PairAt(p, m.gen) in Slots(p.keys);
  }

  lemma DeliveryOutcome(me: Side, peer: Side, i: nat)
    requires Inv(me, peer) && i < |peer.out|
    ensures var m := peer.out[i].msg;
            var (after, outcome) := Receive(me.keys, peer.address, me.published, m);
            if m.meta.ByIntro? || PairIsKept(me.keys, m) then OpensAndAbsorbs(m, outcome)
            else outcome == Undecryptable && after == me.keys
    ensures var m := peer.out[i];
            var outcome := Receive(me.keys, peer.address, me.published, m.msg).1;
            outcome == Undecryptable <==> 0 < m.gen && m.gen + 1 < Used(me)
  {
    var m := peer.out[i];
    assert MsgInv(peer, me, m);
    if m.gen == 0 {
      ArrivalByIntro(me, peer, i);
    } else if m.gen + 1 < Used(me) {
      ArrivalOfDropped(me, peer, i);
      MastersOfDropped(me, peer, m.gen);
    } else {
      ArrivalByPid(me, peer, i);
      PairsOfKept(me, peer, m);
    }
  }

  predicate InOrderRole(m: Message, role: Role) {
    if m.meta.ByIntro? then role == PublishedIntro else role == Suggested || role == InUse
  }

  lemma InOrderOutcome(me: Side, peer: Side, i: nat)
    requires Inv(me, peer) && i < |peer.out| && me.hi <= i + 1
    ensures var m := peer.out[i].msg;
            var outcome := Receive(me.keys, peer.address, me.published, m).1;
            OpensAndAbsorbs(m, outcome) && InOrderRole(m, outcome.role)
  {
    assert MsgInv(peer, me, peer.out[i]);
    if peer.out[i].gen == 0 {
      ArrivalByIntro(me, peer, i);
    } else {
      ArrivalByPid(me, peer, i);
    }
  }

  lemma LaterCountsMore(me: Side, i: nat, j: nat)
    requires CountInv(me) && i < j < |me.out| && me.out[i].gen == me.out[j].gen > 0
    ensures me.out[i].msg.msgCount < me.out[j].msg.msgCount
  {
    assert IsCounted(me.out, i) && IsCounted(me.out, j);
    EarlierGrows(me.out, i, j, me.out[i].gen);
  }

  lemma RatchetedHasGen(me: Side, peer: Side, i: nat)
    requires OutInv(me, peer) && i < |me.out|
    ensures me.out[i].msg.meta.ByPid? <==> me.out[i].gen > 0
  {
    assert MsgInv(me, peer, me.out[i]);
  }

  lemma CountsDiffer(me: Side, peer: Side, i: nat, j: nat)
    requires Inv(me, peer) && CountInv(me) && i < j < |me.out|
    requires me.out[i].msg.meta.ByPid? && me.out[j].msg.meta.ByPid? && me.out[i].msg.enc == me.out[j].msg.enc
    ensures me.out[i].msg.msgCount < me.out[j].msg.msgCount
  {
    RatchetedHasGen(me, peer, i);
    SameKeySameGen(me, peer, i, j);
    LaterCountsMore(me, i, j);
  }

  lemma SendingGrows(me: Side, peer: Side, me': Side, peer': Side)
    requires SendingInv(me, peer) && SendingInv(me', peer') && PairsInv(peer', me')
    requires Grown(me, me') && Grown(peer, peer')
    ensures NotBack(me.keys.sending, me'.keys.sending)
  {
    if me.gen > 0 && me'.gen > me.gen {
      assert peer'.pairs[me.gen - 1].timestamp < peer'.pairs[me'.gen - 1].timestamp;
    }
  }

  lemma DoGrows(p: Side, q: Side, a: Action)
    requires Inv(p, q)
    ensures Grown(p, Do(p, q, a))
  {
    match a
    case Send(_, _, _, _, _, _) => SendShape(p, q, a);
    case Deliver(i) =>
      if i < |q.out| {
        DeliverShape(p, q, i);
      }
    case Publish(key) =>
  }

  predicate SystemGrown(s: System, s': System) {
    Grown(s.a, s'.a) && Grown(s.b, s'.b)
  }

  lemma NextGrows(s: System, step: Step)
    requires SystemInv(s)
    ensures SystemGrown(s, Next(s, step))
  {
    match step
    case ByA(action) => DoGrows(s.a, s.b, action);
    case ByB(action) => DoGrows(s.b, s.a, action);
  }

  lemma GrownTwice(s: System, s': System, s'': System)
    requires SystemGrown(s, s') && SystemGrown(s', s'')
    ensures SystemGrown(s, s'')
  {
  }

  lemma {:induction false} RunGrows(s: System, steps: seq<Step>)
    requires SystemInv(s)
    ensures SystemGrown(s, Run(s, steps))
  {
    if |steps| > 0 {
      var before := Run(s, steps[..|steps| - 1]);
      RunGrows(s, steps[..|steps| - 1]);
      RunKeepsInv(s, steps[..|steps| - 1]);
      NextGrows(before, steps[|steps| - 1]);
      GrownTwice(s, before, Run(s, steps));
    }
  }

  lemma {:induction false} RunSplits(s: System, steps: seq<Step>, more: seq<Step>)
    ensures Run(s, steps + more) == Run(Run(s, steps), more)
  {
    if |more| == 0 {
      assert steps + more == steps;
    } else {
      var all := steps + more;
      assert all[..|all| - 1] == steps + more[..|more| - 1];
      RunSplits(s, steps, more[..|more| - 1]);
    }
  }

  // -------------------------------------------------------------- main theorems

  /** A side sends under a pair that the other side holds as suggested or in use, with the same master key. */
  lemma SendingPairIsLive(a: Address, b: Address, steps: seq<Step>, isA: bool)
    ensures var s := Run(Initial(a, b), steps);
            Me(s, isA).keys.sending.Ratcheted? ==>
              SendsUnderLivePair(Me(s, isA).keys.sending, Peer(s, isA).keys)
  {
    SidesInv(a, b, steps, isA);
    var s := Run(Initial(a, b), steps);
    if Me(s, isA).keys.sending.Ratcheted? {
      LivePair(Me(s, isA), Peer(s, isA));
    }
  }

  /**
    Any message ever sent, delivered at any moment: it is lost exactly when it is sent under a pair that
    is more than one generation older than the pair now in use, so that its pair is in none of the three
    slots. Otherwise it opens, and what it suggests is absorbed. A lost message changes nothing.
  */
  lemma AnyDelivery(a: Address, b: Address, steps: seq<Step>, isA: bool, i: nat)
    requires i < |Peer(Run(Initial(a, b), steps), isA).out|
    ensures var s := Run(Initial(a, b), steps);
            var me, peer := Me(s, isA), Peer(s, isA);
            var m := peer.out[i].msg;
            var (after, outcome) := Receive(me.keys, peer.address, me.published, m);
            if m.meta.ByIntro? || PairIsKept(me.keys, m) then OpensAndAbsorbs(m, outcome)
            else outcome == Undecryptable && after == me.keys
    ensures var s := Run(Initial(a, b), steps);
            var me, peer := Me(s, isA), Peer(s, isA);
            var m := peer.out[i];
            var outcome := Receive(me.keys, peer.address, me.published, m.msg).1;
            outcome == Undecryptable <==> 0 < m.gen && m.gen + 1 < Used(me)
  {
    SidesInv(a, b, steps, isA);
    var s := Run(Initial(a, b), steps);
    DeliveryOutcome(Me(s, isA), Peer(s, isA), i);
  }

  /** A message that none sent after it overtook opens under the suggested pair, or under the one in use. */
  lemma InOrderDelivery(a: Address, b: Address, steps: seq<Step>, isA: bool, i: nat)
    requires var s := Run(Initial(a, b), steps);
             i < |Peer(s, isA).out| && Me(s, isA).hi <= i + 1
    ensures var s := Run(Initial(a, b), steps);
            var me, peer := Me(s, isA), Peer(s, isA);
            var m := peer.out[i].msg;
            var outcome := Receive(me.keys, peer.address, me.published, m).1;
            OpensAndAbsorbs(m, outcome) && InOrderRole(m, outcome.role)
  {
    SidesInv(a, b, steps, isA);
    var s := Run(Initial(a, b), steps);
    InOrderOutcome(Me(s, isA), Peer(s, isA), i);
  }

  /** No ratcheted pair and message count are used for two messages. */
  lemma CountsNeverRepeat(a: Address, b: Address, steps: seq<Step>, isA: bool, i: nat, j: nat)
    requires i < j < |Me(Run(Initial(a, b), steps), isA).out|
    ensures var out := Me(Run(Initial(a, b), steps), isA).out;
            out[i].msg.meta.ByPid? && out[j].msg.meta.ByPid? && out[i].msg.enc == out[j].msg.enc ==>
              out[i].msg.msgCount < out[j].msg.msgCount
  {
    SidesInv(a, b, steps, isA);
    var s := Run(Initial(a, b), steps);
    var out := Me(s, isA).out;
    if out[i].msg.meta.ByPid? && out[j].msg.meta.ByPid? && out[i].msg.enc == out[j].msg.enc {
      CountsDiffer(Me(s, isA), Peer(s, isA), i, j);
    }
  }

  /** How many of the first n messages are sent under a ratcheted pair with a given master key. */
  function SentUnderKey(out: seq<Sent>, n: nat, masterKey: MasterKey): nat
    requires n <= |out|
  {
    if n == 0 then 0
    else
      var m := out[n - 1].msg;
      SentUnderKey(out, n - 1, masterKey) + if m.meta.ByPid? && m.enc == masterKey then 1 else 0
  }

  lemma SameKeySameGen(me: Side, peer: Side, i: nat, j: nat)
    requires Inv(me, peer) && i < |me.out| && j < |me.out| && me.out[i].gen > 0
    ensures me.out[j].gen == me.out[i].gen <==> me.out[j].msg.meta.ByPid? && me.out[j].msg.enc == me.out[i].msg.enc
  {
    var x, y := me.out[i], me.out[j];
    assert MsgInv(me, peer, x) && MsgInv(me, peer, y);
    if 0 < y.gen < x.gen {
      MastersDiffer(peer, me, y.gen - 1, x.gen - 1);
    } else if x.gen < y.gen {
      MastersDiffer(peer, me, x.gen - 1, y.gen - 1);
    }
  }

  lemma {:induction false} CountedByKey(me: Side, peer: Side, i: nat, n: nat)
    requires Inv(me, peer) && i < |me.out| && n <= |me.out| && me.out[i].gen > 0
    ensures SentUnderKey(me.out, n, me.out[i].msg.enc) == Earlier(me.out, n, me.out[i].gen)
  {
    if n > 0 {
      CountedByKey(me, peer, i, n - 1);
      SameKeySameGen(me, peer, i, n - 1);
    }
  }

  lemma CountIsExact(me: Side, peer: Side, i: nat)
    requires Inv(me, peer) && CountInv(me) && i < |me.out|
    ensures me.out[i].msg.msgCount ==
            if me.out[i].msg.meta.ByIntro? then 1 else SentUnderKey(me.out, i, me.out[i].msg.enc) + 1
  {
    RatchetedHasGen(me, peer, i);
    assert IsCounted(me.out, i);
    if me.out[i].gen > 0 {
      CountedByKey(me, peer, i, i);
    }
  }

  /** Introductory messages are counted as first ones, others are counted under their pairs. */
  lemma CountsAreExact(a: Address, b: Address, steps: seq<Step>, isA: bool, i: nat)
    requires i < |Me(Run(Initial(a, b), steps), isA).out|
    ensures var out := Me(Run(Initial(a, b), steps), isA).out;
            out[i].msg.msgCount == if out[i].msg.meta.ByIntro? then 1 else SentUnderKey(out, i, out[i].msg.enc) + 1
  {
    SidesInv(a, b, steps, isA);
    var s := Run(Initial(a, b), steps);
    CountIsExact(Me(s, isA), Peer(s, isA), i);
  }

  lemma SendingNeverGoesBack(a: Address, b: Address, steps: seq<Step>, more: seq<Step>, isA: bool)
    ensures NotBack(Me(Run(Initial(a, b), steps), isA).keys.sending,
                    Me(Run(Initial(a, b), steps + more), isA).keys.sending)
  {
    var s := Run(Initial(a, b), steps);
    ReachableInv(a, b, steps);
    RunSplits(Initial(a, b), steps, more);
    RunKeepsInv(s, more);
    RunGrows(s, more);
    var s' := Run(s, more);
    SendingGrows(Me(s, isA), Peer(s, isA), Me(s', isA), Peer(s', isA));
  }

  // ------------------------------------------------------------ pace of ratchet

  /** A pair that is made for a ratcheted one comes after it not sooner than the least period. */
  predicate PeriodInv(p: Side, q: Side) {
    && |p.madeFor| == |p.pairs|
    && forall i :: 0 <= i < |p.pairs| && 0 < p.madeFor[i] ==>
         && p.madeFor[i] <= |q.pairs|
         && q.pairs[p.madeFor[i] - 1].timestamp + MIN_PERIOD_FOR_PAIR <= p.pairs[i].timestamp
  }

  /** Either no pair is added, or it is added not too early. */
  predicate AddsInTime(p: Side, q: Side, p': Side) {
    || (p'.pairs == p.pairs && p'.madeFor == p.madeFor)
    || (&& |p'.pairs| == |p.pairs| + 1 && p.pairs <= p'.pairs && p'.madeFor == p.madeFor + [p.gen]
        && (p.gen > 0 ==>
              && p.gen <= |q.pairs|
              && q.pairs[p.gen - 1].timestamp + MIN_PERIOD_FOR_PAIR <= p'.pairs[|p.pairs|].timestamp))
  }

  lemma SendWaits(p: Side, q: Side, a: Action)
    requires Inv(p, q) && a.Send?
    ensures AddsInTime(p, q, SendStep(p, q, a))
  {
  }

  lemma PeriodsGrow(p: Side, q: Side, q': Side)
    requires PeriodInv(p, q) && q.pairs <= q'.pairs
    ensures PeriodInv(p, q')
  {
  }

  lemma AddedKeepsPeriods(p: Side, q: Side, p': Side)
    requires PeriodInv(p, q) && AddsInTime(p, q, p')
    ensures PeriodInv(p', q)
  {
  }

  lemma DoKeepsPeriods(p: Side, q: Side, a: Action)
    requires Inv(p, q) && PeriodInv(p, q)
    ensures PeriodInv(Do(p, q, a), q)
  {
    if a.Send? {
      SendWaits(p, q, a);
    }
    AddedKeepsPeriods(p, q, Do(p, q, a));
  }

  lemma {:induction false} RunKeepsPeriods(a: Address, b: Address, steps: seq<Step>)
    ensures var s := Run(Initial(a, b), steps); PeriodInv(s.a, s.b) && PeriodInv(s.b, s.a)
  {
    if |steps| > 0 {
      var before := Run(Initial(a, b), steps[..|steps| - 1]);
      RunKeepsPeriods(a, b, steps[..|steps| - 1]);
      SidesInv(a, b, steps[..|steps| - 1], true);
      SidesInv(a, b, steps[..|steps| - 1], false);
      match steps[|steps| - 1]
      case ByA(action) =>
        DoKeepsPeriods(before.a, before.b, action);
        DoGrows(before.a, before.b, action);
        PeriodsGrow(before.b, before.a, Do(before.a, before.b, action));
      case ByB(action) =>
        DoKeepsPeriods(before.b, before.a, action);
        DoGrows(before.b, before.a, action);
        PeriodsGrow(before.a, before.b, Do(before.b, before.a, action));
    }
  }

  predicate AnswersLater(r: ReceptionPair, answer: ReceptionPair) {
    answer.senderKey == r.recipientKey && r.timestamp + MIN_PERIOD_FOR_PAIR <= answer.timestamp
  }

  predicate AnswersInTime(pairs: seq<ReceptionPair>, answer: ReceptionPair) {
    answer.isSenderIntroKey || exists r :: r in pairs && AnswersLater(r, answer)
  }

  lemma AnswerOf(me: Side, peer: Side, i: nat)
    requires PairsInv(me, peer) && PeriodInv(me, peer) && i < |me.pairs|
    ensures AnswersInTime(peer.pairs, me.pairs[i])
  {
    assert PairInv(me, peer, i);
    if me.madeFor[i] > 0 {
      assert peer.pairs[me.madeFor[i] - 1] in peer.pairs;
    }
  }

  /** Keys are rotated not more often than once in the least period: each pair, that answers to a pair
    * of the other side, is younger than that by at least this time. */
  lemma RotationTakesTime(a: Address, b: Address, steps: seq<Step>, isA: bool, i: nat)
    requires i < |Me(Run(Initial(a, b), steps), isA).pairs|
    ensures var s := Run(Initial(a, b), steps);
            AnswersInTime(Peer(s, isA).pairs, Me(s, isA).pairs[i])
  {
    RunKeepsPeriods(a, b, steps);
    SidesInv(a, b, steps, isA);
    var s := Run(Initial(a, b), steps);
    AnswerOf(Me(s, isA), Peer(s, isA), i);
  }

  // ------------------------------------------- one pair of parties inside rings

  /** Pairs that a ring suggested to its other correspondents are made with keys of their own. */
  predicate OthersHaveOwnKeys(ring: Ring, from: Address, me: Side, peer: Side) {
    forall e, slot :: e in ring && e != from && slot in Slots(ring[e]) && slot.Some? ==>
      && slot.value.recipientKey in slot.value.msgMasterKey
      && slot.value.recipientKey !in peer.own
      && forall i :: 0 <= i < |me.pairs| ==> me.pairs[i].recipientKey != slot.value.recipientKey
  }

  lemma OthersDoNotOpen(ring: Ring, me: Side, peer: Side, i: nat)
    requires Inv(me, peer) && i < |peer.out| && peer.out[i].gen > 0
    requires OthersHaveOwnKeys(ring, peer.address, me, peer)
    ensures forall e :: OpensFrom(ring, e, peer.out[i].msg) ==> e == peer.address
  {
    var m := peer.out[i];
    assert MsgInv(peer, me, m);
    assert PairInv(me, peer, m.gen - 1);
    SenderKeyIsPeers(me, peer, m.gen - 1);
    forall e | OpensFrom(ring, e, m.msg) ensures e == peer.address {
      var pair := GetReceivingPair(ring[e], m.msg.meta.pid).value.0;
      assert Some(pair) in Slots(ring[e]);
    }
  }

  /**
    In a ring with any other correspondents, whatever pids their pairs have, a ratcheted message is
    opened by the record of its sender, exactly when that still has the pair, and by no other record.
  */
  lemma RoutedToSender(a: Address, b: Address, steps: seq<Step>, isA: bool, i: nat, ring: Ring)
    requires var s := Run(Initial(a, b), steps);
             var me, peer := Me(s, isA), Peer(s, isA);
             && i < |peer.out| && peer.out[i].msg.meta.ByPid?
             && peer.address in ring && ring[peer.address] == me.keys
             && OthersHaveOwnKeys(ring, peer.address, me, peer)
    ensures var s := Run(Initial(a, b), steps);
            var me, peer := Me(s, isA), Peer(s, isA);
            var m := peer.out[i].msg;
            forall e :: OpensFrom(ring, e, m) <==> e == peer.address && PairIsKept(me.keys, m)
  {
    SidesInv(a, b, steps, isA);
    var s := Run(Initial(a, b), steps);
    var me, peer := Me(s, isA), Peer(s, isA);
    assert MsgInv(peer, me, peer.out[i]);
    OthersDoNotOpen(ring, me, peer, i);
    DeliveryOutcome(me, peer, i);
  }
}
