/** What one action of one side does to the invariant of both. */
module RatchetProofs {
  import opened Wrappers
  import opened KeyMaterial
  import opened RatchetProtocol

  /** Slot lookup by pid finds the pair of any generation still in slots. */
  lemma LookupFinds(p: Side, q: Side, g: nat, pid: Pid)
    requires SlotsInv(p) && PairsInv(p, q)
    requires 1 <= g <= |p.pairs| && Used(p) <= g + 1
    requires pid in p.pairs[g - 1].pids
    ensures GetReceivingPair(p.keys, pid) == Some((p.pairs[g - 1],
              if g == Used(p) + 1 then Suggested else if g == Used(p) then InUse else Retired))
  {
  }

  /** Whatever slot lookup finds for a pid of a dropped pair, it has another master key. */
  lemma LookupOfDropped(p: Side, q: Side, g: nat, pid: Pid)
    requires SlotsInv(p) && PairsInv(p, q) && PairsInv(q, p) && p.own !! q.own && q.published <= q.own
    requires 1 <= g <= |p.pairs| && g + 1 < Used(p)
    ensures var found := GetReceivingPair(p.keys, pid);
            found.Some? ==> found.value.0.msgMasterKey != p.pairs[g - 1].msgMasterKey
  {
    var found := GetReceivingPair(p.keys, pid);
    if found.Some? {
      var u := Used(p);
      var role := found.value.1;
      MastersDiffer(p, q, g - 1, if role == Suggested then u else if role == InUse then u - 1 else u - 2);
    }
  }

  lemma MastersDiffer(p: Side, q: Side, i: nat, j: nat)
    requires PairsInv(p, q) && PairsInv(q, p) && p.own !! q.own && q.published <= q.own
    requires i < j < |p.pairs|
    ensures p.pairs[i].msgMasterKey != p.pairs[j].msgMasterKey
  {
    assert PairInv(p, q, i) && PairInv(p, q, j);
    SenderKeyIsPeers(p, q, i);
    SenderKeyIsPeers(p, q, j);
    assert p.pairs[i].recipientKey in p.pairs[i].msgMasterKey;
    assert p.pairs[i].recipientKey !in p.pairs[j].msgMasterKey;
  }

  lemma SenderKeyIsPeers(p: Side, q: Side, i: nat)
    requires PairsInv(p, q) && PairsInv(q, p) && q.published <= q.own
    requires i < |p.pairs|
    ensures p.pairs[i].senderKey in q.own
  {
    assert PairInv(p, q, i);
    if p.madeFor[i] > 0 {
      assert PairInv(q, p, p.madeFor[i] - 1);
    }
  }

  /** Suggestions that are not news are ignored. */
  lemma OldSuggestionIgnored(p: Side, q: Side, m: Sent, k: Keys, usedIntro: Option<KeyId>)
    requires Half(q, p) && 1 <= m.sug <= p.gen && k.sending == p.keys.sending
    ensures RatchetUpSendingPair(k, ToSuggestion(q.pairs[m.sug - 1]), usedIntro) == Success(k)
  {
  }

  lemma NewSuggestionTaken(p: Side, q: Side, sug: nat, k: Keys)
    requires Inv(p, q) && p.gen < sug <= |q.pairs|
    requires k.sending == p.keys.sending
    requires q.madeFor[sug - 1] > 0 ==> FindReceptionKey(k, q.pairs[sug - 1].senderKey).Some?
    ensures var r := AbsorbSuggestion(k, p.published, ToSuggestion(q.pairs[sug - 1]));
            && r.Success? && r.value == k.(sending := r.value.sending)
            && SendsUnder(r.value.sending, q.pairs[sug - 1]) && r.value.sending.sentCount == 0
            && r.value.sending != k.sending
  {
    var s := ToSuggestion(q.pairs[sug - 1]);
    assert PairInv(q, p, sug - 1);
    if p.gen > 0 {
      assert q.pairs[p.gen - 1].recipientKey != q.pairs[sug - 1].recipientKey;
    }
    assert !SameAsSending(k.sending, s) && !NewerThan(k.sending, s);
  }

  /** The key that a new suggestion of q is made for is in p's slots, also after p puts m's pair in use. */
  lemma SenderKeyStillKept(p: Side, q: Side, sug: nat, k: Keys)
    requires Inv(p, q) && p.gen < sug <= |q.pairs| && q.madeFor[sug - 1] > 0
    requires SlotsMoved(p, k)
    ensures FindReceptionKey(k, q.pairs[sug - 1].senderKey).Some?
  {
    assert PairInv(q, p, sug - 1);
    var g := q.madeFor[sug - 1];
    assert Used(p) <= g <= Used(p) + 1;
  }

  predicate SlotsMoved(p: Side, k: Keys) {
    || (k.suggested, k.inUse, k.retired) == (p.keys.suggested, p.keys.inUse, p.keys.retired)
    || (k.suggested, k.inUse, k.retired) == (None, PairAt(p, Used(p) + 1), PairAt(p, Used(p)))
  }

  predicate SendingAfter(p: Side, q: Side, m: Sent, sending: SendingPair)
    requires m.sug <= |q.pairs|
  {
    if m.sug > p.gen then
      SendsUnder(sending, q.pairs[m.sug - 1]) && sending.sentCount == 0 && sending != p.keys.sending
    else sending == p.keys.sending
  }

  predicate AbsorbedAs(p: Side, q: Side, m: Sent, k: Keys, after: (Keys, Absorbed))
    requires m.sug <= |q.pairs|
  {
    && after.0 == k.(sending := after.0.sending) && SendingAfter(p, q, m, after.0.sending)
    && after.1 == (if m.sug == 0 then NothingToAbsorb else AbsorbedIt)
  }

  lemma NewsOnArrival(p: Side, q: Side, m: Sent, k: Keys)
    requires Inv(p, q) && MsgInv(q, p, m) && m.sug > p.gen
    requires k.sending == p.keys.sending && SlotsMoved(p, k)
    ensures AbsorbedAs(p, q, m, k, AbsorbFrom(k, p.published, m.msg))
  {
    assert PairInv(q, p, m.sug - 1);
    if q.madeFor[m.sug - 1] > 0 {
      SenderKeyStillKept(p, q, m.sug, k);
    }
    NewSuggestionTaken(p, q, m.sug, k);
  }

  lemma NoNewsOnArrival(p: Side, q: Side, m: Sent, k: Keys)
    requires Inv(p, q) && MsgInv(q, p, m) && 0 < m.sug <= p.gen
    requires k.sending == p.keys.sending
    ensures AbsorbedAs(p, q, m, k, AbsorbFrom(k, p.published, m.msg))
  {
    assert PairInv(q, p, m.sug - 1);
    OldSuggestionIgnored(p, q, m, k, None);
    OldSuggestionIgnored(p, q, m, k, Some(q.pairs[m.sug - 1].senderKey));
  }

  /** Absorption does not fail, and moves the sending pair only to a later generation. */
  lemma AbsorbOnArrival(p: Side, q: Side, m: Sent, k: Keys)
    requires Inv(p, q) && MsgInv(q, p, m)
    requires k.sending == p.keys.sending && SlotsMoved(p, k)
    ensures AbsorbedAs(p, q, m, k, AbsorbFrom(k, p.published, m.msg))
  {
    if m.sug > p.gen {
      NewsOnArrival(p, q, m, k);
    } else if m.sug > 0 {
      NoNewsOnArrival(p, q, m, k);
    }
  }

  function ArrivalRole(p: Side, gen: nat): Role {
    if gen == 0 then PublishedIntro
    else if gen == Used(p) + 1 then Suggested
    else if gen == Used(p) then InUse
    else Retired
  }

  /** Record after delivery, in terms of generations. */
  predicate Arrived(p: Side, q: Side, m: Sent, k: Keys)
    requires m.sug <= |q.pairs|
  {
    && (if m.gen == Used(p) + 1 then
          k.suggested == None && k.inUse == PairAt(p, m.gen) && k.retired == PairAt(p, m.gen - 1)
        else
          k.suggested == p.keys.suggested && k.inUse == p.keys.inUse && k.retired == p.keys.retired)
    && SendingAfter(p, q, m, k.sending)
  }

  lemma ArrivalByPid(p: Side, q: Side, i: nat)
    requires Inv(p, q) && i < |q.out|
    requires q.out[i].gen > 0 && Used(p) <= q.out[i].gen + 1
    ensures var m := q.out[i];
            var (k, o) := Receive(p.keys, q.address, p.published, m.msg);
            && Arrived(p, q, m, k)
            && o == Opened(ArrivalRole(p, m.gen), if m.sug == 0 then NothingToAbsorb else AbsorbedIt)
  {
    var m := q.out[i];
    assert MsgInv(q, p, m);
    LookupFinds(p, q, m.gen, m.msg.meta.pid);
    var (pair, role) := GetReceivingPair(p.keys, m.msg.meta.pid).value;
    var k1 := if role == Suggested then MarkPairAsInUse(p.keys, pair) else p.keys;
    if m.gen == Used(p) + 1 {
      MarkMoves(p, q, m.gen);
    }
    AbsorbOnArrival(p, q, m, k1);
  }

  lemma MarkMoves(p: Side, q: Side, g: nat)
    requires SlotsInv(p) && 1 <= g <= |p.pairs| && g == Used(p) + 1
    ensures MarkPairAsInUse(p.keys, p.pairs[g - 1])
         == Keys(p.keys.sending, None, PairAt(p, g), PairAt(p, g - 1))
  {
  }

  lemma ArrivalByIntro(p: Side, q: Side, i: nat)
    requires Inv(p, q) && i < |q.out| && q.out[i].gen == 0
    ensures var m := q.out[i];
            var (k, o) := Receive(p.keys, q.address, p.published, m.msg);
            Arrived(p, q, m, k) && o == Opened(PublishedIntro, AbsorbedIt)
  {
    assert MsgInv(q, p, q.out[i]);
    AbsorbOnArrival(p, q, q.out[i], p.keys);
  }

  lemma ArrivalOfDropped(p: Side, q: Side, i: nat)
    requires Inv(p, q) && i < |q.out|
    requires q.out[i].gen > 0 && q.out[i].gen + 1 < Used(p)
    ensures Receive(p.keys, q.address, p.published, q.out[i].msg) == (p.keys, Undecryptable)
  {
    var m := q.out[i];
    assert MsgInv(q, p, m);
    LookupOfDropped(p, q, m.gen, m.msg.meta.pid);
  }

  // ------------------------------------------------- what growth does not break

  /** History of x is a prefix of history of x'; pids, keys and messages are never forgotten. */
  predicate Grown(x: Side, x': Side) {
    && x.address == x'.address && x.clock <= x'.clock && x.gen <= x'.gen
    && x.pairs <= x'.pairs && x.own <= x'.own && x.published <= x'.published
  }

  lemma PairInvGrows(p: Side, q: Side, p': Side, q': Side, i: nat)
    requires Grown(p, p') && Grown(q, q') && i < |p.pairs| == |p.madeFor| && PairInv(p, q, i)
    requires |p'.pairs| == |p'.madeFor| && p.madeFor <= p'.madeFor
    ensures PairInv(p', q', i)
  {
  }

  lemma PairsInvGrows(p: Side, q: Side, p': Side, q': Side)
    requires Grown(p, p') && Grown(q, q') && PairsInv(p, q)
    requires p'.pairs == p.pairs && p.madeFor == p'.madeFor
    ensures PairsInv(p', q')
  {
    forall i | 0 <= i < |p.pairs| ensures PairInv(p', q', i) {
      PairInvGrows(p, q, p', q', i);
    }
  }

  lemma MsgInvGrows(q: Side, p: Side, q': Side, p': Side, m: Sent)
    requires Grown(p, p') && Grown(q, q') && MsgInv(q, p, m)
    ensures MsgInv(q', p', m)
  {
  }

  lemma OutInvGrows(q: Side, p: Side, q': Side, p': Side)
    requires Grown(p, p') && Grown(q, q') && OutInv(q, p)
    requires q'.out == q.out
    ensures OutInv(q', p')
  {
    forall i | 0 <= i < |q.out| ensures MsgInv(q', p', q.out[i]) {
      MsgInvGrows(q, p, q', p', q.out[i]);
    }
  }

  // ------------------------------------------------------------------- delivery

  /** Generation in use after message m is delivered. */
  function UsedAfter(p: Side, m: Sent): nat {
    if m.gen == Used(p) + 1 then m.gen else Used(p)
  }

  predicate Delivered(p: Side, q: Side, i: nat, p': Side)
    requires i < |q.out| && q.out[i].sug <= |q.pairs|
  {
    var m := q.out[i];
    && p' == p.(keys := p'.keys, gen := p'.gen, hi := Max(p.hi, i + 1))
    && if m.gen > 0 && m.gen + 1 < Used(p) then
         p'.keys == p.keys && p'.gen == p.gen
       else
         Arrived(p, q, m, p'.keys) && p'.gen == Max(p.gen, m.sug)
  }

  lemma DeliverShape(p: Side, q: Side, i: nat)
    requires Inv(p, q) && i < |q.out|
    ensures q.out[i].sug <= |q.pairs| && Delivered(p, q, i, DeliverStep(p, q, i))
  {
    var m := q.out[i];
    assert MsgInv(q, p, m);
    if m.gen == 0 {
      ArrivalByIntro(p, q, i);
    } else if m.gen + 1 < Used(p) {
      ArrivalOfDropped(p, q, i);
    } else {
      ArrivalByPid(p, q, i);
    }
  }

  lemma DeliverSlots(p: Side, q: Side, i: nat, p': Side)
    requires Inv(p, q) && i < |q.out| && MsgInv(q, p, q.out[i])
    requires Delivered(p, q, i, p')
    ensures SlotsInv(p') && Used(p') == UsedAfter(p, q.out[i])
  {
    var m := q.out[i];
    if m.gen == Used(p) + 1 {
      MovedSlots(p, p', m.gen);
    } else {
      SameSlots(p, p');
    }
  }

  lemma SameSlots(p: Side, p': Side)
    requires SlotsInv(p) && p'.pairs == p.pairs
    requires (p'.keys.suggested, p'.keys.inUse, p'.keys.retired) == (p.keys.suggested, p.keys.inUse, p.keys.retired)
    ensures SlotsInv(p') && Used(p') == Used(p)
  {
  }

  lemma MovedSlots(p: Side, p': Side, g: nat)
    requires SlotsInv(p) && p'.pairs == p.pairs && g == Used(p) + 1 <= |p.pairs|
    requires (p'.keys.suggested, p'.keys.inUse, p'.keys.retired) == (None, PairAt(p, g), PairAt(p, g - 1))
    ensures SlotsInv(p') && Used(p') == g
  {
  }

  lemma DeliverKeepsOrder(p: Side, q: Side, i: nat, p': Side)
    requires Inv(p, q) && i < |q.out| && MsgInv(q, p, q.out[i])
    requires Delivered(p, q, i, p')
    ensures Used(p') <= q.gen && InOrderInv(p', q)
  {
    DeliverSlots(p, q, i, p');
    forall j | 0 <= j < |q.out| && p'.hi <= j + 1 ensures Used(p') <= q.out[j].gen {
      assert i <= j && (i < j ==> q.out[i].gen <= q.out[j].gen);
    }
  }

  lemma DeliverKeepsOwnHalf(p: Side, q: Side, i: nat, p': Side)
    requires Inv(p, q) && i < |q.out| && MsgInv(q, p, q.out[i])
    requires Delivered(p, q, i, p')
    ensures Half(p', q)
  {
    DeliverSlots(p, q, i, p');
    DeliverKeepsOrder(p, q, i, p');
    PairsInvGrows(p, q, p', q);
    OutInvGrows(q, p, q, p');
  }

  lemma DeliverKeepsOtherHalf(p: Side, q: Side, i: nat, p': Side)
    requires Inv(p, q) && i < |q.out| && MsgInv(q, p, q.out[i])
    requires Delivered(p, q, i, p')
    ensures Half(q, p')
  {
    DeliverSlots(p, q, i, p');
    PairsInvGrows(q, p, q, p');
    OutInvGrows(p, q, p', q);
    assert PendingInv(q, p');
  }

  lemma DeliverKeepsInv(p: Side, q: Side, i: nat)
    requires Inv(p, q)
    ensures Inv(DeliverStep(p, q, i), q)
  {
    if i < |q.out| {
      DeliverShape(p, q, i);
      assert MsgInv(q, p, q.out[i]);
      DeliverKeepsOwnHalf(p, q, i, DeliverStep(p, q, i));
      DeliverKeepsOtherHalf(p, q, i, DeliverStep(p, q, i));
    }
  }

  // ----------------------------------------------------------------- publishing

  predicate SamePairs(p: Side, p': Side) {
    && Grown(p, p') && p'.pairs == p.pairs && p'.madeFor == p.madeFor
    && p'.keys == p.keys && p'.gen == p.gen && p'.out == p.out && p'.hi == p.hi
  }

  lemma HalfGrows(p: Side, q: Side, p': Side, q': Side)
    requires Half(p, q) && SamePairs(p, p') && SamePairs(q, q')
    ensures Half(p', q')
  {
    PairsInvGrows(p, q, p', q');
    OutInvGrows(q, p, q', p');
  }

  lemma PublishKeepsInv(p: Side, q: Side, key: KeyId)
    requires Inv(p, q)
    ensures Inv(PublishStep(p, q, key), q)
  {
    var p' := PublishStep(p, q, key);
    HalfGrows(p, q, p', q);
    HalfGrows(q, p, q, p');
  }

  // -------------------------------------------------------------------- sending

  predicate CanAdd(p: Side, now: int, key: KeyId, pids: seq<Pid>) {
    && |pids| > 0 && p.clock <= now && key !in p.own
    && (forall pid :: pid in pids ==> pid !in LivePids(p.keys))
    && (|p.pairs| > 0 ==> p.pairs[|p.pairs| - 1].timestamp < now)
  }

  /** Side p after one send: the sending pair counts the message, and a new pair is or is not suggested. */
  predicate SentOne(p: Side, q: Side, p': Side)
  {
    && |p'.out| == |p.out| + 1 && p.out <= p'.out
    && p' == p.(keys := p'.keys, clock := p'.clock, pairs := p'.pairs, madeFor := p'.madeFor,
                own := p'.own, out := p'.out)
    && Grown(p, p') && p'.own !! q.own
    && (p'.keys.inUse, p'.keys.retired) == (p.keys.inUse, p.keys.retired)
    && var m := p'.out[|p.out|];
    && m.gen == p.gen
    && (if p'.keys.suggested == p.keys.suggested then
          && p'.pairs == p.pairs && p'.madeFor == p.madeFor
          && m.sug == (if p.keys.suggested.Some? then |p.pairs| else 0)
        else
          && p.keys.suggested.None? && p'.keys.suggested.Some?
          && p'.pairs == p.pairs + [p'.keys.suggested.value] && p'.madeFor == p.madeFor + [p.gen]
          && var r := p'.keys.suggested.value;
          && CanAdd(p, r.timestamp, r.recipientKey, r.pids) && r.recipientKey in p'.own && r.timestamp == p'.clock
          && !p'.keys.sending.NoPair? && r == NewPair(p'.keys.sending, r.timestamp, r.recipientKey, r.pids)
          && m.sug == |p'.pairs|)
    && (p.gen == 0 ==> m.sug > 0)
  }

  lemma SendShape(p: Side, q: Side, a: Action)
    requires Inv(p, q) && a.Send?
    ensures var p' := SendStep(p, q, a); p' == p || SentOne(p, q, p')
  {
  }

  /** The message of a send, and the sending pair after it. */
  predicate SentUnder(p: Side, q: Side, a: Action, p': Side)
    requires a.Send? && |p'.out| == |p.out| + 1 && p'.out[|p.out|].sug <= |p'.pairs|
  {
    var m, sug := p'.out[|p.out|].msg, p'.out[|p.out|].sug;
    && m.sender == p.address
    && m.nextCrypto == (if sug == 0 then None else Some(ToSuggestion(p'.pairs[sug - 1])))
    && if p.gen > 0 then
         && p.keys.sending.Ratcheted?
         && p'.keys.sending == p.keys.sending.(sentCount := p.keys.sending.sentCount + 1)
         && m.meta.ByPid? && m.meta.pid in p.keys.sending.pids
         && m.enc == p.keys.sending.msgMasterKey && m.msgCount == p'.keys.sending.sentCount
       else
         && p'.keys.sending.Intro? && p'.keys.sending.introKey in q.published
         && (p.keys.sending.NoPair? || p'.keys.sending == p.keys.sending)
         && m.meta == ByIntro(p'.keys.sending.introKey, a.ephemeral)
         && m.enc == SharedKey(a.ephemeral, p'.keys.sending.introKey)
         && m.certified == (p.address, a.ephemeral) && m.msgCount == 1
  }

  lemma SendUnder(p: Side, q: Side, a: Action)
    requires Inv(p, q) && a.Send?
    ensures var p' := SendStep(p, q, a); p' == p || (SentOne(p, q, p') && SentUnder(p, q, a, p'))
  {
    SendShape(p, q, a);
  }

  lemma SendKeepsSending(p: Side, q: Side, a: Action, p': Side)
    requires Inv(p, q) && a.Send? && SentOne(p, q, p') && SentUnder(p, q, a, p')
    ensures SendingInv(p', q)
  {
  }

  lemma SendMsg(p: Side, q: Side, a: Action, p': Side)
    requires Inv(p, q) && a.Send? && SentOne(p, q, p') && SentUnder(p, q, a, p')
    ensures MsgInv(p', q, p'.out[|p.out|])
  {
    if p.gen == 0 {
      if |p.pairs| > 0 { assert PairInv(p, q, |p.pairs| - 1); }
    } else {
      assert PairInv(q, p, p.gen - 1);
    }
  }

  lemma NewPairInv(p: Side, q: Side, p': Side)
    requires Inv(p, q) && SentOne(p, q, p') && p'.pairs != p.pairs && SendingInv(p', q)
    ensures PairInv(p', q, |p.pairs|)
  {
  }

  /** A new pair differs from earlier ones in key and time, and from those still in slots in pids. */
  lemma NewPairDiffers(p: Side, q: Side, p': Side)
    requires Inv(p, q) && SentOne(p, q, p') && p'.pairs != p.pairs
    ensures forall i :: 0 <= i < |p.pairs| ==>
              && p.pairs[i].recipientKey != p'.pairs[|p.pairs|].recipientKey
              && p.pairs[i].timestamp < p'.pairs[|p.pairs|].timestamp
    ensures forall i :: 0 <= i < |p.pairs| <= i + 2 ==> DisjointPids(p.pairs[i], p'.pairs[|p.pairs|])
  {
    forall i | 0 <= i < |p.pairs| ensures p.pairs[i].recipientKey != p'.pairs[|p.pairs|].recipientKey {
      assert PairInv(p, q, i);
    }
  }

  lemma SendKeepsPairs(p: Side, q: Side, p': Side)
    requires Inv(p, q) && SentOne(p, q, p') && SendingInv(p', q)
    ensures PairsInv(p', q)
  {
    if p'.pairs == p.pairs {
      PairsInvGrows(p, q, p', q);
    } else {
      NewPairInv(p, q, p');
      NewPairDiffers(p, q, p');
      forall i | 0 <= i < |p'.pairs| ensures PairInv(p', q, i) {
        if i < |p.pairs| {
          PairInvGrows(p, q, p', q, i);
        }
      }
    }
  }

  lemma SendKeepsCarries(p: Side, q: Side, p': Side)
    requires Inv(p, q) && SentOne(p, q, p')
    ensures |p'.madeFor| == |p'.pairs| && PendingInv(p', q) && CarriesInv(p', q)
  {
    forall i | 0 <= i < |p.out| ensures p.out[i].gen <= p.gen {
      assert MsgInv(p, q, p.out[i]);
    }
  }

  /** Generations of sent messages are not above that of the sending pair. */
  lemma SentBefore(p: Side, q: Side)
    requires OutInv(p, q)
    ensures forall i :: 0 <= i < |p.out| ==> p.out[i].gen <= p.gen
  {
    forall i | 0 <= i < |p.out| ensures p.out[i].gen <= p.gen {
      assert MsgInv(p, q, p.out[i]);
    }
  }

  lemma SendKeepsOut(p: Side, q: Side, p': Side)
    requires Inv(p, q) && SentOne(p, q, p') && MsgInv(p', q, p'.out[|p.out|])
    ensures OutInv(p', q)
  {
    SentBefore(p, q);
    OneMoreOut(p, q, p');
  }

  lemma OneMoreOut(p: Side, q: Side, p': Side)
    requires OutInv(p, q) && Grown(p, p')
    requires |p'.out| == |p.out| + 1 && p.out <= p'.out
    requires MsgInv(p', q, p'.out[|p.out|]) && p'.out[|p.out|].gen == p.gen
    requires forall i :: 0 <= i < |p.out| ==> p.out[i].gen <= p.gen
    ensures OutInv(p', q)
  {
    forall i | 0 <= i < |p.out| ensures MsgInv(p', q, p'.out[i]) {
      assert MsgInv(p, q, p.out[i]);
      MsgInvGrows(p, q, p', q, p.out[i]);
    }
  }

  lemma SendKeepsSlots(p: Side, q: Side, p': Side)
    requires Inv(p, q) && SentOne(p, q, p')
    ensures SlotsInv(p') && Used(p') == Used(p) && |p'.pairs| >= |p.pairs|
  {
  }

  lemma SendKeepsOwnHalf(p: Side, q: Side, p': Side)
    requires Inv(p, q) && SentOne(p, q, p') && SendingInv(p', q)
    ensures Half(p', q)
  {
    SendKeepsSlots(p, q, p');
    SendKeepsPairs(p, q, p');
    SendKeepsCarries(p, q, p');
    OutInvGrows(q, p, q, p');
  }

  lemma SendKeepsOtherHalf(p: Side, q: Side, p': Side)
    requires Inv(p, q) && SentOne(p, q, p')
    requires SendingInv(p', q) && MsgInv(p', q, p'.out[|p.out|])
    ensures Half(q, p')
  {
    PairsInvGrows(q, p, q, p');
    SendKeepsOut(p, q, p');
  }

  lemma SendKeepsInv(p: Side, q: Side, a: Action)
    requires Inv(p, q) && a.Send?
    ensures Inv(SendStep(p, q, a), q)
  {
    SendUnder(p, q, a);
    var p' := SendStep(p, q, a);
    if p' != p {
      SendKeepsSending(p, q, a, p');
      SendMsg(p, q, a, p');
      SendKeepsOwnHalf(p, q, p');
      SendKeepsOtherHalf(p, q, p');
    }
  }
}
