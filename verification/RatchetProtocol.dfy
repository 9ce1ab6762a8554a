/**
  Two correspondents exchanging messages. All messages ever sent by a side stay in its log, and
  any of them may be delivered at any time and any number of times: the network may lose, delay,
  reorder and repeat.
*/
module RatchetProtocol {
  import opened Wrappers
  import opened KeyMaterial

  /** A message, with the generation of the pair it is sent under, and that of the suggestion it carries. */
  datatype Sent = Sent(msg: Message, gen: nat, sug: nat)

  /**
    One side. Fields keys, published and clock are the state that code works with. The others
    record history: pairs are all pairs that this side ever suggested, generation g at index g-1;
    madeFor[i] is the generation of the peer's pair that pairs[i] was made for, zero standing for the
    peer's intro key; gen is the generation of the peer's pair in the sending pair, zero when it is
    not ratcheted; own are all keys generated here; out are all messages sent, and hi is above the
    indices in peer's out of all messages delivered here.
  */
  datatype Side = Side(
    address: Address,
    keys: Keys,
    published: set<KeyId>,
    clock: int,
    pairs: seq<ReceptionPair>,
    madeFor: seq<nat>,
    gen: nat,
    own: set<KeyId>,
    out: seq<Sent>,
    hi: nat)

  datatype Action =
    | Send(now: int, introKey: KeyId, ephemeral: KeyId, pairKey: KeyId, pids: seq<Pid>, pick: nat)
    | Deliver(i: nat)
    | Publish(key: KeyId)

  predicate Fresh(key: KeyId, me: Side, peer: Side) {
    key !in me.own && key !in peer.own
  }

  /** Generated values that come with a send are as random and clock give them. */
  predicate CanSend(me: Side, peer: Side, a: Action)
    requires a.Send?
  {
    && me.clock <= a.now
    && (me.keys.sending.NoPair? ==> a.introKey in peer.published)
    && Fresh(a.ephemeral, me, peer) && Fresh(a.pairKey, me, peer) && a.ephemeral != a.pairKey
    && |a.pids| == 5
  }

  /** Pids of a new pair differ from those of pairs in the same record, and its timestamp from earlier ones. */
  predicate CanAddPair(me: Side, a: Action)
    requires a.Send?
  {
    && (forall pid :: pid in a.pids ==> pid !in LivePids(me.keys))
    && (|me.pairs| > 0 ==> me.pairs[|me.pairs| - 1].timestamp < a.now)
  }

  function SendStep(me: Side, peer: Side, a: Action): Side
    requires a.Send?
  {
    if !CanSend(me, peer, a) then me else
    match GetSendingPair(me.keys, Some(a.introKey), a.ephemeral, a.pick)
    case Failure(_) => me
    case Success((k1, o)) =>
      match SuggestPair(k1, a.now, a.pairKey, a.pids)
      case Failure(_) => me
      case Success((k2, next)) =>
        var adds := k2.suggested != me.keys.suggested;
        if adds && !CanAddPair(me, a) then me else
        var pairs := if adds then me.pairs + [k2.suggested.value] else me.pairs;
        var madeFor := if adds then me.madeFor + [me.gen] else me.madeFor;
        var m := Message(o.meta, o.msgMasterKey, me.address, (me.address, a.ephemeral), next, o.msgCount);
        me.(keys := k2, clock := a.now, pairs := pairs, madeFor := madeFor, own := me.own + {a.ephemeral, a.pairKey},
            out := me.out + [Sent(m, me.gen, if next.None? then 0 else |pairs|)])
  }

  function Max(a: nat, b: nat): nat { if a < b then b else a }

  function DeliverStep(me: Side, peer: Side, i: nat): Side {
    if i >= |peer.out| then me else
    var (k, _) := Receive(me.keys, peer.address, me.published, peer.out[i].msg);
    me.(keys := k, hi := Max(me.hi, i + 1),
        gen := if k.sending != me.keys.sending then peer.out[i].sug else me.gen)
  }

  function PublishStep(me: Side, peer: Side, key: KeyId): Side {
    if !Fresh(key, me, peer) then me
    else me.(published := me.published + {key}, own := me.own + {key})
  }

  /** What an action does to the side that takes it; an action that is not possible does nothing. */
  function Do(me: Side, peer: Side, a: Action): Side {
    match a
    case Send(_, _, _, _, _, _) => SendStep(me, peer, a)
    case Deliver(i) => DeliverStep(me, peer, i)
    case Publish(key) => PublishStep(me, peer, key)
  }

  datatype System = System(a: Side, b: Side)

  datatype Step = ByA(action: Action) | ByB(action: Action)

  function Next(s: System, step: Step): System {
    match step
    case ByA(action) => s.(a := Do(s.a, s.b, action))
    case ByB(action) => s.(b := Do(s.b, s.a, action))
  }

  function Run(s: System, steps: seq<Step>): System {
    if |steps| == 0 then s else Next(Run(s, steps[..|steps| - 1]), steps[|steps| - 1])
  }

  function InitialSide(address: Address): Side {
    Side(address, NO_KEYS, {}, 0, [], [], 0, {}, [], 0)
  }

  function Initial(a: Address, b: Address): System {
    System(InitialSide(a), InitialSide(b))
  }

  // ------------------------------------------------------------------ invariant

  /** Number of p's pairs that were put in use. */
  function Used(p: Side): nat {
    if p.keys.suggested.Some? && |p.pairs| > 0 then |p.pairs| - 1 else |p.pairs|
  }

  function PairAt(p: Side, g: int): Option<ReceptionPair> {
    if 1 <= g <= |p.pairs| then Some(p.pairs[g - 1]) else None
  }

  /** Slots hold the last three generations, counting from the one above those put in use. */
  predicate SlotsInv(p: Side) {
    && (p.keys.suggested.Some? ==> |p.pairs| > 0)
    && p.keys.suggested == PairAt(p, Used(p) + 1)
    && p.keys.inUse == PairAt(p, Used(p))
    && p.keys.retired == PairAt(p, Used(p) - 1)
  }

  predicate SendsUnder(sending: SendingPair, r: ReceptionPair) {
    && sending.Ratcheted?
    && sending.pids == r.pids
    && sending.timestamp == r.timestamp
    && sending.recipientKey == r.recipientKey
    && sending.senderKey == r.senderKey
    && sending.msgMasterKey == r.msgMasterKey
  }

  predicate SendingInv(q: Side, p: Side) {
    if q.gen == 0 then
      || (q.keys.sending.NoPair? && |q.pairs| == 0)
      || (q.keys.sending.Intro? && q.keys.sending.introKey in p.published
          && forall i :: 0 <= i < |q.pairs| ==> q.pairs[i].senderKey == q.keys.sending.introKey)
    else
      q.gen <= |p.pairs| && SendsUnder(q.keys.sending, p.pairs[q.gen - 1])
  }

  predicate PairInv(p: Side, q: Side, i: nat)
    requires i < |p.pairs| == |p.madeFor|
  {
    var r := p.pairs[i];
    && |r.pids| > 0
    && r.recipientKey in p.own
    && r.timestamp <= p.clock
    && r.msgMasterKey == SharedKey(r.recipientKey, r.senderKey)
    && p.madeFor[i] <= p.gen
    && p.madeFor[i] <= |q.pairs|
    && r.isSenderIntroKey == (p.madeFor[i] == 0)
    && (if p.madeFor[i] == 0 then r.senderKey in q.published else r.senderKey == q.pairs[p.madeFor[i] - 1].recipientKey)
  }

  predicate PairsInv(p: Side, q: Side) {
    && |p.madeFor| == |p.pairs|
    && (forall i :: 0 <= i < |p.pairs| ==> PairInv(p, q, i))
    && (forall i, j :: 0 <= i < j < |p.pairs| ==>
          && p.pairs[i].recipientKey != p.pairs[j].recipientKey
          && p.pairs[i].timestamp < p.pairs[j].timestamp)
    && (forall i, j :: 0 <= i < j < |p.pairs| && j <= i + 2 ==> DisjointPids(p.pairs[i], p.pairs[j]))
  }

  predicate DisjointPids(r: ReceptionPair, r': ReceptionPair) {
    forall pid :: pid in r.pids ==> pid !in r'.pids
  }

  /** Message m of q is encrypted to p in the way its tags say. */
  predicate MsgInv(q: Side, p: Side, m: Sent) {
    && m.gen <= q.gen && m.gen <= |p.pairs|
    && m.sug <= |q.pairs|
    && m.msg.sender == q.address
    && m.msg.nextCrypto == (if m.sug == 0 then None else Some(ToSuggestion(q.pairs[m.sug - 1])))
    && if m.gen == 0 then
         && m.msg.meta.ByIntro? && m.msg.meta.recipientKid in p.published
         && m.msg.enc == SharedKey(m.msg.meta.recipientKid, m.msg.meta.senderPKey)
         && m.msg.certified == (q.address, m.msg.meta.senderPKey)
         && 1 <= m.sug && q.pairs[m.sug - 1].isSenderIntroKey
         && q.pairs[m.sug - 1].senderKey == m.msg.meta.recipientKid
       else
         && m.msg.meta.ByPid? && m.msg.meta.pid in p.pairs[m.gen - 1].pids
         && m.msg.enc == p.pairs[m.gen - 1].msgMasterKey
  }

  predicate OutInv(q: Side, p: Side) {
    && (forall i :: 0 <= i < |q.out| ==> MsgInv(q, p, q.out[i]))
    && (forall i, j :: 0 <= i < j < |q.out| ==> q.out[i].gen <= q.out[j].gen)
  }

  /** Pairs of p that q has not absorbed are made for pairs that q has not put behind one in use. */
  predicate PendingInv(p: Side, q: Side)
    requires |p.madeFor| == |p.pairs|
  {
    forall k :: q.gen <= k < |p.pairs| ==> Used(q) <= p.madeFor[k]
  }

  /** A message carries, or follows absorption of, all pairs made under generations before its own. */
  predicate CarriesInv(p: Side, q: Side)
    requires |p.madeFor| == |p.pairs|
  {
    forall i, k :: 0 <= i < |p.out| && 0 <= k < |p.pairs| && p.madeFor[k] < p.out[i].gen ==>
      k < p.out[i].sug || k < q.gen
  }

  /** Messages of q that none delivered to p overtook are under p's pair in use, or under a newer one. */
  predicate InOrderInv(p: Side, q: Side) {
    && p.hi <= |q.out|
    && (p.hi == 0 ==> Used(p) == 0)
    && (forall i :: 0 <= i < |q.out| && p.hi <= i + 1 ==> Used(p) <= q.out[i].gen)
  }

  /** Everything about pairs of p, and about q sending under them. */
  predicate Half(p: Side, q: Side) {
    && SlotsInv(p)
    && PairsInv(p, q)
    && Used(p) <= q.gen <= |p.pairs|
    && SendingInv(q, p)
    && OutInv(q, p)
    && PendingInv(p, q)
    && CarriesInv(p, q)
    && InOrderInv(p, q)
  }

  predicate Inv(p: Side, q: Side) {
    Half(p, q) && Half(q, p) && p.own !! q.own && p.published <= p.own && q.published <= q.own
  }
}
