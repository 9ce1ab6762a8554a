/**
  One correspondent's record under any sequence of received suggestions, in any order and any number
  of times, honest or not, among sends and any changes of reception slots.
*/
module SendingRuns {
  import opened Wrappers
  import opened KeyMaterial

  datatype Event =
    | Absorb(s: Suggestion, published: set<KeyId>)
    | Send(introKey: Option<KeyId>, ephemeral: KeyId, pick: nat)
    | Slots(suggested: Option<ReceptionPair>, inUse: Option<ReceptionPair>, retired: Option<ReceptionPair>)

  /** Ratcheted pair, by its two keys, and a count that a message is sent with. */
  datatype Use = Use(senderKey: KeyId, recipientKey: KeyId, count: nat)

  /** A record, and all that was ever sent under ratcheted pairs. */
  datatype State = State(keys: Keys, uses: seq<Use>)

  const INITIAL := State(NO_KEYS, [])

  function UseOf(k: Keys, o: Outgoing): seq<Use> {
    if k.sending.Ratcheted? then [Use(k.sending.senderKey, k.sending.recipientKey, o.msgCount)] else []
  }

  function Step(x: State, e: Event): State {
    match e
    case Absorb(s, published) =>
      var r := AbsorbSuggestion(x.keys, published, s);
      if r.Success? then x.(keys := r.value) else x
    case Send(introKey, ephemeral, pick) =>
      var r := GetSendingPair(x.keys, introKey, ephemeral, pick);
      if r.Success? then State(r.value.0, x.uses + UseOf(x.keys, r.value.1)) else x.(keys := Counted(x.keys))
    case Slots(suggested, inUse, retired) =>
      x.(keys := Keys(x.keys.sending, suggested, inUse, retired))
  }

  function Run(x: State, events: seq<Event>): State {
    if |events| == 0 then x else Step(Run(x, events[..|events| - 1]), events[|events| - 1])
  }

  // ---------- sending does not go back

  lemma StepIsNotBack(x: State, e: Event)
    ensures NotBack(x.keys.sending, Step(x, e).keys.sending)
  {
  }

  /** Once ratcheted, sending stays ratcheted, and the time of its pair never decreases. */
  lemma {:induction false} NeverGoesBack(events: seq<Event>, more: seq<Event>)
    ensures NotBack(Run(INITIAL, events).keys.sending, Run(INITIAL, events + more).keys.sending)
  {
    if |more| == 0 {
      assert events + more == events;
    } else {
      var all, before := events + more, more[..|more| - 1];
      assert all[..|all| - 1] == events + before;
      NeverGoesBack(events, before);
      StepIsNotBack(Run(INITIAL, events + before), more[|more| - 1]);
    }
  }

  // ---------- when a pair and a count are used twice

  ghost function SuggestionsIn(events: seq<Event>): set<Suggestion> {
    set e | e in events && e.Absorb? :: e.s
  }

  predicate SameKeys(s: Suggestion, t: Suggestion) {
    s.senderKid == t.senderKid && s.recipientKey == t.recipientKey
  }

  /** A pair can be left for another one, and come back, without time going back. */
  predicate ComesBack(s: Suggestion, t: Suggestion, s': Suggestion) {
    && |s.pids| > 0 && |s'.pids| > 0
    && SameKeys(s, s') && !SameKeys(s, t)
    && s.timestamp <= t.timestamp <= s'.timestamp
  }

  ghost predicate CanComeBack(suggestions: set<Suggestion>) {
    exists s, t, s' :: s in suggestions && t in suggestions && s' in suggestions && ComesBack(s, t, s')
  }

  ghost predicate RepeatsUse(events: seq<Event>) {
    var uses := Run(INITIAL, events).uses;
    exists i, j :: 0 <= i < j < |uses| && uses[i] == uses[j]
  }

  predicate Made(sending: SendingPair, s: Suggestion) {
    && sending.Ratcheted?
    && sending.pids == s.pids && sending.timestamp == s.timestamp
    && sending.senderKey == s.senderKid && sending.recipientKey == s.recipientKey
  }

  predicate UsesKeys(u: Use, s: Suggestion) {
    u.senderKey == s.senderKid && u.recipientKey == s.recipientKey
  }

  /** The pair of a use is in use since then, or another pair came after it. */
  ghost predicate UsedBefore(u: Use, s: Suggestion, sending: SendingPair, suggestions: set<Suggestion>) {
    && s in suggestions && |s.pids| > 0 && UsesKeys(u, s)
    && sending.Ratcheted? && s.timestamp <= sending.timestamp
    && (|| (sending.senderKey == u.senderKey && sending.recipientKey == u.recipientKey && u.count <= sending.sentCount)
        || exists t :: t in suggestions && !SameKeys(s, t) && s.timestamp <= t.timestamp <= sending.timestamp)
  }

  ghost predicate AllUsedBefore(x: State, suggestions: set<Suggestion>) {
    forall u :: u in x.uses ==> exists s :: UsedBefore(u, s, x.keys.sending, suggestions)
  }

  ghost predicate IsMade(sending: SendingPair, suggestions: set<Suggestion>) {
    sending.Ratcheted? ==> exists s :: s in suggestions && Made(sending, s)
  }

  ghost predicate StateInv(x: State, suggestions: set<Suggestion>) {
    && IsMade(x.keys.sending, suggestions)
    && AllUsedBefore(x, suggestions)
    && (forall i, j :: 0 <= i < j < |x.uses| ==> x.uses[i] != x.uses[j])
  }

  /** A suggestion either changes nothing, or puts a pair with other keys, that is not older. */
  lemma AbsorbIsForward(x: State, s: Suggestion, published: set<KeyId>)
    ensures var after := Step(x, Absorb(s, published)).keys;
            || after == x.keys
            || (&& Made(after.sending, s)
                && (x.keys.sending.Ratcheted? ==>
                      && x.keys.sending.timestamp <= s.timestamp
                      && (x.keys.sending.senderKey, x.keys.sending.recipientKey) != (s.senderKid, s.recipientKey)))
  {
  }

  lemma AbsorbKeepsInv(x: State, s: Suggestion, published: set<KeyId>, suggestions: set<Suggestion>)
    requires s in suggestions && StateInv(x, suggestions)
    ensures StateInv(Step(x, Absorb(s, published)), suggestions)
  {
    AbsorbIsForward(x, s, published);
    var x' := Step(x, Absorb(s, published));
    if x'.keys != x.keys {
      forall u | u in x'.uses ensures exists s0 :: UsedBefore(u, s0, x'.keys.sending, suggestions) {
        var s0 :| UsedBefore(u, s0, x.keys.sending, suggestions);
        assert UsedBefore(u, s0, x'.keys.sending, suggestions);
      }
    }
  }

  /** A use before is not the next one. */
  lemma NextUseDiffers(u: Use, s: Suggestion, sending: SendingPair, suggestions: set<Suggestion>)
    requires !CanComeBack(suggestions) && IsMade(sending, suggestions)
    requires UsedBefore(u, s, sending, suggestions) && |sending.pids| > 0
    ensures u != Use(sending.senderKey, sending.recipientKey, sending.sentCount + 1)
  {
    var s0 :| s0 in suggestions && Made(sending, s0);
    if u == Use(sending.senderKey, sending.recipientKey, sending.sentCount + 1) {
      var t :| t in suggestions && !SameKeys(s, t) && s.timestamp <= t.timestamp <= sending.timestamp;
      assert ComesBack(s, t, s0);
    }
  }

  lemma SendKeepsInv(x: State, e: Event, suggestions: set<Suggestion>)
    requires !CanComeBack(suggestions) && StateInv(x, suggestions) && e.Send?
    ensures StateInv(Step(x, e), suggestions)
  {
    var x' := Step(x, e);
    var sending := x.keys.sending;
    if sending.Ratcheted? {
      var s0 :| s0 in suggestions && Made(sending, s0);
      assert Made(x'.keys.sending, s0);
      forall u | u in x.uses ensures exists s :: UsedBefore(u, s, x'.keys.sending, suggestions) {
        var s :| UsedBefore(u, s, sending, suggestions);
        assert UsedBefore(u, s, x'.keys.sending, suggestions);
      }
      if |sending.pids| > 0 {
        OneMoreUse(x, x', s0, suggestions);
      }
    }
  }

  lemma OneMoreUse(x: State, x': State, s0: Suggestion, suggestions: set<Suggestion>)
    requires !CanComeBack(suggestions) && StateInv(x, suggestions)
    requires s0 in suggestions && Made(x.keys.sending, s0) && |s0.pids| > 0
    requires var sending := x.keys.sending;
             && x'.keys.sending == sending.(sentCount := sending.sentCount + 1)
             && x'.uses == x.uses + [Use(sending.senderKey, sending.recipientKey, sending.sentCount + 1)]
    requires forall u :: u in x.uses ==> exists s :: UsedBefore(u, s, x'.keys.sending, suggestions)
    ensures StateInv(x', suggestions)
  {
    var sending := x.keys.sending;
    var use := Use(sending.senderKey, sending.recipientKey, sending.sentCount + 1);
    assert Made(x'.keys.sending, s0) && UsedBefore(use, s0, x'.keys.sending, suggestions);
    forall i, j | 0 <= i < j < |x'.uses| ensures x'.uses[i] != x'.uses[j] {
      assert x'.uses[i] == x.uses[i] && x.uses[i] in x.uses;
      if j == |x.uses| {
        var s :| UsedBefore(x.uses[i], s, sending, suggestions);
        NextUseDiffers(x.uses[i], s, sending, suggestions);
      }
    }
  }

  lemma StepKeepsInv(x: State, e: Event, suggestions: set<Suggestion>)
    requires !CanComeBack(suggestions) && StateInv(x, suggestions)
    requires e.Absorb? ==> e.s in suggestions
    ensures StateInv(Step(x, e), suggestions)
  {
    match e
    case Absorb(s, published) => AbsorbKeepsInv(x, s, published, suggestions);
    case Send(_, _, _) => SendKeepsInv(x, e, suggestions);
    case Slots(_, _, _) =>
  }

  lemma {:induction false} RunKeepsInv(events: seq<Event>, suggestions: set<Suggestion>)
    requires !CanComeBack(suggestions) && SuggestionsIn(events) <= suggestions
    ensures StateInv(Run(INITIAL, events), suggestions)
  {
    if |events| > 0 {
      var before, e := events[..|events| - 1], events[|events| - 1];
      assert SuggestionsIn(before) <= SuggestionsIn(events) && (e.Absorb? ==> e.s in SuggestionsIn(events));
      RunKeepsInv(before, suggestions);
      StepKeepsInv(Run(INITIAL, before), e, suggestions);
    }
  }

  /** A pair for reception of a given key. */
  function PairOf(key: KeyId): ReceptionPair {
    ReceptionPair([], key, false, key, SharedKey(key, key), 0)
  }

  /** A pair is used, left for another one, and used again. */
  function BackAndForth(s: Suggestion, t: Suggestion, s': Suggestion): seq<Event> {
    var send := Send(None, 0, 0);
    var published := {s.senderKid, t.senderKid};
    [Slots(Some(PairOf(s.senderKid)), Some(PairOf(t.senderKid)), None),
     Absorb(s, published), send, Absorb(t, published), Absorb(s', published), send]
  }

  lemma RunIs(x: State, events: seq<Event>, n: nat, before: State, after: State)
    requires n < |events| && Run(x, events[..n]) == before && after == Step(before, events[n])
    ensures Run(x, events[..n + 1]) == after
  {
    assert events[..n + 1][..n] == events[..n];
  }

  predicate IsTaken(k: Keys, s: Suggestion, published: set<KeyId>) {
    && s.senderKid in published && (HasKid(k.suggested, s.senderKid) || HasKid(k.inUse, s.senderKid))
    && !SameAsSending(k.sending, s) && !NewerThan(k.sending, s)
  }

  lemma Absorbs(x: State, s: Suggestion, published: set<KeyId>)
    requires IsTaken(x.keys, s, published)
    ensures Step(x, Absorb(s, published)) == x.(keys := x.keys.(sending := RatchetedTo(s, s.senderKid)))
  {
  }

  lemma Sends(x: State, s: Suggestion, send: Event)
    requires send.Send? && x.keys.sending == RatchetedTo(s, s.senderKid) && |s.pids| > 0
    ensures Step(x, send) == State(x.keys.(sending := x.keys.sending.(sentCount := 1)),
                                   x.uses + [Use(s.senderKid, s.recipientKey, 1)])
  {
  }

  lemma BackAndForthRepeats(s: Suggestion, t: Suggestion, s': Suggestion)
    requires ComesBack(s, t, s')
    ensures Run(INITIAL, BackAndForth(s, t, s')).uses
         == [Use(s.senderKid, s.recipientKey, 1), Use(s.senderKid, s.recipientKey, 1)]
  {
    var events := BackAndForth(s, t, s');
    var published := {s.senderKid, t.senderKid};
    var x1 := Step(INITIAL, events[0]);
    RunIs(INITIAL, events, 0, INITIAL, x1);
    Absorbs(x1, s, published);
    var x2 := Step(x1, events[1]);
    RunIs(INITIAL, events, 1, x1, x2);
    Sends(x2, s, events[2]);
    var x3 := Step(x2, events[2]);
    RunIs(INITIAL, events, 2, x2, x3);
    Absorbs(x3, t, published);
    var x4 := Step(x3, events[3]);
    RunIs(INITIAL, events, 3, x3, x4);
    Absorbs(x4, s', published);
    var x5 := Step(x4, events[4]);
    RunIs(INITIAL, events, 4, x4, x5);
    Sends(x5, s', events[5]);
    RunIs(INITIAL, events, 5, x5, Step(x5, events[5]));
    assert events[..6] == events;
  }

  /** Some sequence of events with given suggestions uses a ratcheted pair and a count twice, exactly when
    * among suggestions there are those, with which a pair comes back after another one. */
  lemma UseRepeats(suggestions: set<Suggestion>)
    ensures (exists events :: SuggestionsIn(events) <= suggestions && RepeatsUse(events)) <==> CanComeBack(suggestions)
  {
    if CanComeBack(suggestions) {
      var s, t, s' :|
        s in suggestions && t in suggestions && s' in suggestions && ComesBack(s, t, s');
      var events := BackAndForth(s, t, s');
      BackAndForthRepeats(s, t, s');
      var uses := Run(INITIAL, events).uses;
      assert uses[0] == uses[1];
      assert SuggestionsIn(events) <= suggestions && RepeatsUse(events);
    } else {
      forall events | SuggestionsIn(events) <= suggestions ensures !RepeatsUse(events) {
        RunKeepsInv(events, suggestions);
      }
    }
  }

  /** Suggestions that differ in keys, and in times, never lead to a repeated use. */
  lemma NoUseRepeats(events: seq<Event>)
    requires forall s, t :: s in SuggestionsIn(events) && t in SuggestionsIn(events) && s != t ==>
               !SameKeys(s, t) && s.timestamp != t.timestamp
    ensures !RepeatsUse(events)
  {
    UseRepeats(SuggestionsIn(events));
  }

  /** A suggestion with a pid, made for key 1. */
  function Example(recipientKey: KeyId, timestamp: int): Suggestion {
    Suggestion(["a"], 1, recipientKey, true, timestamp)
  }

  /** Two suggestions of one time replace each other, and counting starts anew each time. */
  lemma EqualTimesRepeatUse(timestamp: int)
    ensures RepeatsUse(BackAndForth(Example(2, timestamp), Example(3, timestamp), Example(2, timestamp)))
  {
    var s := Example(2, timestamp);
    BackAndForthRepeats(s, Example(3, timestamp), s);
    var uses := Run(INITIAL, BackAndForth(s, Example(3, timestamp), s)).uses;
    assert uses[0] == uses[1];
  }

  /** Different times are not enough, when keys are suggested again. */
  lemma EqualKeysRepeatUse()
    ensures RepeatsUse(BackAndForth(Example(2, 10), Example(3, 20), Example(2, 30)))
  {
    BackAndForthRepeats(Example(2, 10), Example(3, 20), Example(2, 30));
    var uses := Run(INITIAL, BackAndForth(Example(2, 10), Example(3, 20), Example(2, 30))).uses;
    assert uses[0] == uses[1];
  }
}
