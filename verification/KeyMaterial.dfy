/**
  Values kept in a correspondent's record of a keyring, and what each operation
  of `CorrespondentKeys` does to such a record.

  A key pair is known by one abstract id, which stands for its `kid` and for its
  bytes. The Diffie-Hellman function is the free commutative one: the shared key
  of a secret key and a public key is the unordered pair of their ids.
*/
module KeyMaterial {
  import opened Wrappers

  type KeyId = nat
  type Pid = string
  type Address = string
  type MasterKey = set<KeyId>

  /** Least age, in milliseconds, of a ratcheted pair at which a newer one is suggested. */
  const MIN_PERIOD_FOR_PAIR := 15 * 60 * 1000

  function SharedKey(skey: KeyId, pkey: KeyId): MasterKey {
    {skey, pkey}
  }

  /** A pair that this side generates, and suggests to a correspondent for sending messages here. */
  datatype ReceptionPair = ReceptionPair(
    pids: seq<Pid>,
    recipientKey: KeyId,
    isSenderIntroKey: bool,
    senderKey: KeyId,
    msgMasterKey: MasterKey,
    timestamp: int)

  /** A pair for sending to a correspondent; zero in sentCount stands for absent sentMsgs. */
  datatype SendingPair =
    | NoPair
    | Intro(introKey: KeyId)
    | Ratcheted(
        pids: seq<Pid>,
        timestamp: int,
        senderKey: KeyId,
        recipientKey: KeyId,
        msgMasterKey: MasterKey,
        sentCount: nat)

  datatype Suggestion = Suggestion(
    pids: seq<Pid>,
    senderKid: KeyId,
    recipientKey: KeyId,
    isSenderIntroKey: bool,
    timestamp: int)

  /** What a keyring keeps for one correspondent; the slot that the code calls old is retired here. */
  datatype Keys = Keys(
    sending: SendingPair,
    suggested: Option<ReceptionPair>,
    inUse: Option<ReceptionPair>,
    retired: Option<ReceptionPair>)

  const NO_KEYS := Keys(NoPair, None, None, None)

  datatype Role = Suggested | InUse | Retired | PublishedIntro

  datatype KeyError = SendingPairNotSet | NoPids | UnknownKid | UnknownCorrespondent

  /** How the recipient of a message is told about the key in use. */
  datatype CryptoMeta = ByPid(pid: Pid) | ByIntro(recipientKid: KeyId, senderPKey: KeyId)

  datatype Outgoing = Outgoing(meta: CryptoMeta, msgMasterKey: MasterKey, msgCount: nat)

  // ---------------------------------------------------------------- suggesting

  function ToSuggestion(p: ReceptionPair): Suggestion {
    Suggestion(p.pids, p.senderKey, p.recipientKey, p.isSenderIntroKey, p.timestamp)
  }

  predicate ShouldSuggestNewPair(sending: SendingPair, now: int)
    requires !sending.NoPair?
  {
    match sending
    case Intro(_) => true
    case Ratcheted(_, timestamp, _, _, _, sentCount) =>
      sentCount != 0 && timestamp + MIN_PERIOD_FOR_PAIR <= now
  }

  function NewPair(sending: SendingPair, now: int, newKey: KeyId, newPids: seq<Pid>): ReceptionPair
    requires !sending.NoPair?
  {
    var corrPKey := if sending.Intro? then sending.introKey else sending.recipientKey;
    ReceptionPair(newPids, newKey, sending.Intro?, corrPKey, SharedKey(newKey, corrPKey), now)
  }

  /** Record after a call of suggestPair, together with the suggestion that the call returns. */
  function SuggestPair(k: Keys, now: int, newKey: KeyId, newPids: seq<Pid>)
    : Result<(Keys, Option<Suggestion>), KeyError>
  {
    if k.suggested.Some? then
      Success((k, Some(ToSuggestion(k.suggested.value))))
    else if k.sending.NoPair? then
      Failure(SendingPairNotSet)
    else if !ShouldSuggestNewPair(k.sending, now) then
      Success((k, None))
    else
      var p := NewPair(k.sending, now, newKey, newPids);
      Success((k.(suggested := Some(p)), Some(ToSuggestion(p))))
  }

  // ------------------------------------------------------------ reception slots

  function PidsOf(p: Option<ReceptionPair>): set<Pid> {
    match p
    case None => {}
    case Some(pair) => set pid | pid in pair.pids
  }

  /** Pids under which a correspondent with this record should be found. */
  function LivePids(k: Keys): set<Pid> {
    PidsOf(k.suggested) + PidsOf(k.inUse) + PidsOf(k.retired)
  }

  function MarkPairAsInUse(k: Keys, pair: ReceptionPair): Keys {
    if k.suggested != Some(pair) then k
    else if k.inUse.None? then k.(inUse := k.suggested, suggested := None)
    else k.(retired := k.inUse, inUse := k.suggested, suggested := None)
  }

  function HasPid(p: Option<ReceptionPair>, pid: Pid): bool {
    p.Some? && pid in p.value.pids
  }

  function GetReceivingPair(k: Keys, pid: Pid): Option<(ReceptionPair, Role)> {
    if HasPid(k.suggested, pid) then Some((k.suggested.value, Suggested))
    else if HasPid(k.inUse, pid) then Some((k.inUse.value, InUse))
    else if HasPid(k.retired, pid) then Some((k.retired.value, Retired))
    else None
  }

  // --------------------------------------------------------------- sending pair

  function HasKid(p: Option<ReceptionPair>, kid: KeyId): bool {
    p.Some? && p.value.recipientKey == kid
  }

  function FindReceptionKey(k: Keys, kid: KeyId): Option<KeyId> {
    if HasKid(k.suggested, kid) || HasKid(k.inUse, kid) || HasKid(k.retired, kid) then Some(kid) else None
  }

  predicate SameAsSending(sending: SendingPair, s: Suggestion) {
    sending.Ratcheted? && sending.recipientKey == s.recipientKey && sending.senderKey == s.senderKid
  }

  predicate NewerThan(sending: SendingPair, s: Suggestion) {
    sending.Ratcheted? && sending.timestamp > s.timestamp
  }

  /** Once ratcheted, a sending pair stays ratcheted, and its timestamp never decreases. */
  predicate NotBack(before: SendingPair, after: SendingPair) {
    before.Ratcheted? ==> after.Ratcheted? && before.timestamp <= after.timestamp
  }

  function RatchetedTo(s: Suggestion, senderKey: KeyId): SendingPair {
    Ratcheted(s.pids, s.timestamp, senderKey, s.recipientKey, SharedKey(senderKey, s.recipientKey), 0)
  }

  /** Record after ratchetUpSendingPair; the call fails when the sender's key of the suggestion is not found. */
  function RatchetUpSendingPair(k: Keys, s: Suggestion, usedIntro: Option<KeyId>): Result<Keys, KeyError> {
    if SameAsSending(k.sending, s) || NewerThan(k.sending, s) then
      Success(k)
    else
      var senderKey := if s.isSenderIntroKey then usedIntro else FindReceptionKey(k, s.senderKid);
      match senderKey
      case None => Failure(UnknownKid)
      case Some(key) => Success(k.(sending := RatchetedTo(s, key)))
  }

  /** A message under a ratcheted pair is counted, even when it then can't be sent for the lack of pids. */
  function Counted(k: Keys): Keys {
    if k.sending.Ratcheted? then k.(sending := k.sending.(sentCount := k.sending.sentCount + 1)) else k
  }

  /**
    Record after getSendingPair, with what the call returns. The ephemeral key is the one generated
    for an introductory message, and pick stands for the random choice of a pid.
  */
  function GetSendingPair(k: Keys, introKey: Option<KeyId>, ephemeral: KeyId, pick: nat)
    : Result<(Keys, Outgoing), KeyError>
  {
    if k.sending.NoPair? && introKey.None? then
      Failure(SendingPairNotSet)
    else
      var p := if k.sending.NoPair? then Intro(introKey.value) else k.sending;
      match p
      case Intro(recipientKey) =>
        Success((k.(sending := p),
                 Outgoing(ByIntro(recipientKey, ephemeral), SharedKey(ephemeral, recipientKey), 1)))
      case Ratcheted(pids, _, _, _, masterKey, sentCount) =>
        if |pids| == 0 then Failure(NoPids)
        else
          Success((k.(sending := p.(sentCount := sentCount + 1)),
                   Outgoing(ByPid(pids[pick % |pids|]), masterKey, sentCount + 1)))
  }

  // ------------------------------------------------------------------ receiving

  /** An encrypted message; enc is the master key that its header is encrypted with. */
  datatype Message = Message(
    meta: CryptoMeta,
    enc: MasterKey,
    sender: Address,
    certified: (Address, KeyId),
    nextCrypto: Option<Suggestion>,
    msgCount: nat)

  datatype Absorbed = NothingToAbsorb | AbsorbedIt | AbsorbFailed

  datatype Outcome = Undecryptable | Rejected | Opened(role: Role, absorbed: Absorbed)

  /** Absorbing a suggestion into the record of its sender, given this side's published intro keys. */
  function AbsorbSuggestion(k: Keys, published: set<KeyId>, s: Suggestion): Result<Keys, KeyError> {
    if s.isSenderIntroKey then
      if s.senderKid in published then RatchetUpSendingPair(k, s, Some(s.senderKid))
      else Failure(UnknownKid)
    else
      RatchetUpSendingPair(k, s, None)
  }

  /** Introductory messages must suggest a pair made with the very intro key that they use. */
  predicate FitsMeta(meta: CryptoMeta, s: Suggestion) {
    meta.ByIntro? ==> s.isSenderIntroKey && s.senderKid == meta.recipientKid
  }

  function AbsorbFrom(k: Keys, published: set<KeyId>, m: Message): (Keys, Absorbed) {
    match m.nextCrypto
    case None => (k, NothingToAbsorb)
    case Some(s) =>
      if !FitsMeta(m.meta, s) then (k, AbsorbFailed)
      else
        match AbsorbSuggestion(k, published, s)
        case Success(k') => (k', AbsorbedIt)
        case Failure(_) => (k, AbsorbFailed)
  }

  /** Does the pair that the record has under the message's pid open the message? */
  predicate OpensByPid(k: Keys, m: Message) {
    && m.meta.ByPid?
    && var found := GetReceivingPair(k, m.meta.pid);
       found.Some? && found.value.0.msgMasterKey == m.enc
  }

  predicate OpensByIntro(published: set<KeyId>, m: Message) {
    && m.meta.ByIntro?
    && m.meta.recipientKid in published
    && SharedKey(m.meta.recipientKid, m.meta.senderPKey) == m.enc
  }

  /** What decrypting a message does to the record of correspondent `from`. */
  function Receive(k: Keys, from: Address, published: set<KeyId>, m: Message): (Keys, Outcome) {
    match m.meta
    case ByPid(pid) =>
      if !OpensByPid(k, m) then (k, Undecryptable)
      else
        var (pair, role) := GetReceivingPair(k, pid).value;
        var k1 := if role == Suggested then MarkPairAsInUse(k, pair) else k;
        if m.sender != from then (k1, Rejected)
        else
          var (k2, absorbed) := AbsorbFrom(k1, published, m);
          (k2, Opened(role, absorbed))
    case ByIntro(recipientKid, senderPKey) =>
      if !OpensByIntro(published, m) then (k, Undecryptable)
      else if m.certified != (from, senderPKey) || m.sender != from then (k, Rejected)
      else
        var (k2, absorbed) := AbsorbFrom(k, published, m);
        (k2, Opened(PublishedIntro, absorbed))
  }

  // ------------------------------------------------ what is promised, by itself

  /** A pair is suggested again, till it is used. A new one is suggested in answer to an intro key, or to a ratcheted
    * pair that was used for sending, when that is at least 15 minutes old. */
  lemma SuggestedWhenDue(k: Keys, now: int, newKey: KeyId, newPids: seq<Pid>)
    ensures var r := SuggestPair(k, now, newKey, newPids);
            && (r.Failure? <==> k.suggested.None? && k.sending.NoPair?)
            && (r.Success? ==>
                  && r.value.0 == k.(suggested := r.value.0.suggested)
                  && (k.suggested.Some? ==> r.value.0 == k)
                  && (r.value.1.None? <==> r.value.0.suggested.None?)
                  && (r.value.1.None? <==>
                        k.suggested.None? && k.sending.Ratcheted?
                        && (k.sending.sentCount == 0 || now - k.sending.timestamp < 15 * 60 * 1000)))
    ensures var r := SuggestPair(k, now, newKey, newPids);
            r.Success? && r.value.1.Some? ==>
              var p, s := r.value.0.suggested.value, r.value.1.value;
              && (s.pids, s.recipientKey, s.senderKid) == (p.pids, p.recipientKey, p.senderKey)
              && (s.isSenderIntroKey, s.timestamp) == (p.isSenderIntroKey, p.timestamp)
              && (k.suggested.None? ==>
                    && (p.pids, p.recipientKey, p.timestamp) == (newPids, newKey, now)
                    && p.isSenderIntroKey == k.sending.Intro?
                    && (p.isSenderIntroKey ==> p.senderKey == k.sending.introKey)
                    && (!p.isSenderIntroKey ==> p.senderKey == k.sending.recipientKey)
                    && p.msgMasterKey == {p.recipientKey, p.senderKey})
  {
  }

  /** Only the suggested pair is put in use; the one before it is retired, and the one before that is dropped. */
  lemma MarkedMovesSlots(k: Keys, pair: ReceptionPair)
    ensures var k' := MarkPairAsInUse(k, pair);
            && k'.sending == k.sending
            && (k.suggested != Some(pair) ==> k' == k)
            && (k.suggested == Some(pair) ==>
                  && k'.suggested.None? && k'.inUse == Some(pair)
                  && k'.retired == if k.inUse.Some? then k.inUse else k.retired)
  {
  }

  /** A pair is found under any of its pids, the suggested one first, and the retired one last. */
  lemma FoundInSlot(k: Keys, pid: Pid)
    ensures var found := GetReceivingPair(k, pid);
            && (found.None? <==> forall slot :: slot in {k.suggested, k.inUse, k.retired} && slot.Some? ==>
                                   pid !in slot.value.pids)
            && (found.Some? ==>
                  && pid in found.value.0.pids
                  && (match found.value.1
                      case Suggested => k.suggested == Some(found.value.0)
                      case InUse => k.inUse == Some(found.value.0) && !HasPid(k.suggested, pid)
                      case Retired =>
                        k.retired == Some(found.value.0) && !HasPid(k.suggested, pid) && !HasPid(k.inUse, pid)
                      case PublishedIntro => false))
  {
  }

  /** A message goes under the ratcheted pair, with the next count, or is introductory, with count of one. */
  lemma SentUnderPair(k: Keys, introKey: Option<KeyId>, ephemeral: KeyId, pick: nat)
    ensures var r := GetSendingPair(k, introKey, ephemeral, pick);
            match k.sending
            case Ratcheted(pids, _, _, _, masterKey, sentCount) =>
              && (r.Success? <==> |pids| > 0)
              && (r.Success? ==>
                    && r.value.0 == k.(sending := k.sending.(sentCount := sentCount + 1))
                    && r.value.1.meta.ByPid? && r.value.1.meta.pid in pids
                    && r.value.1.msgMasterKey == masterKey && r.value.1.msgCount == sentCount + 1)
            case Intro(key) =>
              && r.Success? && r.value.0 == k
              && r.value.1 == Outgoing(ByIntro(key, ephemeral), {key, ephemeral}, 1)
            case NoPair =>
              && (r.Success? <==> introKey.Some?)
              && (r.Success? ==>
                    && r.value.0 == k.(sending := Intro(introKey.value))
                    && r.value.1 == Outgoing(ByIntro(introKey.value, ephemeral), {introKey.value, ephemeral}, 1))
  {
  }

  predicate HasKey(k: Keys, kid: KeyId) {
    exists slot :: slot in {k.suggested, k.inUse, k.retired} && slot.Some? && slot.value.recipientKey == kid
  }

  /** A suggestion that is not older than the sending pair, and has other keys, replaces it, when it is made for a key
    * that this side has: for a published one, or for one in slots. Nothing else is changed. */
  lemma TakenWithKnownKey(k: Keys, published: set<KeyId>, s: Suggestion)
    ensures var r := AbsorbSuggestion(k, published, s);
            var isKnown := if s.isSenderIntroKey then s.senderKid in published else HasKey(k, s.senderKid);
            var isOld := k.sending.Ratcheted? &&
                         (|| s.timestamp < k.sending.timestamp
                          || (k.sending.recipientKey == s.recipientKey && k.sending.senderKey == s.senderKid));
            && (r.Success? <==> isKnown || (isOld && !s.isSenderIntroKey))
            && (r.Success? && isOld ==> r.value == k)
            && (r.Success? && !isOld ==>
                  && r.value == k.(sending := r.value.sending)
                  && r.value.sending
                  == Ratcheted(s.pids, s.timestamp, s.senderKid, s.recipientKey, {s.senderKid, s.recipientKey}, 0))
  {
    if HasKid(k.suggested, s.senderKid) { assert k.suggested in {k.suggested, k.inUse, k.retired}; }
    if HasKid(k.inUse, s.senderKid) { assert k.inUse in {k.suggested, k.inUse, k.retired}; }
    if HasKid(k.retired, s.senderKid) { assert k.retired in {k.suggested, k.inUse, k.retired}; }
  }

  /** Has this side a key for a message? */
  predicate HasKeyFor(k: Keys, published: set<KeyId>, m: Message) {
    match m.meta
    case ByPid(pid) =>
      var found := GetReceivingPair(k, pid);
      found.Some? && found.value.0.msgMasterKey == m.enc
    case ByIntro(recipientKid, senderPKey) =>
      recipientKid in published && m.enc == {recipientKid, senderPKey}
  }

  /** Is sender's address in a message the one, to which keys belong? */
  predicate IsFrom(m: Message, from: Address) {
    m.sender == from && (m.meta.ByIntro? ==> m.certified == (from, m.meta.senderPKey))
  }

  /** Suggestion in an introductory message is made with the very intro key that the message uses. */
  predicate FitsIntro(m: Message) {
    m.meta.ByIntro? && m.nextCrypto.Some? ==>
      m.nextCrypto.value.isSenderIntroKey && m.nextCrypto.value.senderKid == m.meta.recipientKid
  }

  /** A message is opened exactly when there is a key for it, and it says to be from the owner of keys. */
  lemma OpenedFromOwner(k: Keys, from: Address, published: set<KeyId>, m: Message)
    ensures var (k', outcome) := Receive(k, from, published, m);
            && (outcome == Undecryptable <==> !HasKeyFor(k, published, m))
            && (outcome.Opened? <==> HasKeyFor(k, published, m) && IsFrom(m, from))
            && (!outcome.Opened? ==> k'.sending == k.sending)
            && (outcome.Opened? ==>
                  && (outcome.absorbed == NothingToAbsorb <==> m.nextCrypto.None?)
                  && (!FitsIntro(m) ==> outcome.absorbed == AbsorbFailed)
                  && (outcome.absorbed != AbsorbedIt ==> k'.sending == k.sending))
  {
  }
}
