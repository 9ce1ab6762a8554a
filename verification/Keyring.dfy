/** The ring of all correspondents' keys, with the index from pair ids. */
module Keyring {
  import opened Wrappers
  import opened KeyMaterial
  import opened IdToEmail
  import opened CorrespondentRecord
  import opened PublishedKeys

  type Ring = map<Address, Keys>

  /** Keys of a correspondent, or an empty record for one that is not in the ring. */
  function KeysOf(ring: Ring, from: Address): Keys {
    if from in ring then ring[from] else NO_KEYS
  }

  datatype Candidate = Candidate(correspondent: Address, role: Role, pair: ReceptionPair)

  /** Can a record at this address open the message? */
  predicate OpensFrom(ring: Ring, from: Address, m: Message) {
    from in ring && OpensByPid(ring[from], m)
  }

  lemma LiveMeansFound(k: Keys, pid: Pid)
    ensures pid in LivePids(k) <==> GetReceivingPair(k, pid).Some?
  {
  }

  lemma SetTwice(ring: Ring, from: Address, k: Keys)
    ensures ring[from := k][from] == k
    ensures forall k' {:trigger ring[from := k][from := k']} :: ring[from := k][from := k'] == ring[from := k']
  {
  }

  class Keyrings {
    const pairIdToEmailMap: IdToEmailMap
    const publishedKeys: PublishedIntroKey
    var corrKeys: map<Address, CorrespondentKeys>

    ghost predicate Linked()
      reads this, corrKeys.Values
    {
      forall e :: e in corrKeys ==> corrKeys[e].correspondent == e && corrKeys[e].index == pairIdToEmailMap
    }

    /** The index is exact: addresses under a pid are those, whose reception pairs carry the pid. */
    ghost predicate Valid()
      reads this, pairIdToEmailMap, corrKeys.Values
    {
      && Linked()
      && pairIdToEmailMap.Valid()
      && forall pid, e :: pairIdToEmailMap.Lists(pid, e) <==> e in corrKeys && pid in LivePids(corrKeys[e].State())
    }

    ghost function Records(): Ring
      reads this, corrKeys.Values
    {
      map e | e in corrKeys :: corrKeys[e].State()
    }

    constructor (publishedKeys: PublishedIntroKey)
      ensures Valid() && Records() == map[] && this.publishedKeys == publishedKeys && fresh(pairIdToEmailMap)
    {
      corrKeys := map[];
      pairIdToEmailMap := new IdToEmailMap();
      this.publishedKeys := publishedKeys;
    }

    /** Adding of a new correspondent, or of one from a serial form; an address that is present is an error. */
    method AddCorrespondent(address: Address, serialForm: Option<Keys>) returns (ck: Option<CorrespondentKeys>)
      requires Valid()
      modifies this, pairIdToEmailMap
      ensures Valid()
      ensures ck.None? <==> address in old(corrKeys)
      ensures ck.None? ==> corrKeys == old(corrKeys) && Records() == old(Records())
      ensures ck.Some? ==>
                && fresh(ck.value) && corrKeys == old(corrKeys)[address := ck.value]
                && Records() == old(Records())[address := if serialForm.Some? then serialForm.value else NO_KEYS]
    {
      if address in corrKeys {
        return None;
      }
      var keys := if serialForm.Some? then serialForm.value else NO_KEYS;
      var c := new CorrespondentKeys(address, keys, pairIdToEmailMap);
      corrKeys := corrKeys[address := c];
      if serialForm.Some? {
        c.MapAllKeysIntoRing();
      }
      return Some(c);
    }

    /** A record at an address, an empty one is added when there is none. */
    method GetOrAdd(address: Address) returns (ck: CorrespondentKeys)
      requires Valid()
      modifies this, pairIdToEmailMap
      ensures Valid() && address in corrKeys && ck == corrKeys[address]
      ensures ck in old(corrKeys.Values) || fresh(ck)
      ensures ck.State() == KeysOf(old(Records()), address)
      ensures Records() == old(Records())[address := KeysOf(old(Records()), address)]
    {
      if address in corrKeys {
        ck := corrKeys[address];
      } else {
        var added := AddCorrespondent(address, None);
        ck := added.value;
      }
      assert Records()[address] == ck.State();
    }

    /** Keys for sending a message; an address without a record needs an intro key from its mail server. */
    method GenerateKeysToSend(address: Address, introKey: Option<KeyId>, ephemeral: KeyId, pick: nat)
      returns (r: Result<Outgoing, KeyError>)
      requires Valid()
      modifies this, pairIdToEmailMap, corrKeys.Values
      ensures Valid()
      ensures address !in old(Records()) && introKey.None? ==>
                r == Failure(SendingPairNotSet) && Records() == old(Records())
      ensures address in old(Records()) || introKey.Some? ==>
                match GetSendingPair(KeysOf(old(Records()), address), introKey, ephemeral, pick)
                case Success((k, o)) => r == Success(o) && Records() == old(Records())[address := k]
                case Failure(err) =>
                  r == Failure(err) && Records() == old(Records())[address := Counted(KeysOf(old(Records()), address))]
    {
      if address !in corrKeys && introKey.None? {
        return Failure(SendingPairNotSet);
      }
      var ck := GetOrAdd(address);
      SetTwice(old(Records()), address, KeysOf(old(Records()), address));
      r := GetSendingPairAt(address, ck, introKey, ephemeral, pick);
    }

    method GetSendingPairAt(
      address: Address, ck: CorrespondentKeys, introKey: Option<KeyId>, ephemeral: KeyId, pick: nat
    )
      returns (r: Result<Outgoing, KeyError>)
      requires Valid() && address in corrKeys && corrKeys[address] == ck
      modifies ck`sendingPair
      ensures Valid()
      ensures match GetSendingPair(old(Records())[address], introKey, ephemeral, pick)
              case Success((k, o)) => r == Success(o) && Records() == old(Records())[address := k]
              case Failure(err) =>
                r == Failure(err) && Records() == old(Records())[address := Counted(old(Records())[address])]
    {
      assert Records()[address] == ck.State();
      r := ck.GetSendingPair(introKey, ephemeral, pick);
      assert forall e :: e in corrKeys && e != address ==> corrKeys[e] != ck;
      assert Records() == old(Records())[address := ck.State()];
    }

    /** Suggestion that should go with a message. */
    method NextCrypto(address: Address, now: int, newKey: KeyId, newPids: seq<Pid>)
      returns (r: Result<Option<Suggestion>, KeyError>)
      requires Valid()
      modifies pairIdToEmailMap, corrKeys.Values
      ensures Valid() && corrKeys == old(corrKeys)
      ensures address !in old(Records()) ==> r == Failure(UnknownCorrespondent) && Records() == old(Records())
      ensures address in old(Records()) ==>
                match SuggestPair(old(Records())[address], now, newKey, newPids)
                case Success((k, next)) => r == Success(next) && Records() == old(Records())[address := k]
                case Failure(err) => r == Failure(err) && Records() == old(Records())
    {
      if address !in corrKeys {
        return Failure(UnknownCorrespondent);
      }
      var ck := corrKeys[address];
      assert ck.Valid();
      r := ck.SuggestPair(now, newKey, newPids);
    }

    /** All candidates for a pid; neither early exit of the lookup is taken for an indexed pid. */
    method FindEstablishedReceptionPairs(pid: Pid) returns (found: Option<seq<Candidate>>)
      requires Valid()
      ensures found.None? ==> forall e :: e in Records() ==> GetReceivingPair(Records()[e], pid).None?
      ensures found.Some? ==> forall c :: c in found.value ==>
                c.correspondent in Records() &&
                GetReceivingPair(Records()[c.correspondent], pid) == Some((c.pair, c.role))
      ensures found.Some? ==> forall e :: e in Records() && GetReceivingPair(Records()[e], pid).Some? ==>
                exists c :: c in found.value && c.correspondent == e
    {
      var emails := pairIdToEmailMap.GetEmails(pid);
      if emails.None? {
        forall e | e in Records() ensures GetReceivingPair(Records()[e], pid).None? {
          assert !pairIdToEmailMap.Lists(pid, e);
          LiveMeansFound(Records()[e], pid);
        }
        return None;
      }
      var decryptors: seq<Candidate> := [];
      for i := 0 to |emails.value|
        invariant forall c :: c in decryptors ==>
                    c.correspondent in Records() &&
                    GetReceivingPair(Records()[c.correspondent], pid) == Some((c.pair, c.role))
        invariant forall j :: 0 <= j < i ==> exists c :: c in decryptors && c.correspondent == emails.value[j]
      {
        var email := emails.value[i];
        assert email in emails.value;
        LiveMeansFound(Records()[email], pid);
        if email !in corrKeys {
          return None;
        }
        var rp := corrKeys[email].GetReceivingPair(pid);
        if rp.None? {
          return None;
        }
        var c := Candidate(email, rp.value.1, rp.value.0);
        ghost var before := decryptors;
        decryptors := decryptors + [c];
        assert decryptors[|before|] == c;
        assert forall d :: d in before ==> d in decryptors;
      }
      forall e | e in Records() && GetReceivingPair(Records()[e], pid).Some?
        ensures exists c :: c in decryptors && c.correspondent == e
      {
        LiveMeansFound(Records()[e], pid);
        assert pairIdToEmailMap.Lists(pid, e);
        var j :| 0 <= j < |emails.value| && emails.value[j] == e;
      }
      return Some(decryptors);
    }

    /** Tries candidates, one after another; the first one that opens the message is put in use. */
    method DecryptMsgKeyWithEstablishedPair(m: Message) returns (hit: Option<(Address, Role)>)
      requires Valid() && m.meta.ByPid?
      modifies pairIdToEmailMap, corrKeys.Values
      ensures Valid() && corrKeys == old(corrKeys)
      ensures hit.None? ==> Records() == old(Records()) && forall e :: !OpensFrom(old(Records()), e, m)
      ensures hit.Some? ==>
                var (e, role) := hit.value;
                && OpensFrom(old(Records()), e, m)
                && var (pair, r) := GetReceivingPair(old(Records())[e], m.meta.pid).value;
                   && role == r
                   && Records() == old(Records())[e := if role == Suggested
                                                       then MarkPairAsInUse(old(Records())[e], pair)
                                                       else old(Records())[e]]
    {
      var pairs := FindEstablishedReceptionPairs(m.meta.pid);
      if pairs.None? {
        return None;
      }
      for i := 0 to |pairs.value|
        invariant forall j :: 0 <= j < i ==> !OpensFrom(Records(), pairs.value[j].correspondent, m)
        invariant Valid() && Records() == old(Records())
      {
        var c := pairs.value[i];
        assert c in pairs.value;
        if c.pair.msgMasterKey == m.enc {
          if c.role == Suggested {
            var ck := corrKeys[c.correspondent];
            assert ck.Valid();
            ck.MarkPairAsInUse(c.pair);
          }
          return Some((c.correspondent, c.role));
        }
      }
      return None;
    }

    /** Correspondent is added, when there is none, even if absorption then fails. */
    method AbsorbSuggestedNextKeyPair(correspondent: Address, s: Suggestion) returns (ok: bool)
      requires Valid()
      modifies this, pairIdToEmailMap, corrKeys.Values
      ensures Valid()
      ensures match AbsorbSuggestion(KeysOf(old(Records()), correspondent), publishedKeys.Kids(), s)
              case Success(k) => ok && Records() == old(Records())[correspondent := k]
              case Failure(_) =>
                !ok && Records() == old(Records())[correspondent := KeysOf(old(Records()), correspondent)]
    {
      var ck := GetOrAdd(correspondent);
      SetTwice(old(Records()), correspondent, KeysOf(old(Records()), correspondent));
      ok := RatchetUpAt(correspondent, ck, s);
    }

    method RatchetUpAt(correspondent: Address, ck: CorrespondentKeys, s: Suggestion) returns (ok: bool)
      requires Valid() && correspondent in corrKeys && corrKeys[correspondent] == ck
      modifies ck`sendingPair
      ensures Valid()
      ensures match AbsorbSuggestion(old(Records())[correspondent], publishedKeys.Kids(), s)
              case Success(k) => ok && Records() == old(Records())[correspondent := k]
              case Failure(_) => !ok && Records() == old(Records())
    {
      assert Records()[correspondent] == ck.State();
      if s.isSenderIntroKey {
        var usedIntro := publishedKeys.Find(s.senderKid);
        if usedIntro.None? {
          return false;
        }
        ok := ck.RatchetUpSendingPair(s, Some(usedIntro.value.pair.kid));
      } else {
        ok := ck.RatchetUpSendingPair(s, None);
      }
      assert forall e :: e in corrKeys && e != correspondent ==> corrKeys[e] != ck;
      assert Records() == old(Records())[correspondent := ck.State()];
    }

    /** Absorbs what the message suggests, failures are only logged. */
    method AbsorbNext(correspondent: Address, m: Message) returns (absorbed: Absorbed)
      requires Valid()
      requires m.meta.ByPid? ==> correspondent in corrKeys
      modifies this, pairIdToEmailMap, corrKeys.Values
      ensures Valid()
      ensures var (k, result) := AbsorbFrom(KeysOf(old(Records()), correspondent), publishedKeys.Kids(), m);
              absorbed == result && Records() == WithAbsorbed(old(Records()), correspondent, m, k)
    {
      if m.nextCrypto.None? {
        return NothingToAbsorb;
      }
      var s := m.nextCrypto.value;
      if m.meta.ByIntro? && (!s.isSenderIntroKey || m.meta.recipientKid != s.senderKid) {
        return AbsorbFailed;
      }
      var ok := AbsorbSuggestedNextKeyPair(correspondent, s);
      return if ok then AbsorbedIt else AbsorbFailed;
    }

    /** Returns the correspondent, to whose keys the message belongs, when its keys open it. A message is opened
      * exactly when it says to be from this correspondent, and others change no sending pair. */
    method Decrypt(m: Message) returns (from: Option<Address>, outcome: Outcome)
      requires Valid()
      modifies this, pairIdToEmailMap, corrKeys.Values
      ensures Valid()
      ensures from.None? <==> outcome == Undecryptable
      ensures from.None? ==> Records() == old(Records())
      ensures outcome.Opened? <==>
                && from.Some? && m.sender == from.value
                && (m.meta.ByIntro? ==> m.certified == (from.value, m.meta.senderPKey))
      ensures AbsorbsOpened(m, old(Records()), Records(), outcome)
      ensures m.meta.ByIntro? ==>
                (from.Some? <==>
                  && m.meta.recipientKid in publishedKeys.Kids()
                  && m.enc == {m.meta.recipientKid, m.meta.senderPKey})
      ensures m.meta.ByPid? ==>
                && (from.None? <==> forall e :: !OpensFrom(old(Records()), e, m))
                && (from.Some? ==>
                      && OpensFrom(old(Records()), from.value, m)
                      && var (k, result) := Receive(old(Records())[from.value], from.value, publishedKeys.Kids(), m);
                         outcome == result && Records() == old(Records())[from.value := k])
      ensures m.meta.ByIntro? ==>
                && (from.Some? <==> OpensByIntro(publishedKeys.Kids(), m))
                && (from.Some? ==>
                      && from.value == m.certified.0
                      && var keys := KeysOf(old(Records()), from.value);
                         var (k, result) := Receive(keys, from.value, publishedKeys.Kids(), m);
                         && outcome == result
                         && Records() == if result.Opened? then WithAbsorbed(old(Records()), from.value, m, k)
                                         else old(Records()))
    {
      if m.meta.ByPid? {
        from, outcome := AcceptEstablished(m);
      } else {
        var recipKey := publishedKeys.Find(m.meta.recipientKid);
        if recipKey.None? || SharedKey(recipKey.value.pair.kid, m.meta.senderPKey) != m.enc {
          return None, Undecryptable;
        }
        AbsorbsIntroductory(old(Records()), publishedKeys.Kids(), m);
        outcome := AcceptIntroductory(m);
        return Some(m.certified.0), outcome;
      }
    }

    method AcceptEstablished(m: Message) returns (from: Option<Address>, outcome: Outcome)
      requires Valid() && m.meta.ByPid?
      modifies this, pairIdToEmailMap, corrKeys.Values
      ensures Valid()
      ensures from.None? ==>
                outcome == Undecryptable && Records() == old(Records()) && forall e :: !OpensFrom(old(Records()), e, m)
      ensures from.Some? ==>
                && OpensFrom(old(Records()), from.value, m)
                && var (k, result) := Receive(old(Records())[from.value], from.value, publishedKeys.Kids(), m);
                   outcome == result && Records() == old(Records())[from.value := k]
      ensures from.Some? ==> outcome != Undecryptable && (outcome.Opened? <==> m.sender == from.value)
      ensures AbsorbsOpened(m, old(Records()), Records(), outcome)
    {
      var hit := DecryptMsgKeyWithEstablishedPair(m);
      if hit.None? {
        return None, Undecryptable;
      }
      var (e, role) := hit.value;
      from := Some(e);
      AbsorbsEstablished(old(Records()), e, publishedKeys.Kids(), m);
      if m.sender != e {
        outcome := Rejected;
      } else {
        var absorbed := AbsorbNext(e, m);
        outcome := Opened(role, absorbed);
      }
    }

    /** Sender of an opened message is the one, to whom the key is certified. */
    method AcceptIntroductory(m: Message) returns (outcome: Outcome)
      requires Valid() && m.meta.ByIntro? && OpensByIntro(publishedKeys.Kids(), m)
      modifies this, pairIdToEmailMap, corrKeys.Values
      ensures Valid()
      ensures var from := m.certified.0;
              var (k, result) := Receive(KeysOf(old(Records()), from), from, publishedKeys.Kids(), m);
              && outcome == result
              && Records() == if result.Opened? then WithAbsorbed(old(Records()), from, m, k) else old(Records())
    {
      var (address, pkey) := m.certified;
      if pkey != m.meta.senderPKey || m.sender != address {
        return Rejected;
      }
      var absorbed := AbsorbNext(address, m);
      outcome := Opened(PublishedIntro, absorbed);
    }
  }

  /** A record is touched only when there is a suggestion that fits the message. */
  function WithAbsorbed(ring: Ring, from: Address, m: Message, k: Keys): Ring {
    if m.nextCrypto.Some? && FitsMeta(m.meta, m.nextCrypto.value) then ring[from := k] else ring
  }

  predicate SameSending(before: Ring, after: Ring) {
    after.Keys == before.Keys && forall e :: e in after ==> after[e].sending == before[e].sending
  }

  /** A message that is not opened changes no sending pair, and only one that fits its suggestion is absorbed. */
  predicate AbsorbsOpened(m: Message, before: Ring, after: Ring, outcome: Outcome) {
    if !outcome.Opened? then SameSending(before, after)
    else
      && (outcome.absorbed == NothingToAbsorb <==> m.nextCrypto.None?)
      && (!FitsIntro(m) ==> outcome.absorbed == AbsorbFailed && after == before)
  }

  lemma AbsorbsEstablished(ring: Ring, from: Address, published: set<KeyId>, m: Message)
    requires OpensFrom(ring, from, m)
    ensures var (k, outcome) := Receive(ring[from], from, published, m);
            && (outcome.Opened? <==> m.sender == from)
            && AbsorbsOpened(m, ring, ring[from := k], outcome)
  {
    OpenedFromOwner(ring[from], from, published, m);
  }

  lemma AbsorbsIntroductory(ring: Ring, published: set<KeyId>, m: Message)
    requires m.meta.ByIntro? && OpensByIntro(published, m)
    ensures var from := m.certified.0;
            var (k, outcome) := Receive(KeysOf(ring, from), from, published, m);
            && (outcome.Opened? <==> m.sender == from && m.certified.1 == m.meta.senderPKey)
            && AbsorbsOpened(m, ring, if outcome.Opened? then WithAbsorbed(ring, from, m, k) else ring, outcome)
  {
    OpenedFromOwner(KeysOf(ring, m.certified.0), m.certified.0, published, m);
  }
}
