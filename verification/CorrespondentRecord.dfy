/** Keys shared with one correspondent, as an object that updates its fields and the ring's index. */
module CorrespondentRecord {
  import opened Wrappers
  import opened KeyMaterial
  import opened IdToEmail
  import K = KeyMaterial

  class CorrespondentKeys {
    const correspondent: Address
    const index: IdToEmailMap
    var sendingPair: SendingPair
    var suggested: Option<ReceptionPair>
    var inUse: Option<ReceptionPair>
    var retired: Option<ReceptionPair>

    ghost function State(): Keys
      reads this
    {
      Keys(sendingPair, suggested, inUse, retired)
    }

    /** The index has this correspondent under exactly those pids, which are in reception pairs. */
    ghost predicate Valid()
      reads this, index
    {
      && index.Valid()
      && forall pid :: index.Lists(pid, correspondent) <==> pid in LivePids(State())
    }

    /** What the index has for other correspondents. */
    twostate predicate OthersKept()
      reads index
    {
      forall pid, email :: email != correspondent ==> (index.Lists(pid, email) <==> old(index.Lists(pid, email)))
    }

    /** The record of a new correspondent, or one with keys from a serial form. */
    constructor (address: Address, keys: Keys, index: IdToEmailMap)
      ensures correspondent == address && this.index == index && State() == keys
    {
      correspondent := address;
      this.index := index;
      sendingPair, suggested, inUse, retired := keys.sending, keys.suggested, keys.inUse, keys.retired;
    }

    method MapAllKeysIntoRing()
      requires index.Valid() && forall pid :: !index.Lists(pid, correspondent)
      modifies index
      ensures Valid() && OthersKept()
    {
      MapPair(suggested);
      MapPair(inUse);
      MapPair(retired);
    }

    method MapPair(pair: Option<ReceptionPair>)
      requires index.Valid()
      modifies index
      ensures index.Valid()
      ensures forall pid, email :: index.Lists(pid, email) <==>
                old(index.Lists(pid, email)) || (email == correspondent && pid in PidsOf(pair))
    {
      if pair.Some? {
        index.AddPairs(pair.value.pids, correspondent);
      }
    }

    method SuggestPair(now: int, newKey: KeyId, newPids: seq<Pid>)
      returns (r: Result<Option<Suggestion>, KeyError>)
      requires Valid()
      modifies this, index
      ensures Valid() && OthersKept()
      ensures match K.SuggestPair(old(State()), now, newKey, newPids)
              case Success((k, next)) => State() == k && r == Success(next)
              case Failure(err) => State() == old(State()) && r == Failure(err)
    {
      if suggested.Some? {
        return Success(Some(ToSuggestion(suggested.value)));
      }
      if sendingPair.NoPair? {
        return Failure(SendingPairNotSet);
      }
      if !ShouldSuggestNewPair(sendingPair, now) {
        return Success(None);
      }
      var corrPKey := if sendingPair.Intro? then sendingPair.introKey else sendingPair.recipientKey;
      var pair := ReceptionPair(newPids, newKey, sendingPair.Intro?, corrPKey, SharedKey(newKey, corrPKey), now);
      suggested := Some(pair);
      index.AddPairs(newPids, correspondent);
      return Success(Some(ToSuggestion(pair)));
    }

    method MarkPairAsInUse(pair: ReceptionPair)
      requires Valid()
      modifies this, index
      ensures Valid() && OthersKept()
      ensures State() == K.MarkPairAsInUse(old(State()), pair)
    {
      if suggested != Some(pair) {
        return;
      }
      var mp := inUse;
      inUse := suggested;
      suggested := None;
      if mp.Some? {
        var dp := retired;
        retired := mp;
        if dp.Some? {
          TryToRemovePIDsFromIndex(dp.value.pids);
        }
      }
    }

    /** Pids of a dropped pair leave the index, unless another pair has the same pids. */
    method TryToRemovePIDsFromIndex(pids: seq<Pid>)
      requires index.Valid()
      requires forall pid :: index.Lists(pid, correspondent) <==> pid in pids || pid in LivePids(State())
      modifies index
      ensures Valid() && OthersKept()
    {
      var pidSet := (set pid | pid in pids) - PidsOf(suggested) - PidsOf(inUse) - PidsOf(retired);
      while pidSet != {}
        invariant index.Valid()
        invariant pidSet !! LivePids(State())
        invariant forall pid :: index.Lists(pid, correspondent) <==> pid in pidSet || pid in LivePids(State())
        invariant OthersKept()
        decreases pidSet
      {
        var pid :| pid in pidSet;
        var _ := index.RemovePair(pid, correspondent);
        pidSet := pidSet - {pid};
      }
    }

    method RatchetUpSendingPair(s: Suggestion, usedIntro: Option<KeyId>) returns (ok: bool)
      modifies `sendingPair
      ensures match K.RatchetUpSendingPair(old(State()), s, usedIntro)
              case Success(k) => ok && State() == k
              case Failure(_) => !ok && State() == old(State())
    {
      if sendingPair.Ratcheted? {
        if sendingPair.recipientKey == s.recipientKey && sendingPair.senderKey == s.senderKid {
          return true;
        }
        if sendingPair.timestamp > s.timestamp {
          return true;
        }
      }
      var senderKey := usedIntro;
      if !s.isSenderIntroKey {
        senderKey := FindKey(s.senderKid);
      }
      if senderKey.None? {
        return false;
      }
      sendingPair := Ratcheted(s.pids, s.timestamp, senderKey.value, s.recipientKey,
                               SharedKey(senderKey.value, s.recipientKey), 0);
      return true;
    }

    /** Slots are looked through in order, the first pair with the key id is taken. */
    method FindKey(kid: KeyId) returns (key: Option<KeyId>)
      ensures key == FindReceptionKey(State(), kid)
    {
      var pairs := [suggested, inUse, retired];
      for i := 0 to 3
        invariant forall j :: 0 <= j < i ==> !HasKid(pairs[j], kid)
      {
        if pairs[i].Some? && pairs[i].value.recipientKey == kid {
          return Some(pairs[i].value.recipientKey);
        }
      }
      assert !HasKid(pairs[0], kid) && !HasKid(pairs[1], kid) && !HasKid(pairs[2], kid);
      return None;
    }

    method GetReceivingPair(pid: Pid) returns (found: Option<(ReceptionPair, Role)>)
      ensures found == K.GetReceivingPair(State(), pid)
    {
      if suggested.Some? && pid in suggested.value.pids {
        found := Some((suggested.value, Suggested));
      } else if inUse.Some? && pid in inUse.value.pids {
        found := Some((inUse.value, InUse));
      } else if retired.Some? && pid in retired.value.pids {
        found := Some((retired.value, Retired));
      } else {
        found := None;
      }
    }

    method GetSendingPair(introKey: Option<KeyId>, ephemeral: KeyId, pick: nat)
      returns (r: Result<Outgoing, KeyError>)
      modifies `sendingPair
      ensures match K.GetSendingPair(old(State()), introKey, ephemeral, pick)
              case Success((k, o)) => State() == k && r == Success(o)
              case Failure(err) => r == Failure(err)
      ensures r.Failure? && old(sendingPair).NoPair? ==> State() == old(State())
      ensures r.Failure? && old(sendingPair).Ratcheted? ==>
                State() == old(State()).(sending := old(sendingPair).(sentCount := old(sendingPair).sentCount + 1))
    {
      if sendingPair.NoPair? {
        if introKey.None? {
          return Failure(SendingPairNotSet);
        }
        sendingPair := Intro(introKey.value);
      }
      if sendingPair.Intro? {
        var recipientKey := sendingPair.introKey;
        return Success(Outgoing(ByIntro(recipientKey, ephemeral), SharedKey(ephemeral, recipientKey), 1));
      } else {
        sendingPair := sendingPair.(sentCount := sendingPair.sentCount + 1);
        var pids := sendingPair.pids;
        if |pids| < 1 {
          return Failure(NoPids);
        }
        return Success(Outgoing(ByPid(pids[pick % |pids|]), sendingPair.msgMasterKey, sendingPair.sentCount));
      }
    }
  }
}
