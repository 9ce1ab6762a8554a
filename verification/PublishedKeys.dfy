/** Introductory keys that this side publishes on its mail server. */
module PublishedKeys {
  import opened Wrappers
  import opened KeyMaterial

  datatype KeyPair = KeyPair(kid: KeyId, createdAt: int, retiredAt: Option<int>)

  datatype Found = Found(role: PublishedRole, pair: KeyPair, replacedAt: Option<int>)

  datatype PublishedRole = Current | Previous

  class PublishedIntroKey {
    var current: Option<KeyPair>
    var previous: seq<KeyPair>

    /** Ids of all keys, for which an introductory message can be opened. */
    ghost function Kids(): set<KeyId>
      reads this
    {
      (if current.Some? then {current.value.kid} else {}) + (set i | 0 <= i < |previous| :: previous[i].kid)
    }

    constructor ()
      ensures Kids() == {}
    {
      current := None;
      previous := [];
    }

    /** A new key becomes current, no key is forgotten. */
    method Update(kid: KeyId, now: int)
      modifies this
      ensures Kids() == old(Kids()) + {kid}
      ensures current == Some(KeyPair(kid, now, None))
      ensures previous == old(previous) +
                (if old(current).None? then [] else [old(current).value.(retiredAt := Some(now))])
    {
      RetireCurrent(now);
      current := Some(KeyPair(kid, now, None));
    }

    method RetireCurrent(retiredAt: int)
      modifies this
      ensures current == None && Kids() == old(Kids())
      ensures previous == old(previous) +
                (if old(current).None? then [] else [old(current).value.(retiredAt := Some(retiredAt))])
    {
      if current.None? {
        return;
      }
      var retired := current.value.(retiredAt := Some(retiredAt));
      ghost var before := previous;
      previous := previous + [retired];
      current := None;
      assert previous[|before|].kid == retired.kid;
      assert forall i :: 0 <= i < |before| ==> previous[i] == before[i];
      assert Kids() == old(Kids());
    }

    method Find(kid: KeyId) returns (found: Option<Found>)
      ensures found.Some? <==> kid in Kids()
      ensures found.Some? ==>
                && found.value.pair.kid == kid
                && (found.value.role == Current <==> current == Some(found.value.pair))
                && (found.value.role == Current ==> found.value.replacedAt == None)
                && (found.value.role == Previous ==>
                      found.value.pair in previous && found.value.replacedAt == found.value.pair.retiredAt)
      ensures current.Some? && current.value.kid == kid ==> found.Some? && found.value.role == Current
    {
      if current.Some? && current.value.kid == kid {
        return Some(Found(Current, current.value, None));
      }
      for i := 0 to |previous|
        invariant forall j :: 0 <= j < i ==> previous[j].kid != kid
      {
        if previous[i].kid == kid {
          return Some(Found(Previous, previous[i], previous[i].retiredAt));
        }
      }
      return None;
    }
  }
}
