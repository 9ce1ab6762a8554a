/** The index from pair ids to addresses of correspondents. */
module IdToEmail {
  import opened Wrappers
  import opened KeyMaterial

  class IdToEmailMap {
    var idToEmail: map<Pid, seq<Address>>

    /** An address is listed at most once under an id. */
    ghost predicate Valid()
      reads this
    {
      forall id, i, j :: id in idToEmail && 0 <= i < j < |idToEmail[id]| ==> idToEmail[id][i] != idToEmail[id][j]
    }

    ghost predicate Lists(id: Pid, email: Address)
      reads this
    {
      id in idToEmail && email in idToEmail[id]
    }

    constructor ()
      ensures Valid() && forall id, email :: !Lists(id, email)
    {
      idToEmail := map[];
    }

    /** An empty list may be returned for an id, from which all addresses were removed. */
    method GetEmails(id: Pid) returns (emails: Option<seq<Address>>)
      ensures emails.None? ==> forall email :: !Lists(id, email)
      ensures emails.Some? ==> forall email :: email in emails.value <==> Lists(id, email)
    {
      emails := if id in idToEmail then Some(idToEmail[id]) else None;
    }

    method AddPair(id: Pid, email: Address) returns (added: bool)
      requires Valid()
      modifies this
      ensures Valid()
      ensures added == !old(Lists(id, email))
      ensures forall i, e :: Lists(i, e) <==> old(Lists(i, e)) || (i == id && e == email)
    {
      if id in idToEmail {
        if email in idToEmail[id] {
          return false;
        }
        idToEmail := idToEmail[id := idToEmail[id] + [email]];
      } else {
        idToEmail := idToEmail[id := [email]];
      }
      return true;
    }

    method AddPairs(ids: seq<Pid>, email: Address)
      requires Valid()
      modifies this
      ensures Valid()
      ensures forall i, e :: Lists(i, e) <==> old(Lists(i, e)) || (i in ids && e == email)
    {
      for n := 0 to |ids|
        invariant Valid()
        invariant forall i, e :: Lists(i, e) <==> old(Lists(i, e)) || (i in ids[..n] && e == email)
      {
        assert ids[..n + 1] == ids[..n] + [ids[n]];
        var _ := AddPair(ids[n], email);
      }
      assert ids[..|ids|] == ids;
    }

    /** The id stays in the map, even when its list gets empty. */
    method RemovePair(id: Pid, email: Address) returns (removed: bool)
      requires Valid()
      modifies this
      ensures Valid()
      ensures removed == old(Lists(id, email))
      ensures forall i, e :: Lists(i, e) <==> old(Lists(i, e)) && !(i == id && e == email)
      ensures idToEmail.Keys == old(idToEmail.Keys)
    {
      if id !in idToEmail {
        return false;
      }
      var emails := idToEmail[id];
      var emailInd := IndexOf(emails, email);
      if emailInd < 0 {
        return false;
      }
      RemovedAt(emails, emailInd);
      idToEmail := idToEmail[id := emails[..emailInd] + emails[emailInd + 1..]];
      return true;
    }
  }

  method IndexOf(s: seq<Address>, x: Address) returns (ind: int)
    ensures ind < 0 <==> x !in s
    ensures 0 <= ind ==> ind < |s| && s[ind] == x && x !in s[..ind]
  {
    for i := 0 to |s|
      invariant x !in s[..i]
    {
      if s[i] == x {
        return i;
      }
    }
    return -1;
  }

  /** Removal of one position from a list without repetitions removes exactly that element. */
  lemma RemovedAt(s: seq<Address>, k: int)
    requires 0 <= k < |s|
    requires forall i, j :: 0 <= i < j < |s| ==> s[i] != s[j]
    ensures forall x :: x in s[..k] + s[k + 1..] <==> x in s && x != s[k]
    ensures var t := s[..k] + s[k + 1..]; forall i, j :: 0 <= i < j < |t| ==> t[i] != t[j]
  {
    forall x | x in s && x != s[k] ensures x in s[..k] + s[k + 1..] {
      var i :| 0 <= i < |s| && s[i] == x;
      if i < k {
        assert x == s[..k][i];
      } else {
        assert x == s[k + 1..][i - k - 1];
      }
    }
  }
}
