/** Matching of names against patterns, in which a star stands for any run of characters. */
module NamePattern {

  /** The meaning of a pattern. */
  ghost predicate Matches(p: string, name: string)
    decreases |p|
  {
    if |p| == 0 then |name| == 0
    else if p[0] == '*' then exists k :: 0 <= k <= |name| && Matches(p[1..], name[k..])
    else |name| > 0 && name[0] == p[0] && Matches(p[1..], name[1..])
  }

  /** Sections of a pattern between its stars. */
  function Split(p: string): (sections: seq<string>)
    ensures |sections| >= 1
  {
    if |p| == 0 then [""]
    else
      var rest := Split(p[1..]);
      if p[0] == '*' then [""] + rest else [[p[0]] + rest[0]] + rest[1..]
  }

  /** Name is made of sections, with any runs between them. */
  ghost predicate Fits(sections: seq<string>, name: string)
    requires |sections| >= 1
    decreases |sections|, 0
  {
    if |sections| == 1 then name == sections[0]
    else sections[0] <= name && FitsAfterStar(sections[1..], name[|sections[0]|..])
  }

  ghost predicate FitsAfterStar(sections: seq<string>, name: string)
    requires |sections| >= 1
    decreases |sections|, 1
  {
    exists k :: 0 <= k <= |name| && Fits(sections, name[k..])
  }

  lemma {:induction false} SplitKeepsMeaning(p: string, name: string)
    ensures Matches(p, name) <==> Fits(Split(p), name)
    decreases |p|
  {
    if |p| > 0 {
      var rest := Split(p[1..]);
      if p[0] == '*' {
        forall k | 0 <= k <= |name| ensures Matches(p[1..], name[k..]) <==> Fits(rest, name[k..]) {
          SplitKeepsMeaning(p[1..], name[k..]);
        }
        assert Split(p)[1..] == rest && name[0..] == name;
      } else if |name| > 0 && name[0] == p[0] {
        SplitKeepsMeaning(p[1..], name[1..]);
        assert Split(p)[1..] == rest[1..];
        assert Split(p)[0] <= name <==> rest[0] <= name[1..];
        if rest[0] <= name[1..] {
          assert name[|Split(p)[0]|..] == name[1..][|rest[0]|..];
        }
      }
    }
  }

  /** A longer run in place of a star is as good as a shorter one. */
  lemma LaterFitsEarlier(sections: seq<string>, name: string, i: nat, j: nat)
    requires |sections| >= 1 && i <= j <= |name|
    requires FitsAfterStar(sections, name[j..])
    ensures FitsAfterStar(sections, name[i..])
  {
    var k :| 0 <= k <= |name[j..]| && Fits(sections, name[j..][k..]);
    assert name[i..][j - i + k..] == name[j..][k..];
  }

  predicate IsAt(s: string, sub: string, k: int) {
    0 <= k <= |s| - |sub| && s[k..k + |sub|] == sub
  }

  /** Leftmost position of a substring, or a negative number. */
  method IndexOf(s: string, sub: string) returns (ind: int)
    ensures ind >= 0 ==> IsAt(s, sub, ind) && forall k :: 0 <= k < ind ==> !IsAt(s, sub, k)
    ensures ind < 0 ==> forall k :: !IsAt(s, sub, k)
  {
    var i := 0;
    while i + |sub| <= |s|
      invariant forall k :: 0 <= k < i ==> !IsAt(s, sub, k)
    {
      if s[i..i + |sub|] == sub {
        return i;
      }
      i := i + 1;
    }
    return -1;
  }

  predicate EndsWith(s: string, sub: string) {
    |sub| <= |s| && s[|s| - |sub|..] == sub
  }

  lemma LeftmostIsNeeded(sections: seq<string>, name: string, ind: nat)
    requires |sections| > 1 && IsAt(name, sections[0], ind) && FitsAfterStar(sections, name)
    requires forall k :: 0 <= k < ind ==> !IsAt(name, sections[0], k)
    ensures FitsAfterStar(sections[1..], name[ind + |sections[0]|..])
  {
    var s := sections[0];
    var k :| 0 <= k <= |name| && Fits(sections, name[k..]);
    assert IsAt(name, s, k);
    assert name[k..][|s|..] == name[k + |s|..];
    LaterFitsEarlier(sections[1..], name, ind + |s|, k + |s|);
  }

  lemma AnyPlaceIsGood(sections: seq<string>, name: string, ind: nat)
    requires |sections| > 1 && IsAt(name, sections[0], ind)
    requires FitsAfterStar(sections[1..], name[ind + |sections[0]|..])
    ensures FitsAfterStar(sections, name)
  {
    assert name[ind..][|sections[0]|..] == name[ind + |sections[0]|..];
    assert sections[0] <= name[ind..];
    assert Fits(sections, name[ind..]);
  }

  /** Taking the leftmost place of a section never misses a match. */
  lemma LeftmostIsEnough(sections: seq<string>, name: string, ind: nat)
    requires |sections| > 1 && IsAt(name, sections[0], ind)
    requires forall k :: 0 <= k < ind ==> !IsAt(name, sections[0], k)
    ensures FitsAfterStar(sections, name) <==> FitsAfterStar(sections[1..], name[ind + |sections[0]|..])
  {
    if FitsAfterStar(sections, name) {
      LeftmostIsNeeded(sections, name, ind);
    }
    if FitsAfterStar(sections[1..], name[ind + |sections[0]|..]) {
      AnyPlaceIsGood(sections, name, ind);
    }
  }

  lemma NoPlaceNoFit(sections: seq<string>, name: string)
    requires |sections| > 1 && forall k :: !IsAt(name, sections[0], k)
    ensures !FitsAfterStar(sections, name)
  {
    if FitsAfterStar(sections, name) {
      var k :| 0 <= k <= |name| && Fits(sections, name[k..]);
      assert IsAt(name, sections[0], k);
    }
  }

  lemma LastSection(section: string, name: string)
    ensures FitsAfterStar([section], name) <==> EndsWith(name, section)
  {
    if EndsWith(name, section) {
      assert Fits([section], name[|name| - |section|..]);
    }
  }

  /** An empty section between stars adds nothing. */
  lemma EmptySection(sections: seq<string>, name: string)
    requires |sections| > 1 && sections[0] == ""
    ensures FitsAfterStar(sections, name) <==> FitsAfterStar(sections[1..], name)
  {
    assert name[0 + 0..] == name;
    assert IsAt(name, "", 0);
    LeftmostIsEnough(sections, name, 0);
  }

  /** Sections from i on fit into the name from pos on, where any run may come first. */
  ghost predicate FitsFrom(sections: seq<string>, i: nat, name: string, pos: nat)
    requires i < |sections| && pos <= |name|
  {
    FitsAfterStar(sections[i..], name[pos..])
  }

  lemma FirstStep(sections: seq<string>, name: string)
    requires |sections| > 1
    ensures Fits(sections, name) <==> sections[0] <= name && FitsFrom(sections, 1, name, |sections[0]|)
  {
  }

  lemma EmptyStep(sections: seq<string>, i: nat, name: string, pos: nat)
    requires i < |sections| && sections[i] == "" && pos <= |name|
    ensures if i + 1 < |sections| then FitsFrom(sections, i, name, pos) <==> FitsFrom(sections, i + 1, name, pos)
            else FitsFrom(sections, i, name, pos)
  {
    if i + 1 < |sections| {
      assert sections[i..][1..] == sections[i + 1..];
      EmptySection(sections[i..], name[pos..]);
    } else {
      assert sections[i..] == [""];
      LastSection("", name[pos..]);
    }
  }

  lemma LastStep(sections: seq<string>, i: nat, name: string, pos: nat)
    requires i + 1 == |sections| && pos <= |name|
    ensures FitsFrom(sections, i, name, pos) <==> EndsWith(name[pos..], sections[i])
  {
    assert sections[i..] == [sections[i]];
    LastSection(sections[i], name[pos..]);
  }

  lemma MissStep(sections: seq<string>, i: nat, name: string, pos: nat)
    requires i + 1 < |sections| && pos <= |name|
    requires forall k :: !IsAt(name[pos..], sections[i], k)
    ensures !FitsFrom(sections, i, name, pos)
  {
    NoPlaceNoFit(sections[i..], name[pos..]);
  }

  lemma HitStep(sections: seq<string>, i: nat, name: string, pos: nat, secPos: nat)
    requires i + 1 < |sections| && pos <= |name|
    requires IsAt(name[pos..], sections[i], secPos)
    requires forall k :: 0 <= k < secPos ==> !IsAt(name[pos..], sections[i], k)
    ensures pos + secPos + |sections[i]| <= |name|
    ensures FitsFrom(sections, i, name, pos) <==> FitsFrom(sections, i + 1, name, pos + secPos + |sections[i]|)
  {
    assert sections[i..][1..] == sections[i + 1..];
    assert name[pos..][secPos + |sections[i]|..] == name[pos + secPos + |sections[i]|..];
    LeftmostIsEnough(sections[i..], name[pos..], secPos);
  }

  /** Letter case of both the name and the pattern is lowered before matching. */
  method MatchNamePattern(name0: string, p0: string, toLowerCase: string -> string) returns (matches: bool)
    ensures matches <==> Matches(toLowerCase(p0), toLowerCase(name0))
  {
    var p, name := toLowerCase(p0), toLowerCase(name0);
    var sections := Split(p);
    SplitKeepsMeaning(p, name);
    if |sections| == 1 {
      OneSection(p);
      return name == p;
    }
    matches := MatchSections(sections, name);
  }

  method MatchSections(sections: seq<string>, name: string) returns (matches: bool)
    requires |sections| > 1
    ensures matches <==> Fits(sections, name)
  {
    FirstStep(sections, name);
    var pos := 0;
    for i := 0 to |sections|
      invariant 0 <= pos <= |name|
      invariant i == 0 ==> pos == 0
      invariant 0 < i < |sections| ==> (Fits(sections, name) <==> FitsFrom(sections, i, name, pos))
      invariant i == |sections| ==> Fits(sections, name)
    {
      var section := sections[i];
      if |section| == 0 {
        EmptyStep(sections, i, name, pos);
        continue;
      }
      if i == 0 {
        if !(section <= name) {
          return false;
        }
        pos := pos + |section|;
        continue;
      }
      if i + 1 == |sections| {
        LastStep(sections, i, name, pos);
        return EndsWith(name[pos..], section);
      }
      var secPos := IndexOf(name[pos..], section);
      if secPos < 0 {
        MissStep(sections, i, name, pos);
        return false;
      }
      HitStep(sections, i, name, pos, secPos);
      pos := pos + secPos + |section|;
    }
    return true;
  }

  lemma {:induction false} OneSection(p: string)
    requires |Split(p)| == 1
    ensures Split(p) == [p]
  {
    if |p| > 0 {
      OneSection(p[1..]);
      assert [p[0]] + p[1..] == p;
    }
  }
}
