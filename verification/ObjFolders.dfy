/** Folders of objects in a tree, where a path to a folder is made from parts of object's id. */
module ObjFolders {
  import opened Wrappers

  type Id = string

  /** Names that lead from the base folder. */
  type Path = seq<string>

  const ROOT_OBJ_DIR := "=root="

  datatype FsError = AlreadyExists | NotEmpty | NotFound | IdTooShort | RootIsKept

  // ---------- parts of ids

  /** Product, as a sum. */
  function Times(i: nat, chars: nat): nat {
    if i == 0 then 0 else Times(i - 1, chars) + chars
  }

  lemma {:induction false} TimesIsProduct(i: nat, chars: nat)
    ensures Times(i, chars) == i * chars
  {
    if i > 0 {
      TimesIsProduct(i - 1, chars);
      assert (i - 1) * chars + chars == i * chars;
    }
  }

  lemma {:induction false} TimesGrows(i: nat, j: nat, chars: nat)
    requires i <= j
    ensures Times(i, chars) <= Times(j, chars)
    decreases j
  {
    if i < j {
      TimesGrows(i, j - 1, chars);
    }
  }

  function From(s: string, start: nat): string {
    if |s| <= start then "" else s[start..]
  }

  function Substring(s: string, start: nat, end: nat): string
    requires start <= end
  {
    if |s| <= start then "" else if |s| <= end then s[start..] else s[start..end]
  }

  /** Each split takes up to a given number of characters. */
  function SplitAt(id: Id, i: nat, chars: nat): string {
    Substring(id, Times(i, chars), Times(i, chars) + chars)
  }

  /** Splits, and the rest is the last part. */
  function Sections(id: Id, splits: nat, chars: nat): (sections: Path)
    ensures |sections| == splits + 1
  {
    seq(splits, i requires 0 <= i < splits => SplitAt(id, i, chars)) + [From(id, Times(splits, chars))]
  }

  function Joined(sections: Path): Id {
    if |sections| == 0 then "" else sections[0] + Joined(sections[1..])
  }

  lemma JoinedNext(sections: Path, i: nat)
    requires i < |sections|
    ensures Joined(sections[i..]) == sections[i] + Joined(sections[i + 1..])
  {
    assert sections[i..][1..] == sections[i + 1..];
  }

  lemma RestIsSplit(id: Id, i: nat, chars: nat)
    ensures From(id, Times(i, chars)) == SplitAt(id, i, chars) + From(id, Times(i, chars) + chars)
  {
  }

  lemma {:induction false} JoinedRest(id: Id, splits: nat, chars: nat, i: nat)
    requires i <= splits
    ensures Joined(Sections(id, splits, chars)[i..]) == From(id, Times(i, chars))
    decreases splits - i
  {
    var sections := Sections(id, splits, chars);
    JoinedNext(sections, i);
    if i < splits {
      JoinedRest(id, splits, chars, i + 1);
      RestIsSplit(id, i, chars);
    } else {
      assert sections[i + 1..] == [];
      assert sections[i] + "" == sections[i];
    }
  }

  lemma JoinedSections(id: Id, splits: nat, chars: nat)
    ensures Joined(Sections(id, splits, chars)) == id
  {
    JoinedRest(id, splits, chars, 0);
    assert Sections(id, splits, chars)[0..] == Sections(id, splits, chars);
    assert From(id, 0) == id;
  }

  /** Which parts have characters in them. */
  lemma NonEmptySections(id: Id, splits: nat, chars: nat)
    requires chars > 0
    ensures forall i :: 0 <= i <= splits ==> (|Sections(id, splits, chars)[i]| == 0 <==> |id| <= Times(i, chars))
  {
    forall i | 0 <= i <= splits ensures |Sections(id, splits, chars)[i]| == 0 <==> |id| <= Times(i, chars) {
      if i < splits {
        assert Sections(id, splits, chars)[i] == SplitAt(id, i, chars);
      }
    }
  }

  /** Splits of a long enough id are all of the same length. */
  lemma SplitsAreEven(id: Id, splits: nat, chars: nat, i: nat)
    requires i < splits && splits * chars <= |id|
    ensures |Sections(id, splits, chars)[i]| == chars
    ensures |Sections(id, splits, chars)[splits]| == |id| - splits * chars
  {
    TimesGrows(i + 1, splits, chars);
    TimesIsProduct(splits, chars);
    assert Sections(id, splits, chars)[i] == SplitAt(id, i, chars);
  }

  method SectionAt(id: Id, i: nat, chars: nat) returns (idSection: string)
    requires chars > 0
    ensures idSection == SplitAt(id, i, chars)
    ensures |idSection| == 0 <==> |id| <= Times(i, chars)
  {
    TimesIsProduct(i, chars);
    TimesIsProduct(i + 1, chars);
    idSection := Substring(id, i * chars, (i + 1) * chars);
  }

  method RestAfter(id: Id, splits: nat, chars: nat) returns (rest: string)
    ensures rest == From(id, Times(splits, chars))
  {
    TimesIsProduct(splits, chars);
    rest := From(id, splits * chars);
  }

  lemma AreSectionsOf(path: Path, id: Id, splits: nat, chars: nat)
    requires |path| == splits + 1 && path[splits] == From(id, Times(splits, chars))
    requires forall k :: 0 <= k < splits ==> path[k] == SplitAt(id, k, chars)
    ensures path == Sections(id, splits, chars) && Joined(path) == id
  {
    assert path == Sections(id, splits, chars);
    JoinedSections(id, splits, chars);
  }

  method IdToPathSections(id: Id, splits: nat, chars: nat) returns (r: Option<Path>)
    requires splits > 0 && chars > 0
    ensures r == if |id| <= (splits - 1) * chars then None else Some(Sections(id, splits, chars))
    ensures r.Some? ==> Joined(r.value) == id
  {
    TimesIsProduct(splits - 1, chars);
    var path: Path := [];
    var i := 0;
    while i < splits
      invariant i <= splits && |path| == i
      invariant forall k :: 0 <= k < i ==> path[k] == SplitAt(id, k, chars)
      invariant i > 0 ==> |id| > Times(i - 1, chars)
    {
      var idSection := SectionAt(id, i, chars);
      if |idSection| == 0 {
        TimesGrows(i, splits - 1, chars);
        return None;
      }
      path := path + [idSection];
      i := i + 1;
    }
    var rest := RestAfter(id, splits, chars);
    path := path + [rest];
    AreSectionsOf(path, id, splits, chars);
    r := Some(path);
  }

  // ---------- folders

  class FolderFs {
    var folders: set<Path>

    constructor ()
      ensures folders == {[]}
    {
      folders := {[]};
    }

    method Exists(p: Path) returns (r: bool)
      ensures r <==> p in folders
    {
      r := p in folders;
    }

    method Mkdir(p: Path) returns (error: Option<FsError>)
      requires |p| > 0
      modifies this
      ensures error == if p in old(folders) then Some(AlreadyExists)
                       else if p[..|p| - 1] !in old(folders) then Some(NotFound) else None
      ensures folders == if error.None? then old(folders) + {p} else old(folders)
    {
      if p in folders { return Some(AlreadyExists); }
      if p[..|p| - 1] !in folders { return Some(NotFound); }
      folders := folders + {p};
      error := None;
    }

    ghost predicate IsEmpty(p: Path)
      reads this
    {
      forall q :: q in folders && |q| > 0 ==> q[..|q| - 1] != p
    }

    method Rmdir(p: Path) returns (error: Option<FsError>)
      modifies this
      ensures error == if p !in old(folders) then Some(NotFound)
                       else if !old(IsEmpty(p)) then Some(NotEmpty) else None
      ensures folders == if error.None? then old(folders) - {p} else old(folders)
    {
      if p !in folders { return Some(NotFound); }
      if exists q :: q in folders && |q| > 0 && q[..|q| - 1] == p { return Some(NotEmpty); }
      folders := folders - {p};
      error := None;
    }

    method RmDirWithContent(p: Path)
      modifies this
      ensures forall q :: q in folders <==> q in old(folders) && !(p <= q)
    {
      folders := set q | q in folders && !(p <= q);
    }

    /** Names come in any order. */
    method Readdir(p: Path) returns (names: seq<string>)
      ensures forall name :: name in names <==> p + [name] in folders
      ensures forall i, j :: 0 <= i < j < |names| ==> names[i] != names[j]
    {
      var left := set q | q in folders && |q| > 0 && q[..|q| - 1] == p;
      names := [];
      while left != {}
        invariant forall q :: q in left ==> q in folders && |q| > 0 && q[..|q| - 1] == p
        invariant forall name :: name in names ==> p + [name] in folders
        invariant forall name :: p + [name] in folders ==> name in names || p + [name] in left
        invariant forall name :: name in names ==> p + [name] !in left
        invariant forall i, j :: 0 <= i < j < |names| ==> names[i] != names[j]
        decreases left
      {
        var q :| q in left;
        var name := q[|q| - 1];
        assert q == p + [name];
        names := names + [name];
        left := left - {q};
      }
    }
  }

  // ---------- tree for ids

  predicate StartsWith(p: Path, start: Path) {
    start <= p
  }

  /** Marked paths, and folders on the way to them. */
  ghost predicate InTree(marks: set<Path>, p: Path) {
    exists q :: q in marks && StartsWith(q, p)
  }

  /** There are folders at marked paths, folders on the way to them, and nothing else,
    * except for a folder of the root object. */
  ghost predicate IsTree(folders: set<Path>, marks: set<Path>) {
    forall p :: p != [ROOT_OBJ_DIR] ==> (p in folders <==> p == [] || InTree(marks, p))
  }

  ghost predicate HasRoot(folders: set<Path>) {
    [ROOT_OBJ_DIR] in folders
  }

  /** Only the last name can be empty. */
  predicate AreSections(sections: Path) {
    && |sections| > 1 && sections[0] != ROOT_OBJ_DIR
    && forall k :: 0 <= k < |sections| - 1 ==> |sections[k]| > 0
  }

  /** Joining of names into a path drops empty ones. */
  function JoinNames(names: Path): Path {
    if |names| == 0 then [] else
    var last := names[|names| - 1];
    JoinNames(names[..|names| - 1]) + if |last| == 0 then [] else [last]
  }

  lemma {:induction false} JoinedNames(names: Path)
    requires forall k :: 0 <= k < |names| ==> |names[k]| > 0
    ensures JoinNames(names) == names
  {
    if |names| > 0 {
      JoinedNames(names[..|names| - 1]);
    }
  }

  lemma TreePath(sections: Path, i: nat)
    requires AreSections(sections) && 0 < i <= |sections|
    ensures JoinNames(sections[..i]) == if |sections[i - 1]| == 0 then sections[..i - 1] else sections[..i]
  {
    assert sections[..i][..i - 1] == sections[..i - 1];
    JoinedNames(sections[..i - 1]);
  }

  lemma NamedSections(sections: Path, n: nat)
    requires |sections| == n + 1 > 1 && ROOT_OBJ_DIR !in sections[..n]
    requires forall k :: 0 <= k < n ==> |sections[k]| > 0
    ensures AreSections(sections)
    ensures JoinNames(sections) == if |sections[n]| == 0 then sections[..n] else sections
  {
    assert sections[0] in sections[..n];
    assert sections[..n + 1] == sections;
    TreePath(sections, n + 1);
  }

  /** Intermediate folders may exist. */
  method MakeFoldersNonexclusively(fs: FolderFs, sections: Path, ghost marks: set<Path>)
    requires AreSections(sections) && IsTree(fs.folders, marks)
    modifies fs
    ensures HasRoot(fs.folders) <==> old(HasRoot(fs.folders))
    ensures WithWay(fs.folders, marks, sections[..|sections| - 1])
  {
    var i := 1;
    while i < |sections|
      invariant 1 <= i <= |sections|
      invariant WithWay(fs.folders, marks, sections[..i - 1])
      invariant HasRoot(fs.folders) <==> old(HasRoot(fs.folders))
    {
      var path := JoinNames(sections[..i]);
      TreePath(sections, i);
      ghost var before := fs.folders;
      assert path[..i - 1] == sections[..i - 1];
      var isThere := fs.Exists(path);
      if !isThere {
        var e := fs.Mkdir(path);
      }
      WayIsLonger(before, fs.folders, marks, sections, i);
      i := i + 1;
    }
  }

  /** Folder at the end of tree's path is created by this call, or it is an error. */
  method MakeTreeExclusively(fs: FolderFs, sections: Path, ghost marks: set<Path>) returns (error: Option<FsError>)
    requires AreSections(sections) && IsTree(fs.folders, marks)
    modifies fs
    ensures HasRoot(fs.folders) <==> old(HasRoot(fs.folders))
    ensures error == if |sections[|sections| - 1]| == 0 || InTree(marks, sections) then Some(AlreadyExists) else None
    ensures IsTree(fs.folders, marks + {JoinNames(sections)})
  {
    MakeFoldersNonexclusively(fs, sections, marks);
    assert sections[..|sections|] == sections;
    TreePath(sections, |sections|);
    ghost var before := fs.folders;
    error := fs.Mkdir(JoinNames(sections));
    if |sections[|sections| - 1]| > 0 {
      WayIsLonger(before, fs.folders, marks, sections, |sections|);
    }
    InTreeWith(marks, JoinNames(sections));
  }

  /** Tree with folders on the way to a given one. */
  ghost predicate WithWay(folders: set<Path>, marks: set<Path>, way: Path) {
    forall p :: p != [ROOT_OBJ_DIR] ==> (p in folders <==> p == [] || InTree(marks, p) || StartsWith(way, p))
  }

  lemma StartsOfLonger(sections: Path, i: nat)
    requires 1 <= i <= |sections|
    ensures forall p :: StartsWith(sections[..i], p) <==> StartsWith(sections[..i - 1], p) || p == sections[..i]
  {
    forall p | StartsWith(sections[..i], p) && |p| < i ensures StartsWith(sections[..i - 1], p) {
      assert p == sections[..i][..|p|] == sections[..i - 1][..|p|];
    }
  }

  lemma WayIsLonger(before: set<Path>, after: set<Path>, marks: set<Path>, sections: Path, i: nat)
    requires 1 <= i <= |sections|
    requires WithWay(before, marks, sections[..i - 1])
    requires after == before + {sections[..i]}
    ensures WithWay(after, marks, sections[..i])
  {
    StartsOfLonger(sections, i);
  }

  lemma InTreeWith(marks: set<Path>, path: Path)
    ensures forall p :: InTree(marks + {path}, p) <==> InTree(marks, p) || StartsWith(path, p)
  {
    forall p | StartsWith(path, p) ensures InTree(marks + {path}, p) {
      assert path in marks + {path};
    }
    forall p | InTree(marks, p) ensures InTree(marks + {path}, p) {
      var q :| q in marks && StartsWith(q, p);
      assert q in marks + {path};
    }
  }

  ghost predicate NoneLonger(marks: set<Path>, n: nat) {
    forall p :: p in marks ==> |p| <= n
  }

  lemma OnlyItself(marks: set<Path>, path: Path)
    requires NoneLonger(marks, |path|)
    ensures InTree(marks, path) <==> path in marks
  {
    if InTree(marks, path) {
      var q :| q in marks && StartsWith(q, path);
      assert q == path;
    }
    assert StartsWith(path, path);
  }

  /** Intermediate folders are removed, until one with something else in it. */
  method RemoveIntermediateFoldersIfEmpty(fs: FolderFs, sections: Path, ghost marks: set<Path>)
    requires AreSections(sections) && (forall q :: q in marks ==> !StartsWith(sections, q))
    requires WithWay(fs.folders, marks, sections[..|sections| - 1])
    modifies fs
    ensures HasRoot(fs.folders) <==> old(HasRoot(fs.folders))
    ensures IsTree(fs.folders, marks)
  {
    var i := |sections| - 1;
    while i > 0
      invariant 0 <= i < |sections|
      invariant WithWay(fs.folders, marks, sections[..i])
      invariant HasRoot(fs.folders) <==> old(HasRoot(fs.folders))
    {
      var path := JoinNames(sections[..i]);
      TreePath(sections, i);
      ghost var before := fs.folders;
      EmptyIsNotInTree(fs, marks, sections, i);
      var e := fs.Rmdir(path);
      if e.Some? {
        return;
      }
      WayIsShorter(before, fs.folders, marks, sections, i);
      i := i - 1;
    }
    assert forall p :: StartsWith(sections[..0], p) ==> p == [];
  }

  lemma EmptyIsNotInTree(fs: FolderFs, marks: set<Path>, sections: Path, i: nat)
    requires 0 < i < |sections| && sections[0] != ROOT_OBJ_DIR
    requires forall q :: q in marks ==> !StartsWith(sections, q)
    requires WithWay(fs.folders, marks, sections[..i])
    ensures sections[..i] in fs.folders
    ensures fs.IsEmpty(sections[..i]) <==> !InTree(marks, sections[..i])
    ensures InTree(marks, sections[..i]) ==> IsTree(fs.folders, marks)
  {
    var path := sections[..i];
    assert StartsWith(path, path) && StartsWith(sections, path);
    if InTree(marks, path) {
      var q :| q in marks && StartsWith(q, path);
      assert q != path;
      assert StartsWith(q, q[..i + 1]) && q[..i + 1][..i] == path;
      assert q[..i + 1] in fs.folders;
      forall p | StartsWith(path, p) ensures InTree(marks, p) {
        assert StartsWith(q, p);
      }
    }
    if !fs.IsEmpty(path) {
      var c :| c in fs.folders && |c| > 0 && c[..|c| - 1] == path;
      assert !StartsWith(path, c);
      var q :| q in marks && StartsWith(q, c);
      assert StartsWith(q, path);
    }
  }

  lemma WayIsShorter(before: set<Path>, after: set<Path>, marks: set<Path>, sections: Path, i: nat)
    requires 0 < i <= |sections|
    requires WithWay(before, marks, sections[..i]) && !InTree(marks, sections[..i])
    requires after == before - {sections[..i]}
    ensures WithWay(after, marks, sections[..i - 1])
  {
    StartsOfLonger(sections, i);
  }

  /** Marks that are left without a path, and without all those on the way to it. */
  ghost function OffTheWay(marks: set<Path>, path: Path): set<Path> {
    set q | q in marks && !StartsWith(path, q)
  }

  /** Marks left without everything that is under a path. */
  ghost function NotUnder(marks: set<Path>, path: Path): set<Path> {
    set q | q in marks && !StartsWith(q, path)
  }

  /** Folder before the last one of a path, if this is not a base folder. */
  function ParentOf(path: Path): set<Path> {
    if |path| > 1 then {path[..|path| - 1]} else {}
  }

  /** With an empty last part, the first intermediate folder to remove is the one that is already removed:
    * this is an error, and other intermediate folders stay. */
  method DeleteTree(fs: FolderFs, sections: Path, ghost marks: set<Path>) returns (error: Option<FsError>)
    requires AreSections(sections) && NoneLonger(marks, |sections|) && InTree(marks, JoinNames(sections))
    requires IsTree(fs.folders, marks)
    modifies fs
    ensures HasRoot(fs.folders) <==> old(HasRoot(fs.folders))
    ensures var leaf := JoinNames(sections);
            if leaf == sections then error == None && IsTree(fs.folders, OffTheWay(marks, leaf))
            else error == Some(NotFound) && IsTree(fs.folders, NotUnder(marks, leaf) + ParentOf(leaf))
  {
    ghost var before := fs.folders;
    var leaf := JoinNames(sections);
    assert sections[..|sections|] == sections;
    TreePath(sections, |sections|);
    fs.RmDirWithContent(leaf);
    if leaf == sections {
      LeafRemoved(before, fs.folders, marks, sections);
      RemoveIntermediateFoldersIfEmpty(fs, sections, OffTheWay(marks, sections));
      error := None;
    } else {
      SubtreeRemoved(before, fs.folders, marks, leaf);
      TreePath(sections, |sections| - 1);
      error := fs.Rmdir(JoinNames(sections[..|sections| - 1]));
    }
  }

  lemma LeafRemoved(before: set<Path>, after: set<Path>, marks: set<Path>, sections: Path)
    requires |sections| > 1 && sections[0] != ROOT_OBJ_DIR && NoneLonger(marks, |sections|)
    requires IsTree(before, marks) && InTree(marks, sections)
    requires forall q :: q in after <==> q in before && !(sections <= q)
    ensures WithWay(after, OffTheWay(marks, sections), sections[..|sections| - 1])
  {
    var way := sections[..|sections| - 1];
    var rest := OffTheWay(marks, sections);
    assert sections[..|sections|] == sections;
    StartsOfLonger(sections, |sections|);
    forall p | p != [ROOT_OBJ_DIR] && (p == [] || InTree(rest, p) || StartsWith(way, p)) ensures p in after {
      if StartsWith(way, p) {
        var q :| q in marks && StartsWith(q, sections);
        assert StartsWith(q, p) && |p| < |sections|;
      } else if InTree(rest, p) {
        var q :| q in rest && StartsWith(q, p);
        assert StartsWith(p, sections) ==> q == sections;
        assert StartsWith(sections, sections);
      }
    }
    forall p | p in after && p != [] && p != [ROOT_OBJ_DIR] ensures InTree(rest, p) || StartsWith(way, p) {
      var q :| q in marks && StartsWith(q, p);
      if StartsWith(sections, q) {
        assert StartsWith(sections, p) && p != sections;
      } else {
        assert q in rest;
      }
    }
  }

  lemma SubtreeRemoved(before: set<Path>, after: set<Path>, marks: set<Path>, path: Path)
    requires |path| > 0 && path[0] != ROOT_OBJ_DIR
    requires IsTree(before, marks) && InTree(marks, path)
    requires forall q :: q in after <==> q in before && !(path <= q)
    ensures IsTree(after, NotUnder(marks, path) + ParentOf(path))
  {
    var rest := NotUnder(marks, path) + ParentOf(path);
    forall p | p in after && p != [] && p != [ROOT_OBJ_DIR] ensures InTree(rest, p) {
      var q :| q in marks && StartsWith(q, p);
      if StartsWith(q, path) {
        assert p == q[..|p|] == path[..|p|] && |p| < |path|;
        assert StartsWith(path[..|path| - 1], p);
      } else {
        assert q in rest;
      }
    }
    forall p | p != [ROOT_OBJ_DIR] && InTree(rest, p) ensures p == [] || p in after {
      var q :| q in rest && StartsWith(q, p);
      if q in ParentOf(path) {
        var q' :| q' in marks && StartsWith(q', path);
        assert StartsWith(q', p);
      } else {
        assert StartsWith(p, path) ==> StartsWith(q, path);
      }
    }
  }

  /** Goes down through as many levels as there are splits. */
  method AllTreePaths(fs: FolderFs, path: Path, splits: nat) returns (found: seq<Path>)
    ensures forall p :: p in found <==> |p| == splits + 1 && IsListed(fs.folders, path, p)
    ensures AllDifferent(found)
    decreases splits
  {
    var lst := fs.Readdir(path);
    found := [];
    var k := 0;
    while k < |lst|
      invariant k <= |lst|
      invariant forall p :: p in found <==>
                  |p| == splits + 1 && p[0] in lst[..k] && IsBranch(fs.folders, path, p, p[0], splits)
      invariant AllDifferent(found)
    {
      var f := lst[k];
      assert lst[..k + 1] == lst[..k] + [f] && f !in lst[..k];
      ListedBranch(fs.folders, path, f, splits);
      if splits == 0 {
        found := found + [[f]];
      } else if f != ROOT_OBJ_DIR {
        var treePaths := AllTreePaths(fs, path + [f], splits - 1);
        found := AddBranches(found, f, treePaths);
      }
      k := k + 1;
    }
    assert lst[..k] == lst;
    assert forall p :: |p| > 0 && IsListed(fs.folders, path, p) ==> p[0] in lst;
  }

  ghost predicate IsBranch(folders: set<Path>, path: Path, p: Path, f: string, splits: nat) {
    |p| == splits + 1 && p[0] == f && IsListed(folders, path, p)
  }

  lemma ListedBranch(folders: set<Path>, path: Path, f: string, splits: nat)
    requires path + [f] in folders
    ensures splits == 0 ==> forall p :: IsBranch(folders, path, p, f, splits) <==> p == [f]
    ensures splits > 0 ==> forall p :: IsBranch(folders, path, p, f, splits) <==>
              |p| == splits + 1 && p[0] == f && f != ROOT_OBJ_DIR && IsListed(folders, path + [f], p[1..])
  {}

  ghost predicate AllDifferent(found: seq<Path>) {
    forall i, j :: 0 <= i < j < |found| ==> found[i] != found[j]
  }

  predicate IsIn(p: Path, f: string, branches: seq<Path>) {
    |p| > 0 && p[0] == f && p[1..] in branches
  }

  lemma BranchIs(p: Path, f: string, branch: Path)
    ensures p == [f] + branch <==> |p| > 0 && p[0] == f && p[1..] == branch
  {
    if |p| > 0 && p[0] == f && p[1..] == branch {
      assert p == [p[0]] + p[1..];
    }
    assert ([f] + branch)[1..] == branch;
  }

  lemma InOneMore(branches: seq<Path>, j: nat, branch: Path)
    requires j < |branches|
    ensures branch in branches[..j + 1] <==> branch in branches[..j] || branch == branches[j]
  {
    assert branches[..j + 1] == branches[..j] + [branches[j]];
  }

  lemma OneMoreBranch(f: string, branches: seq<Path>, j: nat)
    requires j < |branches| && AllDifferent(branches)
    ensures forall p :: IsIn(p, f, branches[..j + 1]) <==> IsIn(p, f, branches[..j]) || p == [f] + branches[j]
    ensures !IsIn([f] + branches[j], f, branches[..j])
  {
    forall p ensures IsIn(p, f, branches[..j + 1]) <==> IsIn(p, f, branches[..j]) || p == [f] + branches[j] {
      BranchIs(p, f, branches[j]);
      if |p| > 0 {
        InOneMore(branches, j, p[1..]);
      }
    }
    BranchIs([f] + branches[j], f, branches[j]);
    assert branches[j] !in branches[..j];
  }

  method AddBranches(found: seq<Path>, f: string, branches: seq<Path>) returns (all: seq<Path>)
    requires AllDifferent(found) && AllDifferent(branches)
    requires forall p :: p in found ==> |p| > 0 && p[0] != f
    ensures AllDifferent(all)
    ensures forall p :: p in all <==> p in found || IsIn(p, f, branches)
  {
    all := found;
    var j := 0;
    while j < |branches|
      invariant j <= |branches|
      invariant AllDifferent(all)
      invariant forall p :: p in all <==> p in found || IsIn(p, f, branches[..j])
    {
      OneMoreBranch(f, branches, j);
      all := all + [[f] + branches[j]];
      j := j + 1;
    }
    assert branches[..j] == branches;
  }

  /** Folder exists with all folders on the way to it, among which there is no root's folder. */
  ghost predicate IsListed(folders: set<Path>, path: Path, p: Path)
    decreases |p|
  {
    |p| > 0 ==>
      && path + [p[0]] in folders
      && (|p| > 1 ==> p[0] != ROOT_OBJ_DIR && IsListed(folders, path + [p[0]], p[1..]))
  }

  lemma {:induction false} ListedIsOnTheWay(folders: set<Path>, path: Path, p: Path)
    ensures IsListed(folders, path, p) <==>
            && (forall k :: 0 < k <= |p| ==> path + p[..k] in folders)
            && (forall k :: 0 <= k < |p| - 1 ==> p[k] != ROOT_OBJ_DIR)
    decreases |p|
  {
    if |p| > 0 {
      ListedIsOnTheWay(folders, path + [p[0]], p[1..]);
      assert path + p[..1] == path + [p[0]];
      assert forall k :: 0 < k <= |p[1..]| ==> path + [p[0]] + p[1..][..k] == path + p[..k + 1];
      assert forall k :: 1 < k <= |p| ==> path + p[..k] == path + [p[0]] + p[1..][..k - 1];
      assert forall k :: 0 < k < |p| - 1 ==> p[k] == p[1..][k - 1];
    }
  }

  lemma ListedAreObjects(folders: set<Path>, marks: set<Path>, n: nat, p: Path)
    requires IsTree(folders, marks) && NoneLonger(marks, n) && n > 1
    requires forall q, k :: q in marks && |q| == n && 0 <= k < n - 1 ==> q[k] != ROOT_OBJ_DIR
    ensures |p| == n && IsListed(folders, [], p) <==> |p| == n && p in marks
  {
    ListedIsOnTheWay(folders, [], p);
    if |p| == n && p in marks {
      forall k | 0 < k <= |p| ensures [] + p[..k] in folders {
        assert [] + p[..k] == p[..k] && StartsWith(p, p[..k]);
        assert p[..k] != [ROOT_OBJ_DIR] by { assert p[..k][0] == p[0]; }
      }
    }
    if |p| == n && IsListed(folders, [], p) {
      assert [] + p[..n] == p;
      OnlyItself(marks, p);
    }
  }

  // ---------- objects

  class ObjFolders {
    const fs: FolderFs
    const splits: nat
    const chars: nat
    ghost var ids: set<Id>
    ghost var strays: set<Path>

    /** Configuration's check makes split prefixes shorter than all generated ids. */
    predicate IsProper(id: Id) {
      |id| > Times(splits, chars) && !HasRootPart(id)
    }

    predicate HasRootPart(id: Id) {
      ROOT_OBJ_DIR in Sections(id, splits, chars)[..splits]
    }

    predicate IsTooShort(id: Id) {
      splits > 0 && |id| <= Times(splits - 1, chars)
    }

    /** All splits have characters, and nothing is left after them. */
    predicate IsBare(id: Id) {
      splits > 0 && Times(splits - 1, chars) < |id| <= Times(splits, chars)
    }

    /** Folder's path drops the last part, when it is empty. */
    function FolderOf(id: Id): Path {
      JoinNames(Sections(id, splits, chars))
    }

    ghost function PathsOf(ids: set<Id>): set<Path> {
      set id | id in ids && IsProper(id) :: Sections(id, splits, chars)
    }

    ghost function Marks(ids: set<Id>, strays: set<Path>): set<Path> {
      PathsOf(ids) + strays
    }

    /** Folders are there exactly for created and not removed objects, and for strays. */
    ghost predicate IsKept(folders: set<Path>, ids: set<Id>, strays: set<Path>) {
      && splits > 0 && chars > 0
      && (forall id :: id in ids ==> IsProper(id))
      && (forall p :: p in strays ==> 0 < |p| <= splits)
      && IsTree(folders, Marks(ids, strays))
    }

    ghost predicate Valid()
      reads this, fs
    {
      IsKept(fs.folders, ids, strays)
    }

    constructor (splits: nat, chars: nat)
      requires splits > 0 && chars > 0
      ensures Valid() && ids == {} && strays == {} && fresh(fs) && !HasRoot(fs.folders)
      ensures this.splits == splits && this.chars == chars
    {
      this.splits, this.chars := splits, chars;
      fs := new FolderFs();
      ids, strays := {}, {};
    }

    /** What kind of path an id gives. */
    lemma KindOfPath(id: Id)
      requires splits > 0 && chars > 0 && !IsTooShort(id) && !HasRootPart(id)
      ensures AreSections(Sections(id, splits, chars))
      ensures IsProper(id) ==> FolderOf(id) == Sections(id, splits, chars) && |Sections(id, splits, chars)[splits]| > 0
      ensures IsBare(id) ==>
                && FolderOf(id) == Sections(id, splits, chars)[..splits]
                && |Sections(id, splits, chars)[splits]| == 0
    {
      var sections := Sections(id, splits, chars);
      NonEmptySections(id, splits, chars);
      forall k | 0 <= k < splits ensures |sections[k]| > 0 {
        TimesGrows(k, splits - 1, chars);
      }
      NamedSections(sections, splits);
    }

    lemma SamePathSameId(id: Id, other: Id)
      ensures StartsWith(Sections(id, splits, chars), Sections(other, splits, chars)) <==> id == other
    {
      if StartsWith(Sections(id, splits, chars), Sections(other, splits, chars)) {
        assert Sections(id, splits, chars) == Sections(other, splits, chars);
        JoinedSections(other, splits, chars);
        JoinedSections(id, splits, chars);
      }
    }

    lemma ObjectIsThere(folders: set<Path>, ids: set<Id>, strays: set<Path>, id: Id)
      requires IsKept(folders, ids, strays) && IsProper(id)
      ensures NoneLonger(Marks(ids, strays), splits + 1)
      ensures FolderOf(id) in folders <==> id in ids
    {
      var path := Sections(id, splits, chars);
      TooShortIsNot(id);
      KindOfPath(id);
      if path in PathsOf(ids) {
        var other :| other in ids && path == Sections(other, splits, chars);
        SamePathSameId(id, other);
      }
      OnlyItself(Marks(ids, strays), path);
    }

    lemma TooShortIsNot(id: Id)
      requires splits > 0 && IsProper(id)
      ensures !IsTooShort(id) && !IsBare(id)
    {
      TimesGrows(splits - 1, splits, chars);
    }

    /** With one more folder, one more object or stray is kept. */
    lemma OneMoreKept(folders: set<Path>, ids: set<Id>, strays: set<Path>, after: set<Path>, id: Id)
      requires IsKept(folders, ids, strays) && !IsTooShort(id) && !HasRootPart(id)
      requires IsTree(after, Marks(ids, strays) + {FolderOf(id)})
      ensures IsProper(id) ==> IsKept(after, ids + {id}, strays)
      ensures IsBare(id) ==> IsKept(after, ids, strays + {FolderOf(id)})
    {
      KindOfPath(id);
      if IsProper(id) {
        assert Marks(ids + {id}, strays) == Marks(ids, strays) + {FolderOf(id)};
      } else {
        assert Marks(ids, strays + {FolderOf(id)}) == Marks(ids, strays) + {FolderOf(id)};
      }
    }

    lemma ObjectNotKept(folders: set<Path>, ids: set<Id>, strays: set<Path>, after: set<Path>, id: Id)
      requires IsKept(folders, ids, strays) && IsProper(id)
      requires IsTree(after, OffTheWay(Marks(ids, strays), FolderOf(id)))
      ensures IsKept(after, ids - {id}, OffTheWay(strays, FolderOf(id)))
    {
      TooShortIsNot(id);
      KindOfPath(id);
      forall o | o in ids
        ensures StartsWith(Sections(id, splits, chars), Sections(o, splits, chars)) <==> id == o
      {
        SamePathSameId(id, o);
      }
      assert OffTheWay(PathsOf(ids), FolderOf(id)) == PathsOf(ids - {id});
      assert OffTheWay(Marks(ids, strays), FolderOf(id)) == Marks(ids - {id}, OffTheWay(strays, FolderOf(id)));
    }

    ghost function IdsNotUnder(ids: set<Id>, path: Path): set<Id> {
      set o | o in ids && !StartsWith(FolderOf(o), path)
    }

    lemma SubtreeNotKept(folders: set<Path>, ids: set<Id>, strays: set<Path>, after: set<Path>, path: Path)
      requires IsKept(folders, ids, strays) && 0 < |path| <= splits
      requires IsTree(after, NotUnder(Marks(ids, strays), path) + ParentOf(path))
      ensures IsKept(after, IdsNotUnder(ids, path), NotUnder(strays, path) + ParentOf(path))
    {
      forall o | o in ids ensures FolderOf(o) == Sections(o, splits, chars) {
        TooShortIsNot(o);
        KindOfPath(o);
      }
      assert NotUnder(PathsOf(ids), path) == PathsOf(IdsNotUnder(ids, path));
      assert NotUnder(Marks(ids, strays), path) + ParentOf(path)
          == Marks(IdsNotUnder(ids, path), NotUnder(strays, path) + ParentOf(path));
    }

    /** Object's folder is found or created. With no object id it is a folder of the root object. An id with nothing
      * left for object's own folder gives a folder on the way to objects, and creates it with an error. */
    method GetFolderAccessFor(id: Id, createIfMissing: bool) returns (r: Result<Option<Path>, FsError>)
      requires Valid() && !HasRootPart(id)
      modifies this, fs
      ensures Valid()
      ensures HasRoot(fs.folders) <==> old(HasRoot(fs.folders)) || (id == "" && createIfMissing)
      ensures id == "" ==>
                && ids == old(ids) && strays == old(strays)
                && r == Success(if HasRoot(fs.folders) then Some([ROOT_OBJ_DIR]) else None)
      ensures id != "" && IsTooShort(id) ==>
                r == Failure(IdTooShort) && ids == old(ids) && strays == old(strays) && fs.folders == old(fs.folders)
      ensures IsProper(id) ==>
                && strays == old(strays) && ids == (if createIfMissing then old(ids) + {id} else old(ids))
                && r == Success(if id in ids then Some(FolderOf(id)) else None)
      ensures IsBare(id) ==>
                var isThere := FolderOf(id) in old(fs.folders);
                && ids == old(ids)
                && strays == old(strays) + (if createIfMissing && !isThere then {FolderOf(id)} else {})
                && r == if isThere then Success(Some(FolderOf(id)))
                        else if createIfMissing then Failure(AlreadyExists) else Success(None)
    {
      TimesIsProduct(splits - 1, chars);
      if |id| == 0 {
        var root := GetRootFolder(createIfMissing);
        return Success(root);
      }
      var path := IdToPathSections(id, splits, chars);
      if path.None? {
        return Failure(IdTooShort);
      }
      r := AccessFolder(id, path.value, createIfMissing);
    }

    method AccessFolder(id: Id, sections: Path, createIfMissing: bool) returns (r: Result<Option<Path>, FsError>)
      requires Valid() && !HasRootPart(id) && !IsTooShort(id) && sections == Sections(id, splits, chars)
      modifies this, fs
      ensures Valid()
      ensures HasRoot(fs.folders) <==> old(HasRoot(fs.folders))
      ensures IsProper(id) ==>
                && strays == old(strays) && ids == (if createIfMissing then old(ids) + {id} else old(ids))
                && r == Success(if id in ids then Some(FolderOf(id)) else None)
      ensures IsBare(id) ==>
                var isThere := FolderOf(id) in old(fs.folders);
                && ids == old(ids)
                && strays == old(strays) + (if createIfMissing && !isThere then {FolderOf(id)} else {})
                && r == if isThere then Success(Some(FolderOf(id)))
                        else if createIfMissing then Failure(AlreadyExists) else Success(None)
    {
      KindOfPath(id);
      ghost var before := fs.folders;
      if IsProper(id) { ObjectIsThere(before, ids, strays, id); }
      r := FindOrMake(sections, createIfMissing);
      if createIfMissing && FolderOf(id) !in before {
        OneMoreKept(before, ids, strays, fs.folders, id);
        if IsProper(id) {
          ids := ids + {id};
        } else {
          strays := strays + {FolderOf(id)};
        }
      }
    }

    method FindOrMake(sections: Path, createIfMissing: bool) returns (r: Result<Option<Path>, FsError>)
      requires Valid() && AreSections(sections) && |sections| == splits + 1
      modifies fs
      ensures HasRoot(fs.folders) <==> old(HasRoot(fs.folders))
      ensures var folder := JoinNames(sections);
              if folder in old(fs.folders) || !createIfMissing then
                && r == Success(if folder in old(fs.folders) then Some(folder) else None)
                && fs.folders == old(fs.folders)
              else
                && r == (if |sections[splits]| == 0 then Failure(AlreadyExists) else Success(Some(folder)))
                && IsTree(fs.folders, Marks(ids, strays) + {folder})
    {
      var folder := JoinNames(sections);
      var isFound := fs.Exists(folder);
      if isFound {
        return Success(Some(folder));
      }
      if !createIfMissing {
        return Success(None);
      }
      PathOfSections(sections);
      var error := MakeTreeExclusively(fs, sections, Marks(ids, strays));
      r := if error == None then Success(Some(folder)) else Failure(error.value);
    }

    lemma PathOfSections(sections: Path)
      requires AreSections(sections) && |sections| == splits + 1
      ensures JoinNames(sections) == if |sections[splits]| == 0 then sections[..splits] else sections
      ensures |JoinNames(sections)| > 0 && JoinNames(sections) != [ROOT_OBJ_DIR]
    {
      assert sections[..splits + 1] == sections;
      TreePath(sections, splits + 1);
    }

    /** An object is removed, with strays on the way to its folder. Removal by an id with nothing left for object's own
      * folder, takes away all objects that are under its path, and fails, when the path is there. */
    method RemoveFolderOf(id: Id) returns (error: Option<FsError>)
      requires Valid() && !HasRootPart(id)
      modifies this, fs
      ensures Valid() && (HasRoot(fs.folders) <==> old(HasRoot(fs.folders)))
      ensures IsTooShort(id) ==>
                && error == Some(if id == "" then RootIsKept else IdTooShort)
                && ids == old(ids) && strays == old(strays) && fs.folders == old(fs.folders)
      ensures IsProper(id) ==>
                && error == None && ids == old(ids) - {id}
                && strays == if id in old(ids) then OffTheWay(old(strays), FolderOf(id)) else old(strays)
      ensures IsBare(id) && FolderOf(id) !in old(fs.folders) ==>
                error == None && ids == old(ids) && strays == old(strays) && fs.folders == old(fs.folders)
      ensures IsBare(id) && FolderOf(id) in old(fs.folders) ==>
                && error == Some(NotFound)
                && ids == IdsNotUnder(old(ids), FolderOf(id))
                && strays == NotUnder(old(strays), FolderOf(id)) + ParentOf(FolderOf(id))
    {
      if |id| == 0 {
        return Some(RootIsKept);
      }
      TimesIsProduct(splits - 1, chars);
      var path := IdToPathSections(id, splits, chars);
      if path.None? {
        return Some(IdTooShort);
      }
      error := RemoveSections(id, path.value);
    }

    method RemoveSections(id: Id, sections: Path) returns (error: Option<FsError>)
      requires Valid() && !HasRootPart(id) && !IsTooShort(id) && sections == Sections(id, splits, chars)
      modifies this, fs
      ensures Valid() && (HasRoot(fs.folders) <==> old(HasRoot(fs.folders)))
      ensures IsProper(id) ==>
                && error == None && ids == old(ids) - {id}
                && strays == if id in old(ids) then OffTheWay(old(strays), FolderOf(id)) else old(strays)
      ensures IsBare(id) && FolderOf(id) !in old(fs.folders) ==>
                error == None && ids == old(ids) && strays == old(strays) && fs.folders == old(fs.folders)
      ensures IsBare(id) && FolderOf(id) in old(fs.folders) ==>
                && error == Some(NotFound)
                && ids == IdsNotUnder(old(ids), FolderOf(id))
                && strays == NotUnder(old(strays), FolderOf(id)) + ParentOf(FolderOf(id))
    {
      KindOfPath(id);
      ghost var before, leaf := fs.folders, FolderOf(id);
      if IsProper(id) { ObjectIsThere(before, ids, strays, id); }
      error := RemoveFound(sections);
      if leaf in before && IsProper(id) {
        ObjectNotKept(before, ids, strays, fs.folders, id);
        ids, strays := ids - {id}, OffTheWay(strays, leaf);
      } else if leaf in before {
        SubtreeNotKept(before, ids, strays, fs.folders, leaf);
        ids, strays := IdsNotUnder(ids, leaf), NotUnder(strays, leaf) + ParentOf(leaf);
      }
    }

    method RemoveFound(sections: Path) returns (error: Option<FsError>)
      requires Valid() && AreSections(sections) && |sections| == splits + 1
      modifies fs
      ensures HasRoot(fs.folders) <==> old(HasRoot(fs.folders))
      ensures var leaf := JoinNames(sections);
              if leaf !in old(fs.folders) then error == None && fs.folders == old(fs.folders)
              else if leaf == sections then error == None && IsTree(fs.folders, OffTheWay(Marks(ids, strays), leaf))
              else error == Some(NotFound) && IsTree(fs.folders, NotUnder(Marks(ids, strays), leaf) + ParentOf(leaf))
    {
      var isFound := fs.Exists(JoinNames(sections));
      if !isFound {
        return None;
      }
      PathOfSections(sections);
      error := DeleteTree(fs, sections, Marks(ids, strays));
    }

    method GetRootFolder(createIfMissing: bool) returns (r: Option<Path>)
      requires Valid()
      modifies fs
      ensures Valid() && ids == old(ids) && strays == old(strays)
      ensures HasRoot(fs.folders) <==> old(HasRoot(fs.folders)) || createIfMissing
      ensures r == if HasRoot(fs.folders) then Some([ROOT_OBJ_DIR]) else None
    {
      var folder := [ROOT_OBJ_DIR];
      var isFound := fs.Exists(folder);
      if isFound { return Some(folder); }
      if !createIfMissing { return None; }
      assert folder[..0] == [];
      var error := fs.Mkdir(folder);
      r := Some(folder);
    }

    lemma FoundIsObject(p: Path)
      requires Valid()
      ensures |p| == splits + 1 && IsListed(fs.folders, [], p) <==>
              Joined(p) in ids && p == Sections(Joined(p), splits, chars)
    {
      forall q, k | q in Marks(ids, strays) && |q| == splits + 1 && 0 <= k < splits ensures q[k] != ROOT_OBJ_DIR {
        var id :| id in ids && q == Sections(id, splits, chars);
        assert IsProper(id) && q[k] in q[..splits];
      }
      ListedAreObjects(fs.folders, Marks(ids, strays), splits + 1, p);
      if p in PathsOf(ids) {
        var id :| id in ids && p == Sections(id, splits, chars);
        JoinedSections(id, splits, chars);
      }
    }

    lemma FoundAreObjects(found: seq<Path>, lst: seq<(Path, Id)>)
      requires Valid() && AllDifferent(found) && |lst| == |found|
      requires forall p :: p in found <==> |p| == splits + 1 && IsListed(fs.folders, [], p)
      requires forall i :: 0 <= i < |lst| ==> lst[i] == (found[i], Joined(found[i]))
      ensures forall id :: id in ids <==> exists i :: 0 <= i < |lst| && lst[i].1 == id
      ensures forall i, j :: 0 <= i < j < |lst| ==> lst[i].1 != lst[j].1
      ensures forall i :: 0 <= i < |lst| ==> IsProper(lst[i].1) && lst[i].0 == Sections(lst[i].1, splits, chars)
    {
      forall i | 0 <= i < |found|
        ensures Joined(found[i]) in ids && found[i] == Sections(Joined(found[i]), splits, chars)
      {
        assert found[i] in found;
        FoundIsObject(found[i]);
      }
      forall id | id in ids ensures exists i :: 0 <= i < |lst| && lst[i].1 == id {
        assert IsProper(id);
        JoinedSections(id, splits, chars);
        FoundIsObject(Sections(id, splits, chars));
        assert Sections(id, splits, chars) in found;
        var i :| 0 <= i < |found| && found[i] == Sections(id, splits, chars);
        assert lst[i].1 == id;
      }
    }

    /** Every object is listed once, with a path of its folder. */
    method ListRecent() returns (hasRoot: bool, lst: seq<(Path, Id)>)
      requires Valid()
      ensures hasRoot <==> HasRoot(fs.folders)
      ensures forall id :: id in ids <==> exists i :: 0 <= i < |lst| && lst[i].1 == id
      ensures forall i, j :: 0 <= i < j < |lst| ==> lst[i].1 != lst[j].1
      ensures forall i :: 0 <= i < |lst| ==> IsProper(lst[i].1) && lst[i].0 == Sections(lst[i].1, splits, chars)
    {
      var found := AllTreePaths(fs, [], splits);
      lst := [];
      var k := 0;
      while k < |found|
        invariant k <= |found| && |lst| == k
        invariant forall i :: 0 <= i < k ==> lst[i] == (found[i], Joined(found[i]))
      {
        lst := lst + [(found[k], Joined(found[k]))];
        k := k + 1;
      }
      FoundAreObjects(found, lst);
      hasRoot := fs.Exists([ROOT_OBJ_DIR]);
    }
  }

  lemma PathsInBareExample(folders: ObjFolders)
    requires folders.splits == 1 && folders.chars == 1
    ensures folders.IsProper("ab") && folders.FolderOf("ab") == Sections("ab", 1, 1) == ["a", "b"]
    ensures folders.IsBare("a") && folders.FolderOf("a") == ["a"] && !folders.HasRootPart("a")
  {
    assert Times(1, 1) == Times(0, 1) + 1;
    AreSectionsOf(["a", "b"], "ab", 1, 1);
    AreSectionsOf(["a", ""], "a", 1, 1);
    folders.KindOfPath("ab");
    folders.KindOfPath("a");
  }

  /** An object is lost, when an id that its own id starts with is removed, and this removal is an error. */
  method BareIdTakesObject() returns (folders: ObjFolders, made: Result<Option<Path>, FsError>, error: Option<FsError>)
    ensures folders.Valid() && made == Success(Some(["a", "b"])) && error == Some(NotFound)
    ensures folders.ids == {}
  {
    folders := new ObjFolders(1, 1);
    PathsInBareExample(folders);
    made := folders.GetFolderAccessFor("ab", true);
    assert folders.FolderOf("ab") in folders.PathsOf(folders.ids);
    assert StartsWith(["a", "b"], ["a"]) && InTree(folders.Marks(folders.ids, folders.strays), ["a"]);
    error := folders.RemoveFolderOf("a");
  }
}
