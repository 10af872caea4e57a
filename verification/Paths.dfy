/**
 Paths as byte strings, with the parts of Rust's std::path that the receiver
 relies on: `file_name`, and `with_file_name` for the sibling temp file.
 */
module Paths {
  import opened Options
  import opened Wire

  const SLASH: byte := 0x2F
  const DOT: byte := 0x2E
  const TMP_SUFFIX: Path := [0x2E, 0x74, 0x6D, 0x70]  // ".tmp"

  function LastComponentStart(path: Path): (k: nat)
    ensures k <= |path| && SLASH !in path[k..]
    ensures k > 0 ==> path[k - 1] == SLASH
  {
    if |path| == 0 || path[|path| - 1] == SLASH then |path|
    else
      var k := LastComponentStart(path[..|path| - 1]);
      assert path[k..] == path[..|path| - 1][k..] + [path[|path| - 1]];
      k
  }

  // Path::file_name: empty and "." components are skipped, ".." has no name.
  function FileName(path: Path): (name: Option<Path>)
    ensures name.Some? ==> SLASH !in name.value && |name.value| <= |path|
    ensures name.Some? ==> name.value !in [[], [DOT], [DOT, DOT]]
    ensures name.Some? && |name.value| == |path| ==> name.value == path
    decreases |path|
  {
    var k := LastComponentStart(path);
    var last := path[k..];
    if last == [DOT, DOT] then None
    else if last == [] || last == [DOT] then
      if k == 0 then None else FileName(path[..k - 1])
    else Some(last)
  }

  lemma PlainNameIsFileName(name: Bytes)
    requires SLASH !in name && name !in [[], [DOT], [DOT, DOT]]
    ensures FileName(name) == Some(name)
  {
    var k := LastComponentStart(name);
    assert k == 0;
    assert name[0..] == name;
  }

  // Without trailing slashes and "." components. A root stays, and so does a
  // leading "." that is all there is.
  function Trim(path: Path): (t: Path)
    ensures |t| <= |path|
    decreases |path|
  {
    var k := LastComponentStart(path);
    if path[k..] != [] && path[k..] != [DOT] then path
    else if k == 0 then path
    else if k == 1 then [SLASH]
    else Trim(path[..k - 1])
  }

  // What Path::parent gives for a path that has a file name.
  function Parent(path: Path): Path {
    var t := Trim(path);
    Trim(t[..LastComponentStart(t)])
  }

  // PathBuf::push of one component.
  function Join(dir: Path, name: Bytes): Path {
    if dir == [] || dir[|dir| - 1] == SLASH then dir + name else dir + [SLASH] + name
  }

  // `final_path.with_file_name(name + ".tmp")`; a path without a file name gets
  // one more component.
  function TmpPath(path: Path): Path {
    match FileName(path)
    case Some(name) => Join(Parent(path), name + TMP_SUFFIX)
    case None => Join(path, TMP_SUFFIX)
  }

  lemma {:induction false} ComponentStart(dir: Path, name: Bytes)
    requires SLASH !in name && (dir == [] || dir[|dir| - 1] == SLASH)
    ensures LastComponentStart(dir + name) == |dir|
    decreases |name|
  {
    if name == [] {
      assert dir + name == dir;
    } else {
      var front := name[..|name| - 1];
      assert (dir + name)[..|dir + name| - 1] == dir + front;
      ComponentStart(dir, front);
    }
  }

  lemma JoinFileName(dir: Path, name: Bytes)
    requires SLASH !in name && name !in [[], [DOT], [DOT, DOT]]
    ensures FileName(Join(dir, name)) == Some(name)
  {
    var front := if dir == [] || dir[|dir| - 1] == SLASH then dir else dir + [SLASH];
    ComponentStart(front, name);
    assert Join(dir, name) == front + name;
    assert (front + name)[|front|..] == name;
  }

  function BaseName(path: Path): Bytes {
    match FileName(path) case Some(name) => name case None => []
  }

  // The temp file's name is the output file's with ".tmp" behind it, so the two
  // are never one.
  lemma TmpPathNamed(path: Path)
    ensures FileName(TmpPath(path)) == Some(BaseName(path) + TMP_SUFFIX)
    ensures TmpPath(path) != path
  {
    var dir := if FileName(path).Some? then Parent(path) else path;
    assert [] + TMP_SUFFIX == TMP_SUFFIX;
    SuffixedName(dir, BaseName(path));
    assert TmpPath(path) == Join(dir, BaseName(path) + TMP_SUFFIX);
  }

  lemma SuffixedName(dir: Path, base: Bytes)
    requires SLASH !in base
    ensures FileName(Join(dir, base + TMP_SUFFIX)) == Some(base + TMP_SUFFIX)
  {
    var name := base + TMP_SUFFIX;
    assert |name| > 2 && SLASH !in name;
    JoinFileName(dir, name);
  }

  // A plain name's temp file lies beside it.
  lemma PlainTmpPath(name: Bytes)
    requires SLASH !in name && name !in [[], [DOT], [DOT, DOT]]
    ensures TmpPath(name) == name + TMP_SUFFIX
  {
    ComponentStart([], name);
    assert [] + name == name;
    PlainNameIsFileName(name);
  }

  // ---------- The same directory ----------

  // The steps from the root, or from where the path starts, without empty ones and
  // ".": what a path names, however it is spelled.
  function Components(path: Path): seq<Bytes>
    decreases |path|
  {
    var k := LastComponentStart(path);
    var front := if k == 0 then [] else Components(path[..k - 1]);
    if path[k..] in [[], [DOT]] then front else front + [path[k..]]
  }

  lemma {:induction false} ComponentsCount(path: Path)
    ensures forall c | c in Components(path) :: c !in [[], [DOT]]
    decreases |path|
  {
    var k := LastComponentStart(path);
    if k > 0 {
      ComponentsCount(path[..k - 1]);
    }
  }

  predicate FromRoot(path: Path) {
    path != [] && path[0] == SLASH
  }

  lemma ComponentsOf(dir: Path, name: Bytes)
    requires SLASH !in name && dir != [] && dir[|dir| - 1] == SLASH
    ensures var front := Components(dir[..|dir| - 1]);
            Components(dir + name) == if name in [[], [DOT]] then front else front + [name]
  {
    ComponentStart(dir, name);
    assert (dir + name)[|dir|..] == name && (dir + name)[..|dir| - 1] == dir[..|dir| - 1];
  }

  // A slash at the end adds nothing.
  lemma SlashEnds(dir: Path)
    requires dir != [] && dir[|dir| - 1] == SLASH
    ensures Components(dir) == Components(dir[..|dir| - 1])
  {
    ComponentsOf(dir, []);
    assert dir + [] == dir;
  }

  lemma {:induction false} TrimSame(path: Path)
    ensures Components(Trim(path)) == Components(path) && (FromRoot(Trim(path)) <==> FromRoot(path))
    ensures Trim(path) == [] <==> path == []
    decreases |path|
  {
    var k := LastComponentStart(path);
    if path[k..] in [[], [DOT]] && k > 1 {
      TrimSame(path[..k - 1]);
    } else if path[k..] in [[], [DOT]] && k == 1 {
      assert path[..0] == [];
      assert Components([]) == [];
      SlashEnds([SLASH]);
    }
  }

  // What `Trim` leaves ends in a component that counts, unless nothing counts.
  lemma {:induction false} TrimEnds(path: Path)
    ensures var t := Trim(path);
            t in [[], [DOT], [SLASH]] || t[LastComponentStart(t)..] !in [[], [DOT]]
    decreases |path|
  {
    var k := LastComponentStart(path);
    if path[k..] in [[], [DOT]] && k > 1 {
      TrimEnds(path[..k - 1]);
    } else if path[k..] in [[], [DOT]] && k == 0 {
      assert path == path[k..];
    }
  }

  // The file name is the last component; ".." is none.
  lemma {:induction false} FileNameIsLast(path: Path)
    ensures var cs := Components(path);
            FileName(path) == if cs == [] || cs[|cs| - 1] == [DOT, DOT] then None else Some(cs[|cs| - 1])
    decreases |path|
  {
    var k := LastComponentStart(path);
    if path[k..] !in [[], [DOT]] {
      var front := if k == 0 then [] else Components(path[..k - 1]);
      assert Components(path) == front + [path[k..]];
    } else if k > 0 {
      FileNameIsLast(path[..k - 1]);
      assert Components(path) == Components(path[..k - 1]);
    } else {
      assert Components(path) == [];
    }
  }

  lemma TrimmedNames(path: Path)
    requires Components(path) != []
    ensures var t := Trim(path);
            t[LastComponentStart(t)..] !in [[], [DOT]] && t != []
  {
    TrimSame(path);
    TrimEnds(path);
    assert Components([]) == [];
    assert [DOT][..0] == [];
    assert Components([DOT]) == [];
    SlashEnds([SLASH]);
  }

  lemma LastStep(t: Path)
    requires t[LastComponentStart(t)..] !in [[], [DOT]]
    ensures var k := LastComponentStart(t);
            Components(t) == Components(t[..k]) + [t[k..]] && (FromRoot(t[..k]) <==> FromRoot(t))
  {
    var k := LastComponentStart(t);
    if k > 0 {
      SlashEnds(t[..k]);
      assert t[..k][..k - 1] == t[..k - 1];
    } else {
      assert t[..0] == [] && t[0..] == t;
      assert t[0] in t;
    }
  }

  // The parent is the directory the file is in.
  lemma ParentSame(path: Path)
    requires FileName(path).Some?
    ensures var cs := Components(path);
            cs != [] && Components(Parent(path)) == cs[..|cs| - 1]
    ensures FromRoot(Parent(path)) <==> FromRoot(path)
  {
    var t := Trim(path);
    FileNameIsLast(path);
    TrimSame(path);
    TrimmedNames(path);
    LastStep(t);
    TrimSame(t[..LastComponentStart(t)]);
  }

  lemma JoinSame(dir: Path, name: Bytes)
    requires SLASH !in name && name !in [[], [DOT]]
    ensures Components(Join(dir, name)) == Components(dir) + [name]
    ensures FromRoot(Join(dir, name)) <==> FromRoot(dir)
  {
    if dir == [] {
      ComponentStart([], name);
      assert [] + name == name && name[0..] == name;
      assert Components([]) == [];
    } else if dir[|dir| - 1] == SLASH {
      ComponentsOf(dir, name);
      SlashEnds(dir);
    } else {
      ComponentsOf(dir + [SLASH], name);
      assert (dir + [SLASH])[..|dir|] == dir;
    }
  }

  // The temp file lies beside the output file: the same steps up to the last, and
  // that is the name with ".tmp" behind it. An output path without a file name gets
  // one more step.
  lemma TmpPathBeside(path: Path)
    ensures FromRoot(TmpPath(path)) <==> FromRoot(path)
    ensures var cs := Components(path);
            Components(TmpPath(path)) ==
              if cs == [] || cs[|cs| - 1] == [DOT, DOT] then cs + [TMP_SUFFIX]
              else cs[..|cs| - 1] + [cs[|cs| - 1] + TMP_SUFFIX]
  {
    FileNameIsLast(path);
    if FileName(path).Some? {
      ParentSame(path);
      JoinSame(Parent(path), FileName(path).value + TMP_SUFFIX);
    } else {
      JoinSame(path, TMP_SUFFIX);
    }
  }

  // Byte for byte, for a file in a directory spelled without trailing slashes or
  // dots: the temp file has the same directory in front.
  lemma TmpPathInDir(dir: Path, name: Bytes)
    requires SLASH !in name && name !in [[], [DOT], [DOT, DOT]] && Trim(dir) == dir
    ensures TmpPath(Join(dir, name)) == Join(dir, name + TMP_SUFFIX)
  {
    JoinFileName(dir, name);
    var front := if dir == [] || dir[|dir| - 1] == SLASH then dir else dir + [SLASH];
    assert Join(dir, name) == front + name;
    ComponentStart(front, name);
    assert (front + name)[|front|..] == name && (front + name)[..|front|] == front;
    assert Parent(Join(dir, name)) == Trim(front);
    TrimFront(dir, front);
  }

  lemma TrimFront(dir: Path, front: Path)
    requires Trim(dir) == dir
    requires front == if dir == [] || dir[|dir| - 1] == SLASH then dir else dir + [SLASH]
    ensures Trim(front) == dir
  {
    if front != dir {
      ComponentStart(front, []);
      assert front + [] == front && front[..|dir|] == dir;
    }
  }

  predicate IsTmp(p: Path) {
    |p| >= |TMP_SUFFIX| && p[|p| - |TMP_SUFFIX|..] == TMP_SUFFIX
  }

  lemma JoinEnds(dir: Path, name: Bytes)
    ensures IsTmp(Join(dir, name + TMP_SUFFIX))
  {
    var path := Join(dir, name + TMP_SUFFIX);
    assert path[|path| - |TMP_SUFFIX|..] == TMP_SUFFIX;
  }

  lemma TmpPathIsTmp(path: Path)
    ensures IsTmp(TmpPath(path)) && TmpPath(path) != path
  {
    TmpPathNamed(path);
    JoinEnds(if FileName(path).Some? then Parent(path) else path, BaseName(path));
    assert [] + TMP_SUFFIX == TMP_SUFFIX;
  }
}
