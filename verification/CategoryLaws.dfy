/** What the generated categories are: the proper prefixes of the file paths, each under the prefix before it. */
module CategoryLaws {
  import opened Options
  import opened Categories
  import C = ContentTree

  // ------------------------------------------------------------------
  // One node for each path: the first that was asked for
  // ------------------------------------------------------------------

  function FirstWith(wanted: seq<Category>, path: string): nat
    requires HasPath(wanted, path)
  {
    if wanted[0].path == path then 0 else 1 + FirstWith(wanted[1..], path)
  }

  ghost predicate FirstOfEach(wanted: seq<Category>, nodes: seq<Category>) {
    && (forall k :: 0 <= k < |nodes| ==> HasPath(wanted, nodes[k].path))
    && (forall k :: 0 <= k < |nodes| ==> IsFirst(wanted, nodes[k]))
    && (forall j, k :: 0 <= j < k < |nodes| ==> FirstWith(wanted, nodes[j].path) < FirstWith(wanted, nodes[k].path))
  }

  ghost predicate IsFirst(wanted: seq<Category>, node: Category) {
    HasPath(wanted, node.path) && FirstWith(wanted, node.path) < |wanted| &&
        wanted[FirstWith(wanted, node.path)] == node
  }

  lemma {:induction false} FirstWithSnoc(wanted: seq<Category>, last: Category, path: string)
    requires HasPath(wanted + [last], path)
    ensures FirstWith(wanted + [last], path) == if HasPath(wanted, path) then FirstWith(wanted, path) else |wanted|
    ensures FirstWith(wanted + [last], path) <= |wanted|
    ensures HasPath(wanted, path) ==> FirstWith(wanted, path) < |wanted|
  {
    if wanted != [] && wanted[0].path != path {
      assert (wanted + [last])[1..] == wanted[1..] + [last];
      FirstWithSnoc(wanted[1..], last, path);
      assert wanted == [wanted[0]] + wanted[1..];
    }
  }

  lemma WidenFirst(wanted: seq<Category>, last: Category, node: Category)
    requires IsFirst(wanted, node)
    ensures IsFirst(wanted + [last], node)
    ensures FirstWith(wanted + [last], node.path) == FirstWith(wanted, node.path)
  {
    hide HasPath, FirstWith;
    HasPathSnoc(wanted, last, node.path);
    FirstWithSnoc(wanted, last, node.path);
  }

  lemma LastIsFirst(wanted: seq<Category>, last: Category)
    requires !HasPath(wanted, last.path)
    ensures IsFirst(wanted + [last], last) && FirstWith(wanted + [last], last.path) == |wanted|
  {
    hide HasPath, FirstWith;
    HasPathSnoc(wanted, last, last.path);
    FirstWithSnoc(wanted, last, last.path);
  }

  lemma WidenFirstOfEach(wanted: seq<Category>, last: Category, nodes: seq<Category>)
    requires FirstOfEach(wanted, nodes)
    ensures FirstOfEach(wanted + [last], nodes)
    ensures forall k :: 0 <= k < |nodes| ==>
            IsFirst(wanted + [last], nodes[k]) && FirstWith(wanted + [last], nodes[k].path) < |wanted|
  {
    hide HasPath, FirstWith;
    forall k | 0 <= k < |nodes|
      ensures IsFirst(wanted + [last], nodes[k])
      ensures FirstWith(wanted + [last], nodes[k].path) == FirstWith(wanted, nodes[k].path)
    {
      WidenFirst(wanted, last, nodes[k]);
    }
  }

  lemma AddFirstOfEach(wanted: seq<Category>, last: Category, nodes: seq<Category>)
    requires FirstOfEach(wanted, nodes) && !HasPath(wanted, last.path)
    ensures FirstOfEach(wanted + [last], nodes + [last])
  {
    hide HasPath, FirstWith;
    WidenFirstOfEach(wanted, last, nodes);
    LastIsFirst(wanted, last);
    var all := nodes + [last];
    forall k | 0 <= k < |all| ensures IsFirst(wanted + [last], all[k]) {
      assert all[k] == if k < |nodes| then nodes[k] else last;
    }
  }

  lemma {:induction false} KeepsFirstOfEach(wanted: seq<Category>)
    ensures FirstOfEach(wanted, FirstByPath(wanted))
  {
    hide HasPath, FirstWith, FirstOfEach;
    if wanted == [] {
      NoneFirst();
    } else {
      var n := |wanted| - 1;
      assert wanted == wanted[..n] + [wanted[n]];
      KeepsFirstOfEach(wanted[..n]);
      SamePaths(wanted[..n], wanted[n].path);
      if HasPath(wanted[..n], wanted[n].path) {
        WidenFirstOfEach(wanted[..n], wanted[n], FirstByPath(wanted[..n]));
      } else {
        AddFirstOfEach(wanted[..n], wanted[n], FirstByPath(wanted[..n]));
      }
    }
  }

  lemma NoneFirst()
    ensures FirstOfEach([], [])
  {
  }

  ghost predicate DistinctPaths(nodes: seq<Category>) {
    forall i, j :: 0 <= i < j < |nodes| ==> nodes[i].path != nodes[j].path
  }

  /** The result holds, for each path asked for, the node that asked first, in the order of asking. */
  lemma GeneratedIsFirstOfEach(os: Casing, files: seq<string>)
    ensures FirstOfEach(WantedByAll(os, files), Generated(os, files))
    ensures DistinctPaths(Generated(os, files))
  {
    hide HasPath, FirstWith, WantedByAll, FirstByPath;
    KeepsFirstOfEach(WantedByAll(os, files));
  }

  // ------------------------------------------------------------------
  // Parents come first
  // ------------------------------------------------------------------

  predicate HasId(nodes: seq<Category>, id: string) {
    exists c <- nodes :: c.id == id
  }

  ghost predicate ParentsFirst(nodes: seq<Category>) {
    forall k :: 0 <= k < |nodes| && nodes[k].parentId.Some? ==> HasId(nodes[..k], nodes[k].parentId.value)
  }

  lemma ParentsFirstSnoc(nodes: seq<Category>, last: Category)
    requires ParentsFirst(nodes) && (last.parentId.Some? ==> HasId(nodes, last.parentId.value))
    ensures ParentsFirst(nodes + [last])
  {
    hide HasId;
    var all := nodes + [last];
    forall k | 0 <= k < |all| && all[k].parentId.Some? ensures HasId(all[..k], all[k].parentId.value) {
      assert all[..k] == nodes[..k];
      if k == |nodes| { assert nodes[..k] == nodes; }
    }
  }

  lemma HasIdWiden(a: seq<Category>, b: seq<Category>, id: string)
    requires HasId(a, id) || HasId(b, id)
    ensures HasId(a + b, id)
  {
  }

  lemma ParentsFirstConcat(a: seq<Category>, b: seq<Category>)
    requires ParentsFirst(a) && ParentsFirst(b)
    ensures ParentsFirst(a + b)
  {
    hide HasId;
    var all := a + b;
    forall k | 0 <= k < |all| && all[k].parentId.Some? ensures HasId(all[..k], all[k].parentId.value) {
      if k < |a| {
        assert all[..k] == a[..k];
      } else {
        assert all[..k] == a + b[..k - |a|];
        HasIdWiden(a, b[..k - |a|], all[k].parentId.value);
      }
    }
  }

  lemma LastHasId(nodes: seq<Category>, last: Category)
    ensures HasId(nodes + [last], last.id)
  {
    assert last in nodes + [last];
  }

  lemma NoParents()
    ensures ParentsFirst([])
  {
  }

  lemma {:induction false} FileParentsFirst(os: Casing, parts: seq<string>, k: nat)
    requires k <= |parts|
    ensures ParentsFirst(Wanted(os, parts, k))
    ensures WalkTo(os, parts, k).parentId.Some? ==> HasId(Wanted(os, parts, k), WalkTo(os, parts, k).parentId.value)
  {
    hide HasId, ParentsFirst, Id, Capitalised;
    if k == 0 {
      NoParents();
    } else {
      FileParentsFirst(os, parts, k - 1);
      var node := NodeFor(os, WalkTo(os, parts, k - 1), parts[k - 1]);
      ParentsFirstSnoc(Wanted(os, parts, k - 1), node);
      LastHasId(Wanted(os, parts, k - 1), node);
      assert Wanted(os, parts, k - 1) + [] == Wanted(os, parts, k - 1);
    }
  }

  lemma {:induction false} WantedParentsFirst(os: Casing, files: seq<string>)
    ensures ParentsFirst(WantedByAll(os, files))
  {
    hide HasId, ParentsFirst, Wanted, Parts;
    if files == [] {
      NoParents();
    } else {
      var n := |files| - 1;
      var parts := Parts(files[n]);
      WantedParentsFirst(os, files[..n]);
      FileParentsFirst(os, parts, FolderCount(parts));
      ParentsFirstConcat(WantedByAll(os, files[..n]), Wanted(os, parts, FolderCount(parts)));
    }
  }

  lemma KeptId(wanted: seq<Category>, id: string)
    requires Coherent(wanted) && HasId(wanted, id)
    ensures HasId(FirstByPath(wanted), id)
  {
    hide Id, FirstByPath;
    var c :| c in wanted && c.id == id;
    SamePaths(wanted, c.path);
    FirstCoherent(wanted);
    var d :| d in FirstByPath(wanted) && d.path == c.path;
  }

  lemma {:induction false} KeepsParentsFirst(wanted: seq<Category>)
    requires Coherent(wanted) && ParentsFirst(wanted)
    ensures ParentsFirst(FirstByPath(wanted))
  {
    hide HasId, HasPath, Coherent, ParentsFirst;
    if wanted == [] {
      NoParents();
    } else {
      var n := |wanted| - 1;
      InitKeeps(wanted, n);
      KeepsParentsFirst(wanted[..n]);
      if wanted[n].parentId.Some? {
        KeptId(wanted[..n], wanted[n].parentId.value);
      }
      ParentsFirstSnoc(FirstByPath(wanted[..n]), wanted[n]);
    }
  }

  lemma InitKeeps(wanted: seq<Category>, n: nat)
    requires Coherent(wanted) && ParentsFirst(wanted) && n < |wanted|
    ensures Coherent(wanted[..n]) && ParentsFirst(wanted[..n])
    ensures wanted[n].parentId.Some? ==> HasId(wanted[..n], wanted[n].parentId.value)
  {
  }

  /** Whatever the paths: a node's parent is null or a node emitted before it. */
  lemma GeneratedParentsFirst(os: Casing, files: seq<string>)
    ensures ParentsFirst(Generated(os, files)) && Coherent(Generated(os, files))
  {
    hide HasId, ParentsFirst, Coherent, WantedByAll, FirstByPath;
    WantedParentsFirst(os, files);
    WantedCoherent(os, files);
    KeepsParentsFirst(WantedByAll(os, files));
    FirstCoherent(WantedByAll(os, files));
  }

  /** The node shows a folder of some file: its name with a capital, at the end of its path in lower case. */
  ghost predicate ShowsFolder(os: Casing, files: seq<string>, c: Category) {
    exists f, i :: f in files && 0 <= i < |Parts(f)| - 1 && NamedAfter(os, Parts(f)[i], c)
  }

  ghost predicate NamedAfter(os: Casing, folder: string, c: Category) {
    && folder != "" && c.name == os.upper(folder[..1]) + folder[1..]
    && exists stem: string :: c.path == stem + "/" + os.lower(folder)
  }

  lemma FirstByPathMember(wanted: seq<Category>, c: Category)
    requires c in FirstByPath(wanted)
    ensures c in wanted
  {
    if wanted != [] && c != wanted[|wanted| - 1] { FirstByPathMember(wanted[..|wanted| - 1], c); }
  }

  lemma {:induction false} WantedNames(os: Casing, parts: seq<string>, k: nat, c: Category)
    requires k <= |parts| && c in Wanted(os, parts, k) && Plain(parts)
    ensures exists i :: 0 <= i < k && NamedAfter(os, parts[i], c)
  {
    if c in Wanted(os, parts, k - 1) {
      WantedNames(os, parts, k - 1, c);
    } else {
      var walk := WalkTo(os, parts, k - 1);
      assert parts[k - 1] in parts && c == NodeFor(os, walk, parts[k - 1]);
      assert c.path == walk.currentPath + "/" + os.lower(parts[k - 1]);
      assert NamedAfter(os, parts[k - 1], c);
    }
  }

  lemma {:induction false} AllWantedNames(os: Casing, files: seq<string>, c: Category)
    requires c in WantedByAll(os, files)
    ensures ShowsFolder(os, files, c)
  {
    hide Wanted, Parts, NamedAfter;
    var n := |files| - 1;
    if c in WantedByAll(os, files[..n]) {
      AllWantedNames(os, files[..n], c);
      var f, i :| f in files[..n] && 0 <= i < |Parts(f)| - 1 && NamedAfter(os, Parts(f)[i], c);
      assert f in files;
    } else {
      var parts := Parts(files[n]);
      PartsPlain(files[n]);
      WantedNames(os, parts, FolderCount(parts), c);
      assert files[n] in files;
    }
  }

  /** Whatever the paths, each category is named after the folder it stands for. */
  lemma GeneratedNames(os: Casing, files: seq<string>)
    ensures forall c :: c in Generated(os, files) ==> ShowsFolder(os, files, c)
  {
    hide WantedByAll, FirstByPath, ShowsFolder;
    forall c | c in Generated(os, files) ensures ShowsFolder(os, files, c) {
      FirstByPathMember(WantedByAll(os, files), c);
      AllWantedNames(os, files, c);
    }
  }

  // ------------------------------------------------------------------
  // The paths are the proper prefixes
  // ------------------------------------------------------------------

  /** Lower-casing neither makes nor needs a slash. */
  ghost predicate KeepsSegments(os: Casing) {
    forall s :: '/' !in s ==> '/' !in os.lower(s)
  }

  /** The first `k` segments, lower-cased and joined. */
  function Prefix(os: Casing, parts: seq<string>, k: nat): string
    requires k <= |parts|
  {
    if k == 0 then "" else Prefix(os, parts, k - 1) + "/" + os.lower(parts[k - 1])
  }

  ghost predicate IsProperPrefix(os: Casing, parts: seq<string>, path: string) {
    path != ROOT_PATH && exists k :: 0 < k < |parts| && path == Prefix(os, parts, k)
  }

  /** `collection` is at most the first folder. */
  ghost predicate RootOnTop(os: Casing, parts: seq<string>) {
    forall i :: 0 < i < |parts| - 1 ==> os.lower(parts[i]) != ROOT
  }

  ghost predicate Plain(parts: seq<string>) {
    forall s :: s in parts ==> s != "" && '/' !in s
  }

  lemma {:induction false} SegmentPlain(path: string)
    ensures '/' !in path[..SegmentEnd(path)]
    ensures path != "" && path[0] != '/' ==> SegmentEnd(path) > 0
  {
    if path != "" && path[0] != '/' {
      SegmentPlain(path[1..]);
      assert path[..SegmentEnd(path)] == [path[0]] + path[1..][..SegmentEnd(path[1..])];
    }
  }

  lemma {:induction false} PartsPlain(path: string)
    ensures Plain(Parts(path))
    decreases |path|
  {
    if path != "" {
      if path[0] == '/' {
        PartsPlain(path[1..]);
      } else {
        SegmentPlain(path);
        PartsPlain(path[SegmentEnd(path)..]);
      }
    }
  }

  /** The last slash splits a path in one way. */
  lemma SlashApart(a: string, x: string, b: string, y: string)
    requires a + "/" + x == b + "/" + y && '/' !in x && '/' !in y
    ensures a == b && x == y
  {
    var p := a + "/" + x;
    assert p[|a|] == '/' && p[|b|] == '/';
    assert p[..|a|] == a && p[..|b|] == b;
    assert p[|a| + 1..] == x && p[|b| + 1..] == y;
  }

  lemma RootPathIs()
    ensures ROOT_PATH == "" + "/" + ROOT && '/' !in ROOT
  {
  }

  lemma LowerPlain(os: Casing, parts: seq<string>, i: nat)
    requires KeepsSegments(os) && Plain(parts) && i < |parts|
    ensures '/' !in os.lower(parts[i])
  {
    assert parts[i] in parts;
  }

  /** A prefix is the bare root path only where the first segment is `collection`. */
  lemma PrefixIsRoot(os: Casing, parts: seq<string>, i: nat)
    requires KeepsSegments(os) && Plain(parts) && i < |parts|
    ensures Prefix(os, parts, i + 1) == ROOT_PATH <==> i == 0 && IsRoot(os, parts[0])
  {
    hide KeepsSegments, Plain;
    LowerPlain(os, parts, i);
    RootPathIs();
    if Prefix(os, parts, i + 1) == ROOT_PATH {
      SlashApart(Prefix(os, parts, i), os.lower(parts[i]), "", ROOT);
      PrefixEmpty(os, parts, i);
    }
  }

  lemma PrefixEmpty(os: Casing, parts: seq<string>, i: nat)
    requires i <= |parts|
    ensures Prefix(os, parts, i) == "" <==> i == 0
  {
  }

  lemma {:induction false} WalkIsPrefix(os: Casing, parts: seq<string>, k: nat)
    requires RootOnTop(os, parts) && k <= FolderCount(parts) <= |parts|
    ensures WalkTo(os, parts, k).currentPath == Prefix(os, parts, k)
  {
    hide Id;
    if k > 0 {
      WalkIsPrefix(os, parts, k - 1);
      if IsRoot(os, parts[k - 1]) {
        RootPathIs();
        assert k == 1;
      }
    }
  }

  ghost predicate IsWanted(os: Casing, parts: seq<string>, k: nat, path: string)
    requires k <= |parts|
  {
    exists i :: 0 <= i < k && !IsRoot(os, parts[i]) && path == SegmentPath(os, WalkTo(os, parts, i), parts[i])
  }

  lemma {:induction false} WantedPaths(os: Casing, parts: seq<string>, k: nat, path: string)
    requires k <= |parts|
    ensures HasPath(Wanted(os, parts, k), path) <==> IsWanted(os, parts, k, path)
  {
    hide HasPath, Id, WalkTo, IsRoot, SegmentPath, Capitalised;
    if k == 0 {
      HasNoPath(path);
    } else {
      WantedPaths(os, parts, k - 1, path);
      var node := NodeFor(os, WalkTo(os, parts, k - 1), parts[k - 1]);
      HasPathSnoc(Wanted(os, parts, k - 1), node, path);
      assert Wanted(os, parts, k - 1) + [] == Wanted(os, parts, k - 1);
    }
  }

  lemma HasNoPath(path: string)
    ensures !HasPath([], path)
  {
  }

  lemma FilePrefixes(os: Casing, parts: seq<string>, path: string)
    requires KeepsSegments(os) && Plain(parts) && RootOnTop(os, parts)
    ensures IsWanted(os, parts, FolderCount(parts), path) <==> IsProperPrefix(os, parts, path)
  {
    hide KeepsSegments, Plain, WalkTo;
    if IsWanted(os, parts, FolderCount(parts), path) {
      var i :| 0 <= i < FolderCount(parts) && !IsRoot(os, parts[i]) &&
          path == SegmentPath(os, WalkTo(os, parts, i), parts[i]);
      WalkIsPrefix(os, parts, i);
      PrefixIsRoot(os, parts, i);
      assert path == Prefix(os, parts, i + 1);
    }
    if IsProperPrefix(os, parts, path) {
      var k :| 0 < k < |parts| && path == Prefix(os, parts, k);
      WalkIsPrefix(os, parts, k - 1);
      PrefixIsRoot(os, parts, k - 1);
      assert path == SegmentPath(os, WalkTo(os, parts, k - 1), parts[k - 1]);
    }
  }

  ghost predicate WantedBySome(os: Casing, files: seq<string>, path: string) {
    exists f <- files :: IsWanted(os, Parts(f), FolderCount(Parts(f)), path)
  }

  ghost predicate IsPrefixOfSome(os: Casing, files: seq<string>, path: string) {
    exists f <- files :: IsProperPrefix(os, Parts(f), path)
  }

  lemma {:induction false} AllWantedPaths(os: Casing, files: seq<string>, path: string)
    ensures HasPath(WantedByAll(os, files), path) <==> WantedBySome(os, files, path)
  {
    hide HasPath, Parts, Wanted, IsWanted;
    if files == [] {
      HasNoPath(path);
    } else {
      var n := |files| - 1;
      var parts := Parts(files[n]);
      assert files == files[..n] + [files[n]];
      AllWantedPaths(os, files[..n], path);
      WantedPaths(os, parts, FolderCount(parts), path);
      HasPathConcat(WantedByAll(os, files[..n]), Wanted(os, parts, FolderCount(parts)), path);
    }
  }

  lemma GeneratedPaths(os: Casing, files: seq<string>, path: string)
    ensures HasPath(Generated(os, files), path) <==> WantedBySome(os, files, path)
  {
    hide HasPath, WantedBySome, WantedByAll, FirstByPath;
    AllWantedPaths(os, files, path);
    SamePaths(WantedByAll(os, files), path);
  }

  ghost predicate AllRootOnTop(os: Casing, files: seq<string>) {
    forall f <- files :: RootOnTop(os, Parts(f))
  }

  /** No emitted path ends in the segment `collection`. */
  lemma EndsElsewhere(os: Casing, files: seq<string>, stem: string)
    requires KeepsSegments(os)
    ensures !WantedBySome(os, files, stem + "/" + ROOT)
  {
    hide KeepsSegments, Parts, WalkTo, Plain;
    forall f | f in files ensures !IsWanted(os, Parts(f), FolderCount(Parts(f)), stem + "/" + ROOT) {
      var parts := Parts(f);
      PartsPlain(f);
      forall i | 0 <= i < FolderCount(parts) && !IsRoot(os, parts[i])
        ensures SegmentPath(os, WalkTo(os, parts, i), parts[i]) != stem + "/" + ROOT
      {
        NotThatSegment(os, parts, i, WalkTo(os, parts, i).currentPath, stem);
      }
    }
  }

  lemma NotThatSegment(os: Casing, parts: seq<string>, i: nat, currentPath: string, stem: string)
    requires KeepsSegments(os) && Plain(parts) && i < |parts| && !IsRoot(os, parts[i])
    ensures currentPath + "/" + os.lower(parts[i]) != stem + "/" + ROOT
  {
    hide KeepsSegments, Plain;
    LowerPlain(os, parts, i);
    RootPathIs();
    if currentPath + "/" + os.lower(parts[i]) == stem + "/" + ROOT {
      SlashApart(currentPath, os.lower(parts[i]), stem, ROOT);
    }
  }

  lemma BuriedRoot(os: Casing, files: seq<string>, f: string, i: nat)
    requires KeepsSegments(os) && f in files && 0 < i < |Parts(f)| - 1 && os.lower(Parts(f)[i]) == ROOT
    ensures IsPrefixOfSome(os, files, Prefix(os, Parts(f), i + 1)) &&
            !HasPath(Generated(os, files), Prefix(os, Parts(f), i + 1))
  {
    hide KeepsSegments, Parts, HasPath, Generated, WantedBySome, Plain;
    var parts := Parts(f);
    PartsPlain(f);
    PrefixIsRoot(os, parts, i);
    EndsElsewhere(os, files, Prefix(os, parts, i));
    GeneratedPaths(os, files, Prefix(os, parts, i + 1));
    assert IsProperPrefix(os, parts, Prefix(os, parts, i + 1));
  }

  /** The emitted paths are exactly the lower-cased proper prefixes (less the bare `/collection`)
      if and only if no file has a folder `collection` below the top. */
  lemma CategoriesAreProperPrefixes(os: Casing, files: seq<string>)
    requires KeepsSegments(os)
    ensures (forall path :: HasPath(Generated(os, files), path) <==> IsPrefixOfSome(os, files, path)) <==>
            AllRootOnTop(os, files)
  {
    hide KeepsSegments, Parts, HasPath, Generated, IsRoot;
    if AllRootOnTop(os, files) {
      forall path ensures HasPath(Generated(os, files), path) <==> IsPrefixOfSome(os, files, path) {
        PrefixesOnTop(os, files, path);
      }
    } else {
      var f :| f in files && !RootOnTop(os, Parts(f));
      var i :| 0 < i < |Parts(f)| - 1 && os.lower(Parts(f)[i]) == ROOT;
      BuriedRoot(os, files, f, i);
    }
  }

  lemma PrefixesOnTop(os: Casing, files: seq<string>, path: string)
    requires KeepsSegments(os) && AllRootOnTop(os, files)
    ensures HasPath(Generated(os, files), path) <==> IsPrefixOfSome(os, files, path)
  {
    hide KeepsSegments, Parts, HasPath, Generated, RootOnTop, IsProperPrefix, IsWanted;
    GeneratedPaths(os, files, path);
    forall f | f in files
      ensures IsWanted(os, Parts(f), FolderCount(Parts(f)), path) <==> IsProperPrefix(os, Parts(f), path)
    {
      PartsPlain(f);
      FilePrefixes(os, Parts(f), path);
    }
  }

  // ------------------------------------------------------------------
  // Each category hangs under the prefix before it
  // ------------------------------------------------------------------

  /** The path up to its last slash. */
  function Up(path: string): string {
    if path == "" then "" else if path[|path| - 1] == '/' then path[..|path| - 1] else Up(path[..|path| - 1])
  }

  lemma {:induction false} UpOfJoined(a: string, x: string)
    requires '/' !in x
    ensures Up(a + "/" + x) == a
    decreases |x|
  {
    var path := a + "/" + x;
    if x == "" {
      assert path[..|path| - 1] == a;
    } else {
      UpOfJoined(a, x[..|x| - 1]);
      assert path[..|path| - 1] == a + "/" + x[..|x| - 1];
      assert path[|path| - 1] == x[|x| - 1];
    }
  }

  function ExpectedParent(path: string): Option<string> {
    if path == "" || path == ROOT_PATH then None else Some(Id(path))
  }

  /** The parent is null at the top and the immediate prefix's node everywhere else. */
  predicate UnderItsPrefix(node: Category) {
    node.parentId == ExpectedParent(Up(node.path))
  }

  lemma {:induction false} WalkParent(os: Casing, parts: seq<string>, k: nat)
    requires KeepsSegments(os) && Plain(parts) && RootOnTop(os, parts) && k <= FolderCount(parts) <= |parts|
    ensures WalkTo(os, parts, k).parentId == ExpectedParent(Prefix(os, parts, k))
  {
    hide Id, KeepsSegments, Plain;
    if k > 0 {
      WalkParent(os, parts, k - 1);
      WalkIsPrefix(os, parts, k - 1);
      PrefixIsRoot(os, parts, k - 1);
      PrefixEmpty(os, parts, k - 1);
      PrefixEmpty(os, parts, k);
      assert !IsRoot(os, parts[k - 1]) ==>
             SegmentPath(os, WalkTo(os, parts, k - 1), parts[k - 1]) == Prefix(os, parts, k);
    }
  }

  lemma NodeUnderItsPrefix(os: Casing, parts: seq<string>, i: nat)
    requires KeepsSegments(os) && Plain(parts) && RootOnTop(os, parts) && i < FolderCount(parts) <= |parts|
    ensures UnderItsPrefix(NodeFor(os, WalkTo(os, parts, i), parts[i]))
  {
    hide Id, KeepsSegments, Plain, WalkTo, ExpectedParent, RootOnTop, Capitalised;
    LowerPlain(os, parts, i);
    WalkIsPrefix(os, parts, i);
    WalkParent(os, parts, i);
    UpOfJoined(Prefix(os, parts, i), os.lower(parts[i]));
  }

  ghost predicate AllUnder(nodes: seq<Category>) {
    forall c <- nodes :: UnderItsPrefix(c)
  }

  lemma {:induction false} FileUnder(os: Casing, parts: seq<string>, k: nat)
    requires KeepsSegments(os) && Plain(parts) && RootOnTop(os, parts) && k <= FolderCount(parts) <= |parts|
    ensures AllUnder(Wanted(os, parts, k))
  {
    hide Id, KeepsSegments, Plain, WalkTo, RootOnTop, UnderItsPrefix, NodeFor;
    if k > 0 {
      FileUnder(os, parts, k - 1);
      NodeUnderItsPrefix(os, parts, k - 1);
    }
  }

  lemma {:induction false} WantedUnder(os: Casing, files: seq<string>)
    requires KeepsSegments(os) && AllRootOnTop(os, files)
    ensures AllUnder(WantedByAll(os, files))
  {
    hide KeepsSegments, Plain, RootOnTop, UnderItsPrefix, Wanted, Parts;
    if files != [] {
      var n := |files| - 1;
      WantedUnder(os, files[..n]);
      PartsPlain(files[n]);
      FileUnder(os, Parts(files[n]), FolderCount(Parts(files[n])));
    }
  }

  lemma GeneratedUnderPrefix(os: Casing, files: seq<string>)
    requires KeepsSegments(os) && AllRootOnTop(os, files)
    ensures AllUnder(Generated(os, files))
  {
    hide KeepsSegments, AllRootOnTop, UnderItsPrefix, WantedByAll, FirstByPath;
    WantedUnder(os, files);
    forall c | c in Generated(os, files) ensures UnderItsPrefix(c) {
      FirstMember(WantedByAll(os, files), c);
    }
  }

  // ------------------------------------------------------------------
  // Ids
  // ------------------------------------------------------------------

  /** The paths differ only in that one has a slash where the other has an underscore. */
  ghost predicate SameUpToSlash(p: string, q: string) {
    && |p| == |q|
    && forall i :: 0 <= i < |p| ==> p[i] == q[i] || (p[i] in "/_" && q[i] in "/_")
  }

  lemma IdsClash(p: string, q: string)
    ensures Id(p) == Id(q) <==> SameUpToSlash(p, q)
  {
    if Id(p) == Id(q) {
      forall i | 0 <= i < |p| ensures p[i] == q[i] || (p[i] in "/_" && q[i] in "/_") {
        assert Id(p)[i] == Id(q)[i];
      }
    }
  }

  ghost predicate DistinctIds(nodes: seq<Category>) {
    forall i, j :: 0 <= i < j < |nodes| ==> nodes[i].id != nodes[j].id
  }

  lemma NodesApart(os: Casing, files: seq<string>)
    ensures var nodes := Generated(os, files);
            DistinctIds(nodes) <==> forall i, j :: 0 <= i < j < |nodes| ==> !SameUpToSlash(nodes[i].path, nodes[j].path)
  {
    hide Generated, SameUpToSlash, Id;
    var nodes := Generated(os, files);
    GeneratedParentsFirst(os, files);
    forall i, j | 0 <= i < j < |nodes|
      ensures nodes[i].id == nodes[j].id <==> SameUpToSlash(nodes[i].path, nodes[j].path)
    {
      assert nodes[i] in nodes && nodes[j] in nodes;
      IdsClash(nodes[i].path, nodes[j].path);
    }
  }

  /** No two paths that the folders of the files spell differ only in a slash for an underscore. */
  ghost predicate SpeltApart(os: Casing, files: seq<string>) {
    forall p, q :: WantedBySome(os, files, p) && WantedBySome(os, files, q) && SameUpToSlash(p, q) ==> p == q
  }

  lemma PathHasNode(nodes: seq<Category>, path: string) returns (i: nat)
    requires HasPath(nodes, path)
    ensures i < |nodes| && nodes[i].path == path
  {
    var c :| c in nodes && c.path == path;
    i :| 0 <= i < |nodes| && nodes[i] == c;
  }

  lemma NodeHasPath(nodes: seq<Category>, i: nat)
    requires i < |nodes|
    ensures HasPath(nodes, nodes[i].path)
  {
    assert nodes[i] in nodes;
  }

  lemma SlashSymmetric(p: string, q: string)
    ensures SameUpToSlash(p, q) <==> SameUpToSlash(q, p)
  {
  }

  /** Ids are distinct exactly when the files spell no two folder paths that are the same up to slash and underscore. */
  lemma DistinctIdsIff(os: Casing, files: seq<string>)
    ensures DistinctIds(Generated(os, files)) <==> SpeltApart(os, files)
  {
    hide Generated, SameUpToSlash, HasPath, WantedBySome, FirstOfEach, DistinctIds;
    var nodes := Generated(os, files);
    NodesApart(os, files);
    GeneratedIsFirstOfEach(os, files);
    if DistinctIds(nodes) {
      forall p, q | WantedBySome(os, files, p) && WantedBySome(os, files, q) && SameUpToSlash(p, q) ensures p == q {
        GeneratedPaths(os, files, p);
        GeneratedPaths(os, files, q);
        var i := PathHasNode(nodes, p);
        var j := PathHasNode(nodes, q);
        SlashSymmetric(p, q);
      }
    }
    if SpeltApart(os, files) {
      forall i, j | 0 <= i < j < |nodes| ensures !SameUpToSlash(nodes[i].path, nodes[j].path) {
        NodeHasPath(nodes, i);
        NodeHasPath(nodes, j);
        GeneratedPaths(os, files, nodes[i].path);
        GeneratedPaths(os, files, nodes[j].path);
      }
    }
  }

  /** With `collection` on top only, these are the proper prefixes of the file paths. */
  lemma DistinctIdsOnTop(os: Casing, files: seq<string>)
    requires KeepsSegments(os) && AllRootOnTop(os, files)
    ensures DistinctIds(Generated(os, files)) <==>
            forall p, q :: IsPrefixOfSome(os, files, p) && IsPrefixOfSome(os, files, q) && SameUpToSlash(p, q) ==>
                p == q
  {
    hide Generated, SameUpToSlash, HasPath, WantedBySome, IsPrefixOfSome, DistinctIds, KeepsSegments, AllRootOnTop;
    DistinctIdsIff(os, files);
    forall p ensures WantedBySome(os, files, p) <==> IsPrefixOfSome(os, files, p) {
      GeneratedPaths(os, files, p);
      PrefixesOnTop(os, files, p);
    }
  }

  /** No folder segment, once lower-cased, holds an underscore. */
  ghost predicate NoUnderscores(os: Casing, files: seq<string>) {
    forall f <- files :: FoldersPlain(os, Parts(f))
  }

  ghost predicate FoldersPlain(os: Casing, parts: seq<string>) {
    forall i :: 0 <= i < |parts| - 1 ==> '_' !in os.lower(parts[i])
  }

  lemma {:induction false} WalkWithoutUnderscore(os: Casing, parts: seq<string>, k: nat)
    requires FoldersPlain(os, parts) && k <= FolderCount(parts) <= |parts|
    ensures '_' !in WalkTo(os, parts, k).currentPath
  {
    hide Id;
    if k > 0 { WalkWithoutUnderscore(os, parts, k - 1); }
  }

  lemma PathWithoutUnderscore(os: Casing, files: seq<string>, path: string)
    requires NoUnderscores(os, files) && HasPath(Generated(os, files), path)
    ensures '_' !in path
  {
    hide HasPath, Generated, WalkTo, Parts;
    GeneratedPaths(os, files, path);
    var f :| f in files && IsWanted(os, Parts(f), FolderCount(Parts(f)), path);
    var parts := Parts(f);
    var i :| 0 <= i < FolderCount(parts) && !IsRoot(os, parts[i]) &&
        path == SegmentPath(os, WalkTo(os, parts, i), parts[i]);
    WalkWithoutUnderscore(os, parts, i);
  }

  lemma PlainPathsSame(p: string, q: string)
    requires SameUpToSlash(p, q) && '_' !in p && '_' !in q
    ensures p == q
  {
  }

  lemma IdsDistinctWithoutUnderscores(os: Casing, files: seq<string>)
    requires NoUnderscores(os, files)
    ensures DistinctIds(Generated(os, files))
  {
    hide Generated, SameUpToSlash, NoUnderscores, DistinctIds, FirstOfEach;
    var nodes := Generated(os, files);
    GeneratedIsFirstOfEach(os, files);
    NodesApart(os, files);
    forall i, j | 0 <= i < j < |nodes| ensures !SameUpToSlash(nodes[i].path, nodes[j].path) {
      assert nodes[i] in nodes && nodes[j] in nodes;
      PathWithoutUnderscore(os, files, nodes[i].path);
      PathWithoutUnderscore(os, files, nodes[j].path);
      if SameUpToSlash(nodes[i].path, nodes[j].path) { PlainPathsSame(nodes[i].path, nodes[j].path); }
    }
  }

  lemma {:induction false} SegmentEndsAt(segment: string, rest: string)
    requires '/' !in segment && (rest == "" || rest[0] == '/')
    ensures SegmentEnd(segment + rest) == |segment|
  {
    if segment != "" {
      assert (segment + rest)[1..] == segment[1..] + rest;
      SegmentEndsAt(segment[1..], rest);
    } else {
      assert segment + rest == rest;
    }
  }

  lemma PartsOfSegment(segment: string, rest: string)
    requires segment != "" && '/' !in segment && (rest == "" || rest[0] == '/')
    ensures Parts("/" + segment + rest) == [segment] + Parts(rest)
  {
    var path := segment + rest;
    SegmentEndsAt(segment, rest);
    assert ("/" + segment + rest)[1..] == path;
    assert path[..|segment|] == segment && path[|segment|..] == rest;
  }

  /** Splitting and joining: the parts of a joined path are the segments it was joined from. */
  lemma {:induction false} PartsOfJoined(parts: seq<string>)
    requires Plain(parts)
    ensures Parts(Join(parts)) == parts
  {
    if parts != [] {
      assert parts[0] in parts;
      assert forall s :: s in parts[1..] ==> s in parts;
      PartsOfJoined(parts[1..]);
      PartsOfSegment(parts[0], Join(parts[1..]));
    }
  }

  function Join(parts: seq<string>): (r: string)
    ensures r == "" || r[0] == '/'
  {
    if parts == [] then "" else "/" + parts[0] + Join(parts[1..])
  }

  const LOWER := Casing(s => s, s => s)

  /** `/a/collection/b/f.ts`: the folder `/a/collection` has no node, and that of `b` is `/collection/b` under `/a`. */
  lemma BuriedCollection()
    ensures var files := [Join(["a", ROOT, "b", "f.ts"])];
            && IsPrefixOfSome(LOWER, files, "/a/collection") && !HasPath(Generated(LOWER, files), "/a/collection")
            && Generated(LOWER, files) == BURIED
  {
    hide *;
    var files := [Join(["a", ROOT, "b", "f.ts"])];
    BuriedParts();
    BuriedRoot(LOWER, files, files[0], 1);
    BuriedPrefix();
    BuriedWanted();
    OneFile(LOWER, files[0]);
    TwoPaths(BURIED[0], BURIED[1]);
  }

  const BURIED := [Category("_a", "a", "/a", None), Category("_collection_b", "b", "/collection/b", Some("_a"))]

  lemma BuriedParts()
    ensures Parts(Join(["a", ROOT, "b", "f.ts"])) == ["a", ROOT, "b", "f.ts"] && LOWER.lower(ROOT) == ROOT
    ensures FolderCount(["a", ROOT, "b", "f.ts"]) == 3 && KeepsSegments(LOWER)
    ensures |BURIED| == 2 && BURIED == [BURIED[0], BURIED[1]] && BURIED[0].path != BURIED[1].path
  {
    hide Parts, Join;
    PartsOfJoined(["a", ROOT, "b", "f.ts"]);
    assert |BURIED[0].path| == 2 && |BURIED[1].path| == 13;
  }

  lemma OneFile(os: Casing, file: string)
    ensures Generated(os, [file]) == FirstByPath(Wanted(os, Parts(file), FolderCount(Parts(file))))
  {
    hide Wanted, FirstByPath, Parts, WantedByAll;
    WantedByOne(os, file);
  }

  lemma WantedByOne(os: Casing, file: string)
    ensures WantedByAll(os, [file]) == Wanted(os, Parts(file), FolderCount(Parts(file)))
  {
    hide Wanted, Parts;
    assert [file][..0] == [];
    assert WantedByAll(os, []) == [];
  }

  lemma BuriedPrefix()
    ensures Prefix(LOWER, ["a", ROOT, "b", "f.ts"], 2) == "/a/collection"
  {
    assert Prefix(LOWER, ["a", ROOT, "b", "f.ts"], 1) == "" + "/" + "a";
  }

  lemma BuriedWanted()
    ensures Wanted(LOWER, ["a", ROOT, "b", "f.ts"], 3) == BURIED
  {
    hide Id, IsRoot, Advance, NodeFor;
    var parts := ["a", ROOT, "b", "f.ts"];
    assert WalkTo(LOWER, parts, 0) == Walk("", None);
    BuriedSteps();
    assert WalkTo(LOWER, parts, 1) == Walk("/a", Some("_a"));
    assert WalkTo(LOWER, parts, 2) == Walk("/collection", Some("_a"));
    assert Wanted(LOWER, parts, 0) == [];
    assert Wanted(LOWER, parts, 1) == [] + [BURIED[0]];
    assert Wanted(LOWER, parts, 2) == [BURIED[0]] + [];
    assert Wanted(LOWER, parts, 3) == [BURIED[0]] + [BURIED[1]];
  }

  lemma BuriedSteps()
    ensures !IsRoot(LOWER, "a") && IsRoot(LOWER, ROOT) && !IsRoot(LOWER, "b")
    ensures Advance(LOWER, Walk("", None), "a") == Walk("/a", Some("_a"))
    ensures Advance(LOWER, Walk("/a", Some("_a")), ROOT) == Walk("/collection", Some("_a"))
    ensures NodeFor(LOWER, Walk("", None), "a") == BURIED[0]
    ensures NodeFor(LOWER, Walk("/collection", Some("_a")), "b") == BURIED[1]
  {
    hide Id;
    BuriedIds();
    assert |"a"| == 1 && |"b"| == 1 && |ROOT| == 10;
    assert "" + "/" + "a" == "/a" && "/collection" + "/" + "b" == "/collection/b";
    assert "a"[..1] + "a"[1..] == "a" && "b"[..1] + "b"[1..] == "b";
  }

  lemma BuriedIds()
    ensures Id("/a") == "_a" && Id("/collection/b") == "_collection_b"
  {
  }

  lemma TwoPaths(a: Category, b: Category)
    requires a.path != b.path
    ensures FirstByPath([a, b]) == [a, b]
  {
    assert [a, b][..1] == [a] && [a][..0] == [];
    assert FirstByPath([a]) == [a];
  }

  /** Folder `a/b` and folder `a_b` share an id: the whole family of clashes of one level. */
  lemma UnderscoreClash(os: Casing, a: string, b: string, file: string)
    requires a != "" && b != "" && file != "" && '/' !in a && '/' !in b && '/' !in file
    requires os.lower(a) == a && os.lower(b) == b && os.lower(a + "_" + b) == a + "_" + b && a != ROOT && b != ROOT
    ensures !DistinctIds(Generated(os, [Join([a, b, file]), Join([a + "_" + b, file])]))
  {
    hide *;
    var flat := a + "_" + b;
    var files := [Join([a, b, file]), Join([flat, file])];
    var p, q := "" + "/" + a + "/" + b, "" + "/" + flat;
    FlatIsFolder(a, b, file);
    PartsOfJoined([a, b, file]);
    PartsOfJoined([flat, file]);
    TwoFolders(os, a, b, file);
    OneFolder(os, flat, file);
    WantedOfFile(os, files, 0, p);
    WantedOfFile(os, files, 1, q);
    GeneratedPaths(os, files, p);
    GeneratedPaths(os, files, q);
    SlashForUnderscore(a, b);
    SharedId(os, files, p, q, |a| + 1);
  }

  lemma FlatIsFolder(a: string, b: string, file: string)
    requires a != "" && b != "" && file != "" && '/' !in a && '/' !in b && '/' !in file
    ensures a + "_" + b != ROOT && Plain([a, b, file]) && Plain([a + "_" + b, file])
  {
    assert (a + "_" + b)[|a|] == '_' && '_' !in ROOT;
  }

  lemma SlashForUnderscore(a: string, b: string)
    ensures var (p, q) := ("" + "/" + a + "/" + b, "" + "/" + (a + "_" + b));
            && |p| == |q| && |a| + 1 < |p| && p[|a| + 1] == '/' && q[|a| + 1] == '_'
            && p[..|a| + 1] == q[..|a| + 1] && p[|a| + 2..] == q[|a| + 2..]
  {
  }

  lemma WantedOfFile(os: Casing, files: seq<string>, f: nat, path: string)
    requires f < |files| && IsWanted(os, Parts(files[f]), FolderCount(Parts(files[f])), path)
    ensures WantedBySome(os, files, path)
  {
  }

  lemma TwoFolders(os: Casing, a: string, b: string, file: string)
    requires os.lower(a) == a && os.lower(b) == b && a != ROOT && b != ROOT
    ensures FolderCount([a, b, file]) == 2 && IsWanted(os, [a, b, file], 2, "" + "/" + a + "/" + b)
  {
    hide Id;
    var parts := [a, b, file];
    assert WalkTo(os, parts, 0).currentPath == "";
    assert WalkTo(os, parts, 1).currentPath == "" + "/" + a;
    assert SegmentPath(os, WalkTo(os, parts, 1), parts[1]) == "" + "/" + a + "/" + b;
  }

  lemma OneFolder(os: Casing, a: string, file: string)
    requires os.lower(a) == a && a != ROOT
    ensures FolderCount([a, file]) == 1 && IsWanted(os, [a, file], 1, "" + "/" + a)
  {
    hide Id;
    var parts := [a, file];
    assert SegmentPath(os, WalkTo(os, parts, 0), parts[0]) == "" + "/" + a;
  }

  lemma SharedId(os: Casing, files: seq<string>, p: string, q: string, at: nat)
    requires HasPath(Generated(os, files), p) && HasPath(Generated(os, files), q)
    requires |p| == |q| && at < |p| && p[at] == '/' && q[at] == '_' && p[..at] == q[..at] && p[at + 1..] == q[at + 1..]
    ensures !DistinctIds(Generated(os, files))
  {
    hide Generated, Id;
    var nodes := Generated(os, files);
    GeneratedParentsFirst(os, files);
    forall i | 0 <= i < |p| ensures p[i] == q[i] || (p[i] in "/_" && q[i] in "/_") {
      if i < at { assert p[..at][i] == q[..at][i]; }
      if i > at { assert p[at + 1..][i - at - 1] == q[at + 1..][i - at - 1]; }
    }
    IdsClash(p, q);
    var c :| c in nodes && c.path == p;
    var d :| d in nodes && d.path == q;
    var i :| 0 <= i < |nodes| && nodes[i] == c;
    var j :| 0 <= j < |nodes| && nodes[j] == d;
  }

  // ------------------------------------------------------------------
  // The categories as a content store
  // ------------------------------------------------------------------

  function ToNode(tenant: Option<string>, c: Category): C.Node {
    C.Node(c.id, c.name, Some(999.0), c.parentId, tenant, C.Display(Some(c.path), Some("mdi:folder"), "category", []))
  }

  function ToNodes(tenant: Option<string>, categories: seq<Category>): (nodes: seq<C.Node>)
    ensures |nodes| == |categories|
    ensures forall i :: 0 <= i < |nodes| ==> nodes[i] == ToNode(tenant, categories[i])
    ensures forall n <- nodes :: n.order == Some(999.0) && n.tenantId == tenant && n.display.nodeType == "category"
  {
    seq(|categories|, i requires 0 <= i < |categories| => ToNode(tenant, categories[i]))
  }

  lemma StoreHasUniqueIds(tenant: Option<string>, categories: seq<Category>)
    requires DistinctIds(categories)
    ensures C.UniqueIds(ToNodes(tenant, categories))
  {
  }

  lemma EarlierParent(tenant: Option<string>, categories: seq<Category>, k: nat) returns (j: nat)
    requires ParentsFirst(categories) && k < |categories| && categories[k].parentId.Some?
    ensures j < k && categories[j].id == categories[k].parentId.value
    ensures ToNodes(tenant, categories)[j].id == categories[k].parentId.value
  {
    var c :| c in categories[..k] && c.id == categories[k].parentId.value;
    j :| 0 <= j < k && categories[j] == c;
  }

  lemma {:induction false} CategoryRooted(tenant: Option<string>, categories: seq<Category>, k: nat)
    requires DistinctIds(categories) && ParentsFirst(categories) && k < |categories|
    ensures C.Rooted(C.Full, ToNodes(tenant, categories), ToNodes(tenant, categories)[k])
  {
    hide C.Rooted, C.Chain, C.Tip, DistinctIds, ParentsFirst, HasId, ToNodes;
    var nodes := ToNodes(tenant, categories);
    if C.Parent(C.Full, nodes, nodes[k]).None? {
      TopIsRooted(nodes, k);
    } else {
      var j := EarlierParent(tenant, categories, k);
      CategoryRooted(tenant, categories, j);
      ChildIsRooted(nodes, j, k);
    }
  }

  lemma TopIsRooted(nodes: seq<C.Node>, k: nat)
    requires k < |nodes| && C.Parent(C.Full, nodes, nodes[k]).None?
    ensures C.Rooted(C.Full, nodes, nodes[k])
  {
    hide C.Rooted, C.Parent;
    C.RootedBelow(C.Full, nodes, [], nodes[k]);
  }

  lemma ChildIsRooted(nodes: seq<C.Node>, j: nat, k: nat)
    requires j < |nodes| && k < |nodes| && C.Rooted(C.Full, nodes, nodes[j])
    requires C.Parent(C.Full, nodes, nodes[k]) == Some(nodes[j].id)
    ensures C.Rooted(C.Full, nodes, nodes[k])
  {
    hide C.Parent, C.Chain, C.Tip;
    var q :| C.Chain(C.Full, nodes, q) && C.Tip(q) == Some(nodes[j].id);
    C.RootedBelow(C.Full, nodes, q, nodes[k]);
  }

  /** Stored as content nodes, categories with distinct ids make a forest that shows each of them once. */
  lemma CategoriesMakeAForest(os: Casing, files: seq<string>, tenant: Option<string>)
    requires DistinctIds(Generated(os, files))
    ensures var nodes := ToNodes(tenant, Generated(os, files));
            C.Occurrences(C.FullForest(nodes)) == multiset(nodes)
  {
    hide *;
    var categories := Generated(os, files);
    var nodes := ToNodes(tenant, categories);
    GeneratedParentsFirst(os, files);
    StoreHasUniqueIds(tenant, categories);
    forall n | n in nodes ensures C.Rooted(C.Full, nodes, n) {
      var k :| 0 <= k < |nodes| && nodes[k] == n;
      CategoryRooted(tenant, categories, k);
    }
    C.FullTreeConserves(nodes);
  }
}
