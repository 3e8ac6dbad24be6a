/** Category nodes from the paths of collection files. */
module Categories {
  import opened Options

  /** `toLowerCase` and `toUpperCase` */
  datatype Casing = Casing(lower: string -> string, upper: string -> string)

  datatype Category = Category(id: string, name: string, path: string, parentId: Option<string>)

  const ROOT := "collection"
  const ROOT_PATH := "/collection"

  /** Where the segment that starts `path` ends. */
  function SegmentEnd(path: string): (n: nat)
    ensures n <= |path|
  {
    if path == "" || path[0] == '/' then 0 else 1 + SegmentEnd(path[1..])
  }

  /** `path.split("/").filter(Boolean)` */
  function Parts(path: string): seq<string> {
    if path == "" then []
    else if path[0] == '/' then Parts(path[1..])
    else [path[..SegmentEnd(path)]] + Parts(path[SegmentEnd(path)..])
  }

  /** `path.replace(/\//g, "_")` */
  function Id(path: string): (r: string) {
    seq(|path|, i requires 0 <= i < |path| => if path[i] == '/' then '_' else path[i])
  }

  function Capitalised(os: Casing, segment: string): string {
    if segment == "" then "" else os.upper(segment[..1]) + segment[1..]
  }

  predicate HasPath(folders: seq<Category>, path: string) {
    exists c <- folders :: c.path == path
  }

  /** `folders.get(path)!._id` */
  function IdOf(folders: seq<Category>, path: string): string
    requires HasPath(folders, path)
  {
    if folders[0].path == path then folders[0].id else IdOf(folders[1..], path)
  }

  /** The number of segments before the file name. */
  function FolderCount(parts: seq<string>): nat {
    if parts == [] then 0 else |parts| - 1
  }

  // ------------------------------------------------------------------
  // One file's path, segment by segment
  // ------------------------------------------------------------------

  datatype Walk = Walk(currentPath: string, parentId: Option<string>)

  predicate IsRoot(os: Casing, segment: string) {
    os.lower(segment) == ROOT
  }

  function SegmentPath(os: Casing, walk: Walk, segment: string): string {
    walk.currentPath + "/" + os.lower(segment)
  }

  function Advance(os: Casing, walk: Walk, segment: string): Walk {
    if IsRoot(os, segment) then Walk(ROOT_PATH, walk.parentId)
    else Walk(SegmentPath(os, walk, segment), Some(Id(SegmentPath(os, walk, segment))))
  }

  function WalkTo(os: Casing, parts: seq<string>, k: nat): Walk
    requires k <= |parts|
  {
    if k == 0 then Walk("", None) else Advance(os, WalkTo(os, parts, k - 1), parts[k - 1])
  }

  function NodeFor(os: Casing, walk: Walk, segment: string): Category {
    var path := SegmentPath(os, walk, segment);
    Category(Id(path), Capitalised(os, segment), path, walk.parentId)
  }

  /** The nodes the first `k` segments ask for. */
  function Wanted(os: Casing, parts: seq<string>, k: nat): seq<Category>
    requires k <= |parts|
  {
    if k == 0 then []
    else Wanted(os, parts, k - 1) +
         if IsRoot(os, parts[k - 1]) then [] else [NodeFor(os, WalkTo(os, parts, k - 1), parts[k - 1])]
  }

  function WantedByAll(os: Casing, files: seq<string>): seq<Category> {
    if files == [] then []
    else
      var parts := Parts(files[|files| - 1]);
      WantedByAll(os, files[..|files| - 1]) + Wanted(os, parts, FolderCount(parts))
  }

  /** `if (!folders.has(path)) folders.set(path, node)` */
  function SetIfAbsent(folders: seq<Category>, node: Category): seq<Category> {
    if HasPath(folders, node.path) then folders else folders + [node]
  }

  /** Of the nodes that share a path, the first. */
  function FirstByPath(wanted: seq<Category>): seq<Category> {
    if wanted == [] then []
    else SetIfAbsent(FirstByPath(wanted[..|wanted| - 1]), wanted[|wanted| - 1])
  }

  function Generated(os: Casing, files: seq<string>): seq<Category> {
    FirstByPath(WantedByAll(os, files))
  }

  /** `folders` is the insertion-ordered Map, as the sequence of its values. */
  method GenerateCategoryNodes(os: Casing, files: seq<string>) returns (folders: seq<Category>)
    ensures folders == Generated(os, files)
  {
    hide *;
    folders := [];
    NothingWanted(os, files);
    var f := 0;
    while f < |files|
      invariant f <= |files| && folders == FirstByPath(WantedByAll(os, files[..f]))
    {
      WantedStep(os, files, f);
      if files[f] != "" {
        WantedCoherent(os, files[..f]);
        folders := AddFile(os, Parts(files[f]), folders, WantedByAll(os, files[..f]));
      } else {
        EmptyPathWantsNothing(os);
        assert WantedByAll(os, files[..f + 1]) == WantedByAll(os, files[..f]);
      }
      f := f + 1;
    }
    assert files[..f] == files;
    GeneratedIs(os, files);
  }

  method AddFile(os: Casing, parts: seq<string>, start: seq<Category>, ghost before: seq<Category>)
    returns (folders: seq<Category>)
    requires start == FirstByPath(before) && Coherent(before)
    ensures folders == FirstByPath(before + Wanted(os, parts, FolderCount(parts)))
  {
    hide *;
    folders := start;
    var currentPath := "";
    var parentId: Option<string> := None;
    var i := 0;
    var n := FolderCount(parts);
    FolderCountBound(parts);
    WalkStart(os, parts, before);
    while i < n
      invariant i <= n <= |parts|
      invariant Walk(currentPath, parentId) == WalkTo(os, parts, i)
      invariant folders == FirstByPath(before + Wanted(os, parts, i))
    {
      var segment := parts[i];
      WalkStep(os, parts, i, before);
      if os.lower(segment) == ROOT {
        currentPath := ROOT_PATH;
      } else {
        var segmentPath := currentPath + "/" + os.lower(segment);
        if !HasPath(folders, segmentPath) {
          folders := folders + [Category(Id(segmentPath), Capitalised(os, segment), segmentPath, parentId)];
        }
        FoundId(os, parts, i, before, folders);
        parentId := Some(IdOf(folders, segmentPath));
        currentPath := segmentPath;
      }
      i := i + 1;
    }
  }

  // ------------------------------------------------------------------
  // Steps of the loops
  // ------------------------------------------------------------------

  /** Every node's id is the one its path determines. */
  ghost predicate Coherent(nodes: seq<Category>) {
    forall c :: c in nodes ==> c.id == Id(c.path)
  }

  lemma NothingWanted(os: Casing, files: seq<string>)
    ensures FirstByPath(WantedByAll(os, files[..0])) == []
  {
  }

  lemma WantedStep(os: Casing, files: seq<string>, f: nat)
    requires f < |files|
    ensures WantedByAll(os, files[..f + 1]) ==
            WantedByAll(os, files[..f]) + Wanted(os, Parts(files[f]), FolderCount(Parts(files[f])))
  {
    assert files[..f + 1][..f] == files[..f];
  }

  lemma EmptyPathWantsNothing(os: Casing)
    ensures FolderCount(Parts("")) == 0 && Wanted(os, Parts(""), FolderCount(Parts(""))) == []
  {
  }

  lemma GeneratedIs(os: Casing, files: seq<string>)
    ensures Generated(os, files) == FirstByPath(WantedByAll(os, files))
  {
  }

  lemma FolderCountBound(parts: seq<string>)
    ensures FolderCount(parts) <= |parts|
  {
  }

  lemma WalkStart(os: Casing, parts: seq<string>, before: seq<Category>)
    ensures WalkTo(os, parts, 0) == Walk("", None) && before + Wanted(os, parts, 0) == before
  {
  }

  lemma WalkStep(os: Casing, parts: seq<string>, i: nat, before: seq<Category>)
    requires i < |parts|
    ensures os.lower(parts[i]) == ROOT ==>
              WalkTo(os, parts, i + 1) == Walk(ROOT_PATH, WalkTo(os, parts, i).parentId)
              && before + Wanted(os, parts, i + 1) == before + Wanted(os, parts, i)
    ensures os.lower(parts[i]) != ROOT ==>
              var path := WalkTo(os, parts, i).currentPath + "/" + os.lower(parts[i]);
              WalkTo(os, parts, i + 1) == Walk(path, Some(Id(path)))
              && FirstByPath(before + Wanted(os, parts, i + 1)) ==
                 var folders := FirstByPath(before + Wanted(os, parts, i));
                 if HasPath(folders, path) then folders
                 else folders + [Category(Id(path), Capitalised(os, parts[i]), path, WalkTo(os, parts, i).parentId)]
  {
    hide Capitalised, HasPath, Id;
    var wanted := before + Wanted(os, parts, i);
    if os.lower(parts[i]) != ROOT {
      var node := NodeFor(os, WalkTo(os, parts, i), parts[i]);
      assert before + Wanted(os, parts, i + 1) == wanted + [node];
      assert (wanted + [node])[..|wanted|] == wanted;
    }
  }

  lemma CoherentConcat(a: seq<Category>, b: seq<Category>)
    requires Coherent(a) && Coherent(b)
    ensures Coherent(a + b)
  {
  }

  lemma {:induction false} FileCoherent(os: Casing, parts: seq<string>, k: nat)
    requires k <= |parts|
    ensures Coherent(Wanted(os, parts, k))
  {
    if k > 0 { FileCoherent(os, parts, k - 1); }
  }

  lemma {:induction false} WantedCoherent(os: Casing, files: seq<string>)
    ensures Coherent(WantedByAll(os, files))
  {
    hide Coherent, Wanted, Parts;
    if files == [] {
      NothingCoherent();
    } else {
      var parts := Parts(files[|files| - 1]);
      WantedCoherent(os, files[..|files| - 1]);
      FileCoherent(os, parts, FolderCount(parts));
      CoherentConcat(WantedByAll(os, files[..|files| - 1]), Wanted(os, parts, FolderCount(parts)));
    }
  }

  lemma NothingCoherent()
    ensures Coherent([])
  {
  }

  lemma {:induction false} FirstMember(wanted: seq<Category>, c: Category)
    requires c in FirstByPath(wanted)
    ensures c in wanted
  {
    var n := |wanted| - 1;
    assert wanted == wanted[..n] + [wanted[n]];
    if c in FirstByPath(wanted[..n]) { FirstMember(wanted[..n], c); }
  }

  lemma {:induction false} IdFound(folders: seq<Category>, path: string)
    requires Coherent(folders) && HasPath(folders, path)
    ensures IdOf(folders, path) == Id(path)
  {
    hide Id;
    if folders[0].path != path { IdFound(folders[1..], path); }
  }

  lemma {:induction false} SamePaths(wanted: seq<Category>, path: string)
    ensures HasPath(FirstByPath(wanted), path) <==> HasPath(wanted, path)
  {
    if wanted != [] {
      var n := |wanted| - 1;
      assert wanted == wanted[..n] + [wanted[n]];
      SamePaths(wanted[..n], path);
      HasPathSnoc(wanted[..n], wanted[n], path);
      HasPathSnoc(FirstByPath(wanted[..n]), wanted[n], path);
    }
  }

  lemma HasPathSnoc(nodes: seq<Category>, node: Category, path: string)
    ensures HasPath(nodes + [node], path) <==> HasPath(nodes, path) || node.path == path
  {
  }

  lemma HasPathConcat(a: seq<Category>, b: seq<Category>, path: string)
    ensures HasPath(a + b, path) <==> HasPath(a, path) || HasPath(b, path)
  {
  }

  lemma FoundId(os: Casing, parts: seq<string>, i: nat, before: seq<Category>, folders: seq<Category>)
    requires i < |parts| && os.lower(parts[i]) != ROOT && Coherent(before)
    requires folders == FirstByPath(before + Wanted(os, parts, i + 1))
    ensures var path := WalkTo(os, parts, i).currentPath + "/" + os.lower(parts[i]);
            HasPath(folders, path) && IdOf(folders, path) == Id(path)
  {
    hide HasPath, IdOf, FirstByPath, Id;
    var path := WalkTo(os, parts, i).currentPath + "/" + os.lower(parts[i]);
    var wanted := before + Wanted(os, parts, i + 1);
    FileCoherent(os, parts, i + 1);
    CoherentConcat(before, Wanted(os, parts, i + 1));
    HasPathSnoc(Wanted(os, parts, i), NodeFor(os, WalkTo(os, parts, i), parts[i]), path);
    HasPathConcat(before, Wanted(os, parts, i + 1), path);
    SamePaths(wanted, path);
    FirstCoherent(wanted);
    IdFound(folders, path);
  }

  lemma FirstCoherent(wanted: seq<Category>)
    requires Coherent(wanted)
    ensures Coherent(FirstByPath(wanted))
  {
  }
}
