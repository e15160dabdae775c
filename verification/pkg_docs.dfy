/** The package scan of the kpt package documentation generator
    (functions/go/generate-kpt-pkg-docs/docs/pkg.go): finding the Kptfiles of
    a package tree, listing the function configuration files of a pipeline,
    and choosing a blueprint's title. */
module PkgDocs {
  import opened Krm

  /** A function of a Kptfile pipeline; `configPath` is "" when the function
      has no configuration file (it may have an inline config map instead). */
  datatype Function = Function(image: string, configPath: string)

  datatype Pipeline = Pipeline(mutators: seq<Function>, validators: seq<Function>)

  /** The parts of a decoded Kptfile the generator reads. */
  datatype KptFile = KptFile(name: string, annotations: map<string, string>, pipeline: Option<Pipeline>)

  /** A value, or the text of the error that prevented it. */
  datatype Fallible<T> = Ok(value: T) | Err(message: string)

  const KptfileKind: string := "Kptfile"
  const BpTitleAnnotation: string := "blueprints.cloud.google.com/title"
  const DecodeFailed: string := "failed to decode Kptfile: "

  // ---------------------------------------------------------------------
  // getFnCfgPaths
  // ---------------------------------------------------------------------

  /** The configuration paths of some functions, in order, skipping the
      functions that have none. */
  function ConfigPaths(fns: seq<Function>): (paths: seq<string>)
    ensures |paths| <= |fns|
  {
    if |fns| == 0 then []
    else
      var last := fns[|fns| - 1];
      ConfigPaths(fns[..|fns| - 1]) + (if last.configPath != "" then [last.configPath] else [])
  }

  /** nil without a pipeline; otherwise the paths of the mutators, then those
      of the validators. */
  function FnCfgPaths(kf: KptFile): Option<seq<string>>
  {
    if kf.pipeline.None? then None
    else Some(ConfigPaths(kf.pipeline.value.mutators) + ConfigPaths(kf.pipeline.value.validators))
  }

  lemma ConfigPathsSnoc(fns: seq<Function>, i: int)
    requires 0 <= i < |fns|
    ensures ConfigPaths(fns[..i + 1])
      == ConfigPaths(fns[..i]) + (if fns[i].configPath != "" then [fns[i].configPath] else [])
  {
    assert fns[..i + 1][..i] == fns[..i];
  }

  /** Appends the configuration path of each function that has one. */
  method AppendConfigPaths(acc: seq<string>, fns: seq<Function>) returns (paths: seq<string>)
    ensures paths == acc + ConfigPaths(fns)
  {
    paths := acc;
    for i := 0 to |fns|
      invariant paths == acc + ConfigPaths(fns[..i])
    {
      ConfigPathsSnoc(fns, i);
      if fns[i].configPath != "" {
        paths := paths + [fns[i].configPath];
      }
    }
    assert fns[..|fns|] == fns;
  }

  /** getFnCfgPaths: the two loops over the mutators and the validators. */
  method GetFnCfgPaths(kf: KptFile) returns (paths: Option<seq<string>>)
    ensures paths == FnCfgPaths(kf)
  {
    if kf.pipeline.None? {
      return None;
    }
    var fnCfgPaths := AppendConfigPaths([], kf.pipeline.value.mutators);
    assert fnCfgPaths == ConfigPaths(kf.pipeline.value.mutators);
    fnCfgPaths := AppendConfigPaths(fnCfgPaths, kf.pipeline.value.validators);
    return Some(fnCfgPaths);
  }

  /** A path is listed iff it is non-empty and some function has it. */
  lemma {:induction false} ConfigPathsMembers(fns: seq<Function>, p: string)
    ensures p in ConfigPaths(fns) <==> p != "" && exists k :: 0 <= k < |fns| && fns[k].configPath == p
  {
    if |fns| > 0 {
      var init := fns[..|fns| - 1];
      ConfigPathsMembers(init, p);
      if exists k :: 0 <= k < |init| && init[k].configPath == p {
        var k :| 0 <= k < |init| && init[k].configPath == p;
        assert fns[k] == init[k];
      }
      if p != "" && exists k :: 0 <= k < |fns| && fns[k].configPath == p {
        var k :| 0 <= k < |fns| && fns[k].configPath == p;
        if k < |init| {
          assert init[k] == fns[k];
        }
      }
    }
  }

  /** Every listed path is non-empty. */
  lemma {:induction false} ConfigPathsNonEmpty(fns: seq<Function>)
    ensures forall k :: 0 <= k < |ConfigPaths(fns)| ==> ConfigPaths(fns)[k] != ""
  {
    if |fns| > 0 {
      ConfigPathsNonEmpty(fns[..|fns| - 1]);
    }
  }

  /** When every function has a configuration path, each is listed in order. */
  lemma {:induction false} ConfigPathsAll(fns: seq<Function>)
    requires forall k :: 0 <= k < |fns| ==> fns[k].configPath != ""
    ensures |ConfigPaths(fns)| == |fns|
    ensures forall k :: 0 <= k < |fns| ==> ConfigPaths(fns)[k] == fns[k].configPath
  {
    if |fns| > 0 {
      ConfigPathsAll(fns[..|fns| - 1]);
    }
  }

  /** The paths of a pipeline: the mutators' paths come first, the list holds
      no empty path, and it is at most as long as the pipeline. */
  lemma FnCfgPathsShape(kf: KptFile)
    ensures FnCfgPaths(kf).None? <==> kf.pipeline.None?
    ensures kf.pipeline.Some? ==>
      var paths := FnCfgPaths(kf).value;
      && paths[..|ConfigPaths(kf.pipeline.value.mutators)|] == ConfigPaths(kf.pipeline.value.mutators)
      && paths[|ConfigPaths(kf.pipeline.value.mutators)|..] == ConfigPaths(kf.pipeline.value.validators)
      && |paths| <= |kf.pipeline.value.mutators| + |kf.pipeline.value.validators|
      && (forall k :: 0 <= k < |paths| ==> paths[k] != "")
  {
    if kf.pipeline.Some? {
      var m, v := kf.pipeline.value.mutators, kf.pipeline.value.validators;
      ConfigPathsNonEmpty(m);
      ConfigPathsNonEmpty(v);
      var paths := ConfigPaths(m) + ConfigPaths(v);
      forall k | 0 <= k < |paths| ensures paths[k] != "" {
        if k >= |ConfigPaths(m)| {
          assert paths[k] == ConfigPaths(v)[k - |ConfigPaths(m)|];
        }
      }
    }
  }

  /** A mutator with only an inline config map is skipped, and a validator's
      path is kept. */
  lemma ConfigMapSkipped(img1: string, img2: string, path: string)
    requires path != ""
    ensures FnCfgPaths(KptFile("", map[], Some(Pipeline([Function(img1, "")], [Function(img2, path)])))) == Some([path])
  {
    var m, v := [Function(img1, "")], [Function(img2, path)];
    assert m[..0] == [] && v[..0] == [];
    assert ConfigPaths(m) == [];
    assert ConfigPaths(v) == [path];
  }

  // ---------------------------------------------------------------------
  // getBlueprintTitle
  // ---------------------------------------------------------------------

  /** The text of the title: the title annotation whenever the key is
      present, even with an empty value, and the package name otherwise. */
  function TitleText(kf: KptFile): string
  {
    if BpTitleAnnotation in kf.annotations then kf.annotations[BpTitleAnnotation] else kf.name
  }

  /** getBlueprintTitle, with the heading renderer as a parameter: the title
      text rendered as a level-1 heading. */
  function GetBlueprintTitle(kf: KptFile, mdHeading: (string, nat) -> string): (title: string)
    ensures title == mdHeading(TitleText(kf), 1)
  {
    if BpTitleAnnotation in kf.annotations then mdHeading(kf.annotations[BpTitleAnnotation], 1)
    else mdHeading(kf.name, 1)
  }

  /** With the annotation, the package name plays no part in the title. */
  lemma TitleIgnoresName(kf: KptFile, name: string, mdHeading: (string, nat) -> string)
    requires BpTitleAnnotation in kf.annotations
    ensures GetBlueprintTitle(kf.(name := name), mdHeading) == GetBlueprintTitle(kf, mdHeading)
  {
  }

  /** An annotation that is present but empty still wins over the name. */
  lemma EmptyTitleKept(kf: KptFile, mdHeading: (string, nat) -> string)
    requires BpTitleAnnotation in kf.annotations && kf.annotations[BpTitleAnnotation] == ""
    ensures GetBlueprintTitle(kf, mdHeading) == mdHeading("", 1)
  {
  }

  /** Without the annotation, the other annotations play no part in it. */
  lemma TitleFallsBackToName(kf: KptFile, annotations: map<string, string>, mdHeading: (string, nat) -> string)
    requires BpTitleAnnotation !in kf.annotations && BpTitleAnnotation !in annotations
    ensures GetBlueprintTitle(kf.(annotations := annotations), mdHeading) == GetBlueprintTitle(kf, mdHeading)
    ensures GetBlueprintTitle(kf, mdHeading) == mdHeading(kf.name, 1)
  {
  }

  // ---------------------------------------------------------------------
  // findPkgs
  // ---------------------------------------------------------------------

  /** The library calls findPkgs makes on a node, none of which is part of
      this model: rendering the node as text, decoding a Kptfile, and
      finding the node's file path. */
  datatype Library = Library(
    render: Node -> Fallible<string>,
    decode: string -> Fallible<KptFile>,
    pathOf: Node -> Fallible<string>)

  /** What one node contributes: nothing when it is not a Kptfile, else the
      first error among rendering, decoding and locating it, or its entry. */
  datatype Entry = Skip | Failed(message: string) | Found(path: string, kf: KptFile)

  function EntryOf(node: Node, lib: Library): Entry
  {
    if Kind(node) != KptfileKind then Skip
    else
      match lib.render(node)
      case Err(e) => Failed(e)
      case Ok(s) =>
        match lib.decode(s)
        case Err(e) => Failed(DecodeFailed + e)
        case Ok(kf) =>
          match lib.pathOf(node)
          case Err(e) => Failed(e)
          case Ok(p) => Found(p, kf)
  }

  /** The map findPkgs builds from a prefix of the nodes, or its first error. */
  function Pkgs(nodes: seq<Node>, lib: Library): Fallible<map<string, KptFile>>
  {
    if |nodes| == 0 then Ok(map[])
    else
      match Pkgs(nodes[..|nodes| - 1], lib)
      case Err(e) => Err(e)
      case Ok(m) =>
        match EntryOf(nodes[|nodes| - 1], lib)
        case Skip => Ok(m)
        case Failed(e) => Err(e)
        case Found(p, kf) => Ok(m[p := kf])
  }

  lemma PkgsSnoc(nodes: seq<Node>, i: int, lib: Library)
    requires 0 <= i < |nodes|
    ensures Pkgs(nodes[..i + 1], lib) ==
      match Pkgs(nodes[..i], lib)
      case Err(e) => Err(e)
      case Ok(m) =>
        match EntryOf(nodes[i], lib)
        case Skip => Ok(m)
        case Failed(e) => Err(e)
        case Found(p, kf) => Ok(m[p := kf])
  {
    assert nodes[..i + 1][..i] == nodes[..i];
    assert nodes[..i + 1][i] == nodes[i];
  }

  /** findPkgs: fill the map node after node, returning at the first error. */
  method FindPkgs(nodes: seq<Node>, lib: Library) returns (kptfiles: Fallible<map<string, KptFile>>)
    ensures kptfiles == Pkgs(nodes, lib)
  {
    var found: map<string, KptFile> := map[];
    for i := 0 to |nodes|
      invariant Pkgs(nodes[..i], lib) == Ok(found)
    {
      var node := nodes[i];
      PkgsSnoc(nodes, i, lib);
      if Kind(node) == KptfileKind {
        var s := lib.render(node);
        if s.Err? {
          assert nodes[..|nodes|][..i + 1] == nodes[..i + 1];
          PkgsErrSticks(nodes, i + 1, lib);
          return Err(s.message);
        }
        var kf := lib.decode(s.value);
        if kf.Err? {
          PkgsErrSticks(nodes, i + 1, lib);
          return Err(DecodeFailed + kf.message);
        }
        var kfPath := lib.pathOf(node);
        if kfPath.Err? {
          PkgsErrSticks(nodes, i + 1, lib);
          return Err(kfPath.message);
        }
        found := found[kfPath.value := kf.value];
      }
    }
    assert nodes[..|nodes|] == nodes;
    return Ok(found);
  }

  /** Once a prefix has failed, the whole scan fails with the same error. */
  lemma {:induction false} PkgsErrSticks(nodes: seq<Node>, i: int, lib: Library)
    requires 0 <= i <= |nodes|
    requires Pkgs(nodes[..i], lib).Err?
    ensures Pkgs(nodes, lib) == Pkgs(nodes[..i], lib)
    decreases |nodes| - i
  {
    if i < |nodes| {
      PkgsSnoc(nodes, i, lib);
      PkgsErrSticks(nodes, i + 1, lib);
    } else {
      assert nodes[..i] == nodes;
    }
  }

  /** The scan fails iff some Kptfile node fails, and then with the error of
      the first one. */
  lemma {:induction false} PkgsFails(nodes: seq<Node>, lib: Library)
    ensures Pkgs(nodes, lib).Err? <==> exists k :: 0 <= k < |nodes| && EntryOf(nodes[k], lib).Failed?
    ensures Pkgs(nodes, lib).Err? ==>
      exists k :: 0 <= k < |nodes| && EntryOf(nodes[k], lib) == Failed(Pkgs(nodes, lib).message)
        && forall j :: 0 <= j < k ==> !EntryOf(nodes[j], lib).Failed?
  {
    if |nodes| > 0 {
      var init := nodes[..|nodes| - 1];
      var n := |nodes| - 1;
      PkgsFails(init, lib);
      if exists k :: 0 <= k < |init| && EntryOf(init[k], lib).Failed? {
        var k :| 0 <= k < |init| && EntryOf(init[k], lib).Failed?;
        assert nodes[k] == init[k];
      }
      if Pkgs(init, lib).Err? {
        var k :| 0 <= k < |init| && EntryOf(init[k], lib) == Failed(Pkgs(init, lib).message)
          && forall j :: 0 <= j < k ==> !EntryOf(init[j], lib).Failed?;
        assert nodes[k] == init[k];
        forall j | 0 <= j < k ensures !EntryOf(nodes[j], lib).Failed? {
          assert nodes[j] == init[j];
        }
      } else {
        forall j | 0 <= j < n ensures !EntryOf(nodes[j], lib).Failed? {
          assert nodes[j] == init[j];
        }
      }
    }
  }

  /** A node that has a path `p`. */
  predicate HasPath(node: Node, lib: Library, p: string)
  {
    EntryOf(node, lib).Found? && EntryOf(node, lib).path == p
  }

  /** On success, a path is in the map iff some Kptfile node has it. */
  lemma {:induction false} PkgsDomain(nodes: seq<Node>, lib: Library, p: string)
    requires Pkgs(nodes, lib).Ok?
    ensures p in Pkgs(nodes, lib).value <==> exists k :: 0 <= k < |nodes| && HasPath(nodes[k], lib, p)
  {
    if |nodes| > 0 {
      var init := nodes[..|nodes| - 1];
      PkgsDomain(init, lib, p);
      if exists k :: 0 <= k < |init| && HasPath(init[k], lib, p) {
        var k :| 0 <= k < |init| && HasPath(init[k], lib, p);
        assert nodes[k] == init[k];
      }
      if exists k :: 0 <= k < |nodes| && HasPath(nodes[k], lib, p) {
        var k :| 0 <= k < |nodes| && HasPath(nodes[k], lib, p);
        if k < |init| {
          assert init[k] == nodes[k];
        }
      }
    }
  }

  /** On success, a path maps to the Kptfile of the last node that has it: a
      later node overwrites an earlier one with the same path. */
  lemma {:induction false} PkgsLastWins(nodes: seq<Node>, lib: Library, k: int)
    requires Pkgs(nodes, lib).Ok?
    requires 0 <= k < |nodes| && EntryOf(nodes[k], lib).Found?
    requires forall j :: k < j < |nodes| ==> !HasPath(nodes[j], lib, EntryOf(nodes[k], lib).path)
    ensures EntryOf(nodes[k], lib).path in Pkgs(nodes, lib).value
    ensures Pkgs(nodes, lib).value[EntryOf(nodes[k], lib).path] == EntryOf(nodes[k], lib).kf
  {
    var n := |nodes| - 1;
    var init := nodes[..n];
    if k < n {
      assert init[k] == nodes[k];
      forall j | k < j < |init| ensures !HasPath(init[j], lib, EntryOf(init[k], lib).path) {
        assert init[j] == nodes[j];
      }
      PkgsLastWins(init, lib, k);
      assert !HasPath(nodes[n], lib, EntryOf(nodes[k], lib).path);
    }
  }

  /** Nodes of any other kind are never read, and add nothing. */
  lemma {:induction false} PkgsNoKptfiles(nodes: seq<Node>, lib: Library)
    requires forall k :: 0 <= k < |nodes| ==> Kind(nodes[k]) != KptfileKind
    ensures Pkgs(nodes, lib) == Ok(map[])
  {
    if |nodes| > 0 {
      PkgsNoKptfiles(nodes[..|nodes| - 1], lib);
    }
  }
}
