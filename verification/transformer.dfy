/** The set-image function (functions/go/set-image/transformer): its default
    selector catalog, the reading of a ConfigMap-style configuration, input
    validation, and the run that rewrites the container images of every
    resource, counts the rewrites and reports a summary. */
module Transformer {
  import opened Krm
  import opened ImageTag
  import opened Custom
  import Strings

  // ---------------------------------------------------------------------
  // The default selectors: containersFsSlice
  // ---------------------------------------------------------------------

  const PodGvk: Gvk := Gvk("", "v1", "Pod")
  const PodContainers: string := "spec/containers[]/image"
  const PodInitContainers: string := "spec/initContainers[]/image"
  const TemplateContainers: string := "spec/template/spec/containers[]/image"
  const TemplateInitContainers: string := "spec/template/spec/initContainers[]/image"

  /** The workload kinds whose pod template holds containers. */
  const TemplateKinds: seq<string> := ["Deployment", "StatefulSet", "ReplicaSet", "DaemonSet"]

  /** The two selectors of a workload kind in apps/v1. */
  function TemplateSpecs(kind: string): seq<FieldSpec>
  {
    [FieldSpec(Gvk("apps", "v1", kind), TemplateContainers, false),
     FieldSpec(Gvk("apps", "v1", kind), TemplateInitContainers, false)]
  }

  /** The Pod selectors followed by the template selectors of each kind. */
  const DefaultCatalog: seq<FieldSpec> :=
    [FieldSpec(PodGvk, PodContainers, false), FieldSpec(PodGvk, PodInitContainers, false)]
    + TemplateSpecs("Deployment") + TemplateSpecs("StatefulSet")
    + TemplateSpecs("ReplicaSet") + TemplateSpecs("DaemonSet")

  /** Merging selectors none of which is already present appends them all. */
  lemma {:induction false} MergeAllFresh(s: seq<FieldSpec>, incoming: seq<FieldSpec>)
    requires Distinct(s + incoming)
    ensures MergeAll(s, incoming) == Some(s + incoming)
    decreases |incoming|
  {
    if |incoming| > 0 {
      var x := incoming[0];
      assert !Covers(s, x) by {
        forall k | 0 <= k < |s| ensures !SameSpec(s[k], x) {
          assert (s + incoming)[k] == s[k] && (s + incoming)[|s|] == x;
        }
      }
      assert MergeOne(s, x) == Some(s + [x]);
      assert s + [x] + incoming[1..] == s + incoming;
      MergeAllFresh(s + [x], incoming[1..]);
    } else {
      assert s + incoming == s;
    }
  }

  /** The GVK of the `j`-th pair of selectors: Pod, then each workload kind. */
  function PairGvk(j: int): Gvk
    requires 0 <= j < 5
  {
    if j == 0 then PodGvk else Gvk("apps", "v1", TemplateKinds[j - 1])
  }

  /** The path of the `k`-th selector: containers first, init containers
      second, under the Pod spec or under the pod template. */
  function PairPath(k: int): string
  {
    if k / 2 == 0 then (if k % 2 == 0 then PodContainers else PodInitContainers)
    else (if k % 2 == 0 then TemplateContainers else TemplateInitContainers)
  }

  /** The catalog, pair by pair: each GVK with its containers path first and
      its init-containers path second. */
  lemma CatalogPairs()
    ensures |DefaultCatalog| == 10
    ensures forall k :: 0 <= k < 10 ==> DefaultCatalog[k].gvk == PairGvk(k / 2) && !DefaultCatalog[k].create
    ensures forall k :: 0 <= k < 10 ==> DefaultCatalog[k].path == PairPath(k)
  {
    var pod := [FieldSpec(PodGvk, PodContainers, false), FieldSpec(PodGvk, PodInitContainers, false)];
    var c := DefaultCatalog;
    assert c == pod + TemplateSpecs(TemplateKinds[0]) + TemplateSpecs(TemplateKinds[1])
      + TemplateSpecs(TemplateKinds[2]) + TemplateSpecs(TemplateKinds[3]);
    forall k | 0 <= k < 10
      ensures c[k].gvk == PairGvk(k / 2) && !c[k].create && c[k].path == PairPath(k)
    {
      if k < 2 {
        assert c[k] == pod[k];
      } else {
        var j := k / 2;
        assert c[k] == TemplateSpecs(TemplateKinds[j - 1])[k % 2];
      }
    }
  }

  /** The catalog has ten selectors, no two alike, none with the create flag. */
  lemma CatalogShape()
    ensures |DefaultCatalog| == 10
    ensures Distinct(DefaultCatalog)
    ensures forall k :: 0 <= k < |DefaultCatalog| ==> !DefaultCatalog[k].create
  {
    var c := DefaultCatalog;
    CatalogPairs();
    assert |PodContainers| != |PodInitContainers|;
    assert |TemplateContainers| != |TemplateInitContainers|;
    forall a, b | 0 <= a < b < 5 ensures PairGvk(a) != PairGvk(b) {
      if a > 0 {
        assert TemplateKinds[a - 1] != TemplateKinds[b - 1];
      }
    }
    forall a, b | 0 <= a < b < |c| ensures !SameSpec(c[a], c[b]) {
      if a / 2 == b / 2 {
        assert a % 2 == 0 && b % 2 == 1;
      }
    }
  }

  /** Which selectors the catalog holds: the two Pod paths in the core group
      v1, and the two template paths of each workload kind in apps/v1. */
  lemma CatalogContents(g: Gvk, path: string)
    ensures (exists k :: 0 <= k < |DefaultCatalog| && DefaultCatalog[k].gvk == g && DefaultCatalog[k].path == path)
      <==> || (g == PodGvk && (path == PodContainers || path == PodInitContainers))
           || (g.group == "apps" && g.version == "v1" && g.kind in TemplateKinds
               && (path == TemplateContainers || path == TemplateInitContainers))
  {
    var c := DefaultCatalog;
    if g == PodGvk && path == PodContainers { assert c[0].gvk == g && c[0].path == path; }
    if g == PodGvk && path == PodInitContainers { assert c[1].gvk == g && c[1].path == path; }
    if g.group == "apps" && g.version == "v1" && g.kind in TemplateKinds {
      var j :| 0 <= j < 4 && TemplateKinds[j] == g.kind;
      if path == TemplateContainers { assert c[2 + 2 * j].gvk == g && c[2 + 2 * j].path == path; }
      if path == TemplateInitContainers { assert c[3 + 2 * j].gvk == g && c[3 + 2 * j].path == path; }
    }
  }

  /** containersFsSlice: start from the Pod selectors and merge in the
      template selectors of each kind (a failed merge would leave nothing);
      the result is the catalog. */
  method ContainersFsSlice() returns (out: seq<FieldSpec>)
    ensures out == DefaultCatalog
  {
    out := [FieldSpec(PodGvk, PodContainers, false), FieldSpec(PodGvk, PodInitContainers, false)];
    CatalogShape();
    for i := 0 to |TemplateKinds|
      invariant out == DefaultCatalog[..2 + 2 * i]
    {
      var incoming := TemplateSpecs(TemplateKinds[i]);
      assert DefaultCatalog[..2 + 2 * i] + incoming == DefaultCatalog[..2 + 2 * (i + 1)];
      assert Distinct(out + incoming) by {
        var prefix := DefaultCatalog[..2 + 2 * (i + 1)];
        forall a, b | 0 <= a < b < |prefix| ensures !SameSpec(prefix[a], prefix[b]) {
          assert prefix[a] == DefaultCatalog[a] && prefix[b] == DefaultCatalog[b];
        }
      }
      MergeAllFresh(out, incoming);
      var merged := MergeAll(out, incoming);
      match merged {
        case Some(r) => out := r;
        case None => out := [];
      }
    }
  }

  // ---------------------------------------------------------------------
  // Configuration and validation
  // ---------------------------------------------------------------------

  /** The keys a ConfigMap's data may use. */
  const ImageKeys: set<string> := {"name", "newName", "newTag", "digest"}

  predicate OnlyImageKeys(data: map<string, string>)
  {
    forall key :: key in data ==> key in ImageKeys
  }

  /** The image with every field whose key the data has replaced by the
      data's value for that key. */
  function Overlay(img: Image, data: map<string, string>): Image
  {
    Image(if "name" in data then data["name"] else img.name,
          if "newName" in data then data["newName"] else img.newName,
          if "newTag" in data then data["newTag"] else img.newTag,
          if "digest" in data then data["digest"] else img.digest)
  }

  /** An image written as ConfigMap data. */
  function ImageData(img: Image): map<string, string>
  {
    map["name" := img.name, "newName" := img.newName, "newTag" := img.newTag, "digest" := img.digest]
  }

  /** Image data uses only image keys, and reading it into any image gives
      back the image it was written from. */
  lemma OverlayImageData(img: Image, base: Image)
    ensures OnlyImageKeys(ImageData(img))
    ensures Overlay(base, ImageData(img)) == img
  {
  }

  /** Keys that are not image keys leave the image as it is. */
  lemma OverlayIgnoresOtherKeys(img: Image, data: map<string, string>, key: string, val: string)
    requires key !in ImageKeys
    ensures Overlay(img, data[key := val]) == Overlay(img, data)
  {
  }

  function WrongFieldName(key: string): string
  {
    "ConfigMap has wrong field name " + key
  }

  const ErrNoName: string := "must specify `name`"
  const ErrNoChange: string := "must specify one of `newName`, `newTag`, or `digest`"

  /** validateInput: a name is required first, then something to change. */
  function ValidateInput(img: Image): (err: Option<string>)
    ensures err == Some(ErrNoName) <==> img.name == ""
    ensures err == Some(ErrNoChange) <==> img.name != "" && img.newName == "" && img.newTag == "" && img.digest == ""
    ensures err.None? <==> img.name != "" && (img.newName != "" || img.newTag != "" || img.digest != "")
  {
    if img.name == "" then Some(ErrNoName)
    else if img.newName == "" && img.newTag == "" && img.digest == "" then Some(ErrNoChange)
    else None
  }

  /** The image with the field named `key` set to `val`. */
  function SetField(img: Image, key: string, val: string): Image
    requires key in ImageKeys
  {
    if key == "name" then img.(name := val)
    else if key == "newName" then img.(newName := val)
    else if key == "newTag" then img.(newTag := val)
    else img.(digest := val)
  }

  /** Data restricted to a set of keys. */
  function Restrict(data: map<string, string>, keys: set<string>): map<string, string>
  {
    map key | key in data && key in keys :: data[key]
  }

  /** Copying one more image key of the data extends the overlay by it. */
  lemma OverlayStep(img: Image, data: map<string, string>, done: set<string>, key: string)
    requires key in data && key in ImageKeys
    ensures Overlay(img, Restrict(data, done + {key})) == SetField(Overlay(img, Restrict(data, done)), key, data[key])
  {
    var m := Restrict(data, done + {key});
    assert key in m && m[key] == data[key];
  }

  /** Copying every key leaves the data as it was. */
  lemma RestrictAll(data: map<string, string>)
    ensures Restrict(data, data.Keys) == data
  {
  }

  const InvalidConfig: string := "invalid FunctionConfig: "

  function Summary(count: nat): string
  {
    "summary: updated a total of " + Strings.NatToString(count) + " image(s)"
  }

  /** The pass of the default catalog with an image. */
  function DefaultPass(img: Image, objs: seq<Node>): Batch
  {
    Pass(img, DefaultCatalog, objs)
  }

  /** Both passes of Run over the items: the default catalog with the
      configured image, then, when additional field specs were given, those
      specs with the image decoded from the function config, over what the
      first pass left. Counts and errors add up. */
  function Passes(img: Image, additional: bool, imageNode: Node, fieldNodes: seq<Node>, objs: seq<Node>): Batch
  {
    var first := DefaultPass(img, objs);
    if additional then Combine(first, DecodedPass(imageNode, fieldNodes, first.items)) else first
  }

  /** A pass followed by a second pass over what the first left. */
  function Combine(first: Batch, second: Batch): Batch
  {
    Batch(second.items, first.fired + second.fired, first.errors + second.errors)
  }

  /** Two passes run one after the other on the same items, counter and
      results add up to their combination; without the second, to the first. */
  lemma PassesSteps(additional: bool, first: Batch, second: Batch, count0: int, entries0: seq<Result>,
                    items1: seq<Node>, count1: int, entries1: seq<Result>,
                    items2: seq<Node>, count2: int, entries2: seq<Result>)
    requires items1 == first.items && count1 == count0 + first.fired && entries1 == entries0 + first.errors
    requires additional ==> items2 == second.items && count2 == count1 + second.fired && entries2 == entries1 + second.errors
    requires !additional ==> items2 == items1 && count2 == count1 && entries2 == entries1
    ensures var b := if additional then Combine(first, second) else first;
      items2 == b.items && count2 == count0 + b.fired && entries2 == entries0 + b.errors
  {
    if additional {
      assert entries0 + first.errors + second.errors == entries0 + (first.errors + second.errors);
    }
  }

  /** The error results a failure adds. */
  function ErrorReport(err: Option<string>, prefix: string): seq<Result>
  {
    if err.Some? then [Result(prefix + err.value, Error, NoSubject)] else []
  }

  /** The verdict of a run: the results hold an error iff some were there
      before, the configuration named an unknown key, validation failed, or
      some object failed in one of the passes; the summary never counts. */
  lemma RunVerdict(prior: seq<Result>, configErr: Option<string>, img: Image,
                   first: seq<Result>, second: seq<Result>, count: nat)
    ensures HasError(prior + ErrorReport(configErr, "") + ErrorReport(ValidateInput(img), InvalidConfig)
                     + first + second + [Result(Summary(count), Info, NoSubject)])
        <==> HasError(prior) || configErr.Some? || ValidateInput(img).Some? || HasError(first) || HasError(second)
  {
    var a := ErrorReport(configErr, "");
    var b := ErrorReport(ValidateInput(img), InvalidConfig);
    var info := [Result(Summary(count), Info, NoSubject)];
    HasErrorAppend(prior, a);
    HasErrorAppend(prior + a, b);
    HasErrorAppend(prior + a + b, first);
    HasErrorAppend(prior + a + b + first, second);
    HasErrorAppend(prior + a + b + first + second, info);
    assert configErr.Some? ==> a[0].severity == Error;
    assert ValidateInput(img).Some? ==> b[0].severity == Error;
    assert !HasError(info);
  }

  // ---------------------------------------------------------------------
  // The function
  // ---------------------------------------------------------------------

  class SetImage {
    var image: Image
    var dataFromDefaultConfig: map<string, string>
    /** None stands for a nil list: the key was not given at all. */
    var additionalImageFields: Option<seq<FieldSpec>>
    /** The count all mutation callbacks of this function add to. */
    const resultCount: Counter

    constructor (image: Image, data: map<string, string>, additional: Option<seq<FieldSpec>>)
      ensures this.image == image && dataFromDefaultConfig == data && additionalImageFields == additional
      ensures fresh(resultCount) && resultCount.value == 0
    {
      this.image := image;
      dataFromDefaultConfig := data;
      additionalImageFields := additional;
      resultCount := new Counter(0);
    }

    /** configDefaultData: copy each data entry into the image field of the
        same name (the four cases of the key switch are SetField), in
        whatever order the map yields them; an unknown key stops with an
        error naming it, leaving the fields copied so far. */
    method ConfigDefaultData() returns (err: Option<string>)
      modifies this
      ensures dataFromDefaultConfig == old(dataFromDefaultConfig)
      ensures additionalImageFields == old(additionalImageFields)
      ensures err.None? <==> OnlyImageKeys(dataFromDefaultConfig)
      ensures err.None? ==> image == Overlay(old(image), dataFromDefaultConfig)
      ensures err.Some? ==> exists key :: key in dataFromDefaultConfig && key !in ImageKeys && err.value == WrongFieldName(key)
    {
      var data := dataFromDefaultConfig;
      var img := image;
      var keys := data.Keys;
      ghost var done: set<string> := {};
      while keys != {}
        invariant keys + done == data.Keys && keys !! done
        invariant forall key :: key in done ==> key in ImageKeys
        invariant img == Overlay(old(image), Restrict(data, done))
        invariant unchanged(this)
        decreases |keys|
      {
        var key :| key in keys;
        if key !in ImageKeys {
          image := img;
          return Some(WrongFieldName(key));
        }
        OverlayStep(old(image), data, done, key);
        img := SetField(img, key, data[key]);
        keys := keys - {key};
        done := done + {key};
      }
      assert done == data.Keys;
      RestrictAll(data);
      image := img;
      return None;
    }

    /** updateContainerImages: filter one object with the image and the
        default catalog, counting every mutation; on failure the object is
        left as it was and the error returned. */
    method UpdateContainerImages(items: array<Node>, i: nat) returns (err: Option<string>)
      requires i < items.Length
      modifies items, resultCount
      ensures var w := Filter(image, DefaultCatalog, old(items[i]));
        && err == w.error
        && items[..] == old(items[..])[i := Kept(w, old(items[i]))]
        && resultCount.value == old(resultCount.value) + |w.fired|
    {
      var obj := items[i];
      var w := Filter(image, DefaultCatalog, obj);
      TrackMutations(w.fired, resultCount);
      if w.error.Some? {
        return w.error;
      }
      items[i] := w.node;
      return None;
    }

    /** The item loop of Run: every item is updated in order, and a failure
        is recorded against its item without stopping the loop. */
    method UpdateItems(items: array<Node>, res: Results)
      modifies items, res, resultCount
      ensures items[..] == DefaultPass(image, old(items[..])).items
      ensures resultCount.value == old(resultCount.value) + DefaultPass(image, old(items[..])).fired
      ensures res.entries == old(res.entries) + DefaultPass(image, old(items[..])).errors
    {
      ghost var objs := items[..];
      ghost var res0 := res.entries;
      ghost var count0 := resultCount.value;
      ghost var ws := Outcomes(image, DefaultCatalog, objs);
      ghost var b := Batch([], 0, []);
      for i := 0 to items.Length
        invariant b == Collect(objs[..i], ws[..i])
        invariant items[..] == b.items + objs[i..]
        invariant resultCount.value == count0 + b.fired
        invariant res.entries == res0 + b.errors
      {
        ghost var before := items[..];
        ghost var w := Filter(image, DefaultCatalog, before[i]);
        var err := UpdateContainerImages(items, i);
        if err.Some? {
          res.Errorf(err.value, Item(i));
        }
        assert res.entries == res0 + b.errors + Reported(w, i);
        LoopStep(image, DefaultCatalog, objs, i, before, w);
        AppendResults(res0, b.errors, Reported(w, i));
        b := Collect(objs[..i + 1], ws[..i + 1]);
      }
      assert objs == objs[..items.Length] && ws == ws[..items.Length];
      assert b == DefaultPass(image, objs);
    }

    /** The first two steps of Run: read the configuration, then validate
        the image, recording a failure of either without stopping. */
    method Configure(res: Results) returns (ghost configErr: Option<string>)
      modifies this, res
      ensures dataFromDefaultConfig == old(dataFromDefaultConfig)
      ensures additionalImageFields == old(additionalImageFields)
      ensures configErr.None? <==> OnlyImageKeys(dataFromDefaultConfig)
      ensures configErr.None? ==> image == Overlay(old(image), dataFromDefaultConfig)
      ensures configErr.Some? ==> exists key :: key in dataFromDefaultConfig && key !in ImageKeys && configErr.value == WrongFieldName(key)
      ensures res.entries == old(res.entries) + ErrorReport(configErr, "") + ErrorReport(ValidateInput(image), InvalidConfig)
    {
      var err := ConfigDefaultData();
      if err.Some? {
        res.Errorf(err.value, NoSubject);
        assert "" + err.value == err.value;
      }
      configErr := err;
      assert res.entries == old(res.entries) + ErrorReport(err, "");
      var invalid := ValidateInput(image);
      if invalid.Some? {
        res.Errorf(InvalidConfig + invalid.value, NoSubject);
      }
    }

    /** The item loop of Run followed, when additional field specs were
        given, by the additional pass over the same items and counter. */
    method ApplyPasses(imageNode: Node, fieldNodes: seq<Node>, items: array<Node>, res: Results)
      modifies items, res, resultCount
      ensures items[..] == Passes(image, additionalImageFields.Some?, imageNode, fieldNodes, old(items[..])).items
      ensures resultCount.value == old(resultCount.value) + Passes(image, additionalImageFields.Some?, imageNode, fieldNodes, old(items[..])).fired
      ensures res.entries == old(res.entries) + Passes(image, additionalImageFields.Some?, imageNode, fieldNodes, old(items[..])).errors
    {
      ghost var objs, count0, entries0 := items[..], resultCount.value, res.entries;
      UpdateItems(items, res);
      ghost var items1, count1, entries1 := items[..], resultCount.value, res.entries;
      if additionalImageFields.Some? {
        SetAdditionalFieldSpec(imageNode, items, fieldNodes, res, resultCount);
      }
      ghost var first := DefaultPass(image, objs);
      PassesSteps(additionalImageFields.Some?, first, DecodedPass(imageNode, fieldNodes, first.items),
                  count0, entries0, items1, count1, entries1, items[..], resultCount.value, res.entries);
    }

    /** Run: read the configuration and validate it, recording a failure of
        either without stopping; update every item; run the additional
        selectors over the result when they were given; always append the
        summary with the final count; succeed iff no error was recorded. */
    method Run(fnConfig: Node, items: array<Node>, res: Results) returns (ok: bool, ghost configErr: Option<string>)
      modifies this, items, res, resultCount
      ensures dataFromDefaultConfig == old(dataFromDefaultConfig)
      ensures additionalImageFields == old(additionalImageFields)
      ensures configErr.None? <==> OnlyImageKeys(dataFromDefaultConfig)
      ensures configErr.None? ==> image == Overlay(old(image), dataFromDefaultConfig)
      ensures configErr.Some? ==> exists key :: key in dataFromDefaultConfig && key !in ImageKeys && configErr.value == WrongFieldName(key)
      ensures var b := Passes(image, additionalImageFields.Some?, GetMap(fnConfig, "image"),
                              GetSlice(fnConfig, "additionalImageFields"), old(items[..]));
        && items[..] == b.items
        && resultCount.value == old(resultCount.value) + b.fired
        && res.entries == old(res.entries) + ErrorReport(configErr, "") + ErrorReport(ValidateInput(image), InvalidConfig)
             + b.errors + [Result(Summary(resultCount.value), Info, NoSubject)]
      ensures ok <==> !HasError(res.entries)
    {
      configErr := Configure(res);
      ApplyPasses(GetMap(fnConfig, "image"), GetSlice(fnConfig, "additionalImageFields"), items, res);
      res.Infof(Summary(resultCount.value));
      ok := ExitCode(res.entries) != 1;
    }
  }
}
