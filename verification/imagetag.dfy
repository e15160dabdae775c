/** The kustomize library code that set-image hands its work to: `types.Image`,
    `types.FieldSpec` with `FsSlice` merging, and the `imagetag` filter that
    walks a document along field specs and rewrites image references. That
    library's source is not part of this model; the filter's behaviour is
    stated as far as the `Image` doc comment and the set-image tests fix it. */
module ImageTag {
  import opened Krm
  import Strings

  /** types.Image: the image to look for and what to replace it with. */
  datatype Image = Image(name: string, newName: string, newTag: string, digest: string)

  // ---------------------------------------------------------------------
  // Image references: name[:tag] or name[@digest]
  // ---------------------------------------------------------------------

  datatype Suffix = NoSuffix | Tag(tag: string) | Digest(digest: string)

  datatype ImageRef = ImageRef(name: string, suffix: Suffix)

  /** Splits a reference: a digest after the last '@'; otherwise a tag after
      the last ':' that follows the last '/' (so `host:5000/app` has no tag). */
  function ParseRef(s: string): ImageRef
  {
    var at := Strings.LastIndex(s, '@');
    if at >= 0 then ImageRef(s[..at], Digest(s[at + 1..]))
    else
      var colon := Strings.LastIndex(s, ':');
      if colon > Strings.LastIndex(s, '/') then ImageRef(s[..colon], Tag(s[colon + 1..]))
      else ImageRef(s, NoSuffix)
  }

  function SuffixText(x: Suffix): string
  {
    match x
    case NoSuffix => ""
    case Tag(t) => ":" + t
    case Digest(d) => "@" + d
  }

  function RenderRef(r: ImageRef): string
  {
    r.name + SuffixText(r.suffix)
  }

  /** The references that parsing can produce. */
  predicate WellFormed(r: ImageRef)
  {
    match r.suffix
    case NoSuffix =>
      Strings.Free(r.name, '@') && Strings.LastIndex(r.name, ':') <= Strings.LastIndex(r.name, '/')
    case Tag(t) =>
      Strings.Free(r.name, '@') && Strings.Free(t, '@') && Strings.Free(t, ':') && Strings.Free(t, '/')
    case Digest(d) => Strings.Free(d, '@')
  }

  /** Rendering a parsed reference gives back the very same text. */
  lemma RenderParse(s: string)
    ensures RenderRef(ParseRef(s)) == s
  {
    var at := Strings.LastIndex(s, '@');
    if at >= 0 {
      var name, rest := s[..at], s[at + 1..];
      assert ParseRef(s) == ImageRef(name, Digest(rest));
      Strings.CutAt(s, at);
      assert [s[at]] == "@";
      assert name + ("@" + rest) == name + "@" + rest;
    } else {
      var colon := Strings.LastIndex(s, ':');
      if colon > Strings.LastIndex(s, '/') {
        var name, rest := s[..colon], s[colon + 1..];
        assert ParseRef(s) == ImageRef(name, Tag(rest));
        Strings.CutAt(s, colon);
        assert [s[colon]] == ":";
        assert name + (":" + rest) == name + ":" + rest;
      } else {
        assert ParseRef(s) == ImageRef(s, NoSuffix);
        assert s + "" == s;
      }
    }
  }

  /** Every parse is well formed. */
  lemma ParseWellFormed(s: string)
    ensures WellFormed(ParseRef(s))
  {
    var at := Strings.LastIndex(s, '@');
    if at < 0 {
      var colon := Strings.LastIndex(s, ':');
      var slash := Strings.LastIndex(s, '/');
      if colon > slash {
        var name := s[..colon];
        assert forall k :: 0 <= k < |name| ==> name[k] == s[k];
        var t := s[colon + 1..];
        assert forall k :: 0 <= k < |t| ==> t[k] == s[colon + 1 + k];
      }
    }
  }

  lemma ParseRenderTag(name: string, t: string)
    requires WellFormed(ImageRef(name, Tag(t)))
    ensures ParseRef(name + (":" + t)) == ImageRef(name, Tag(t))
  {
    var tail := ":" + t;
    var s := name + tail;
    assert '@' !in tail && '/' !in tail by {
      forall k | 0 <= k < |tail| ensures tail[k] != '@' && tail[k] != '/' {
        if k > 0 { assert tail[k] == t[k - 1]; }
      }
    }
    assert Strings.LastIndex(tail, ':') == 0 by {
      forall k | 0 < k < |tail| ensures tail[k] != ':' { assert tail[k] == t[k - 1]; }
      assert tail[0] == ':';
    }
    Strings.LastIndexAbsent(name, tail, '@');
    assert Strings.LastIndex(s, '@') == -1;
    Strings.LastIndexAppend(name, tail, ':');
    Strings.LastIndexAbsent(name, tail, '/');
    assert Strings.LastIndex(s, ':') == |name| > Strings.LastIndex(s, '/');
    assert s[..|name|] == name;
    assert s[|name| + 1..] == t;
  }

  lemma ParseRenderDigest(name: string, d: string)
    requires Strings.Free(d, '@')
    ensures ParseRef(name + ("@" + d)) == ImageRef(name, Digest(d))
  {
    var s := name + ("@" + d);
    Strings.LastIndexAppend(name, "@" + d, '@');
    assert Strings.LastIndex("@" + d, '@') == 0;
    assert s[..|name|] == name;
    assert s[|name| + 1..] == d;
  }

  /** Parsing the rendering of a well-formed reference gives it back. */
  lemma ParseRender(r: ImageRef)
    requires WellFormed(r)
    ensures ParseRef(RenderRef(r)) == r
  {
    match r.suffix {
      case NoSuffix =>
        assert RenderRef(r) == r.name;
      case Tag(t) =>
        ParseRenderTag(r.name, t);
      case Digest(d) =>
        ParseRenderDigest(r.name, d);
    }
  }

  /** A document reference `leaf` is selected by the image name `key`: the
      names agree and, when the key carries a tag or digest, so do those. */
  predicate Matches(leaf: ImageRef, key: ImageRef)
  {
    leaf.name == key.name && (key.suffix == NoSuffix || leaf.suffix == key.suffix)
  }

  /** The replacement reference: NewName replaces the name; a digest replaces
      tag and digest, else NewTag does, else the original suffix stays. */
  function Rewrite(r: ImageRef, img: Image): ImageRef
  {
    ImageRef(
      if img.newName != "" then img.newName else r.name,
      if img.digest != "" then Digest(img.digest)
      else if img.newTag != "" then Tag(img.newTag)
      else r.suffix)
  }

  /** The filter's setter on one scalar: the new text when the reference is
      selected (the mutation fires even when the text does not change), or
      None when it is not. */
  function SetImageValue(s: string, img: Image): Option<string>
  {
    var r := ParseRef(s);
    if Matches(r, ParseRef(img.name)) then Some(RenderRef(Rewrite(r, img))) else None
  }

  /** A bare key (no tag, no digest) selects every reference with that name,
      whatever its tag or digest. */
  lemma BareKeySelectsByName(s: string, img: Image)
    requires ParseRef(img.name).suffix == NoSuffix
    ensures SetImageValue(s, img).Some? <==> ParseRef(s).name == img.name
  {
    RenderParse(img.name);
  }

  /** A key `name:tag` selects exactly the references with that name and
      that tag. */
  lemma TaggedKeySelectsExactTag(s: string, img: Image, name: string, tag: string)
    requires img.name == name + ":" + tag
    requires WellFormed(ImageRef(name, Tag(tag)))
    ensures SetImageValue(s, img).Some? <==> ParseRef(s) == ImageRef(name, Tag(tag))
  {
    assert img.name == name + (":" + tag);
    ParseRenderTag(name, tag);
    var key := ParseRef(img.name);
    assert key == ImageRef(name, Tag(tag));
    var r := ParseRef(s);
    assert SetImageValue(s, img).Some? <==> Matches(r, key);
  }

  /** A digest, when given, wins over NewTag: the rewritten text parses as
      the (new or original) name with that digest and no tag. */
  lemma DigestOverridesTag(s: string, img: Image)
    requires img.digest != "" && Strings.Free(img.digest, '@')
    requires SetImageValue(s, img).Some?
    ensures ParseRef(SetImageValue(s, img).value)
         == ImageRef(if img.newName != "" then img.newName else ParseRef(s).name, Digest(img.digest))
  {
    ParseRender(Rewrite(ParseRef(s), img));
  }

  /** With only NewName, the original tag or digest is kept verbatim: the new
      text is NewName followed by whatever followed the old name. */
  lemma NewNameKeepsSuffix(s: string, img: Image)
    requires img.newName != "" && img.newTag == "" && img.digest == ""
    requires SetImageValue(s, img).Some?
    ensures SetImageValue(s, img).value == img.newName + s[|ParseRef(s).name|..]
  {
    RenderParse(s);
    var r := ParseRef(s);
    assert s == r.name + SuffixText(r.suffix);
    assert s[|r.name|..] == SuffixText(r.suffix);
  }

  /** With only NewTag, the name is kept and the tag (or digest) replaced. */
  lemma NewTagKeepsName(s: string, img: Image)
    requires img.newName == "" && img.newTag != "" && img.digest == ""
    requires SetImageValue(s, img).Some?
    ensures SetImageValue(s, img).value == s[..|ParseRef(s).name|] + ":" + img.newTag
  {
    RenderParse(s);
    var r := ParseRef(s);
    assert s == r.name + SuffixText(r.suffix);
    assert s[..|r.name|] == r.name;
  }

  /** Substituting a reference's own tag fires, leaving the text unchanged. */
  lemma NoOpStillFires(s: string, name: string, tag: string)
    requires ParseRef(s) == ImageRef(name, Tag(tag))
    requires WellFormed(ImageRef(name, NoSuffix))
    ensures SetImageValue(s, Image(name, "", tag, "")) == Some(s)
  {
    RenderParse(s);
    ParseRender(ImageRef(name, NoSuffix));
  }

  // ---------------------------------------------------------------------
  // Field specs and FsSlice merging
  // ---------------------------------------------------------------------

  /** types.FieldSpec: a GVK gate, a '/'-separated path and the create flag. */
  datatype FieldSpec = FieldSpec(gvk: Gvk, path: string, create: bool)

  /** Two field specs are the same selector when GVK and path agree; the
      create flag is not part of the identity. */
  predicate SameSpec(a: FieldSpec, b: FieldSpec)
  {
    a.gvk == b.gvk && a.path == b.path
  }

  predicate Distinct(s: seq<FieldSpec>)
  {
    forall i, j :: 0 <= i < j < |s| ==> !SameSpec(s[i], s[j])
  }

  predicate Covers(s: seq<FieldSpec>, x: FieldSpec)
  {
    exists k :: 0 <= k < |s| && SameSpec(s[k], x)
  }

  /** Position of the selector identical to `x`, or -1. */
  function FindSpec(s: seq<FieldSpec>, x: FieldSpec): (i: int)
    ensures -1 <= i < |s|
    ensures i >= 0 ==> SameSpec(s[i], x)
    ensures i < 0 ==> !Covers(s, x)
  {
    if |s| == 0 then -1
    else if SameSpec(s[|s| - 1], x) then |s| - 1
    else
      var j := FindSpec(s[..|s| - 1], x);
      assert forall k :: 0 <= k < |s| - 1 ==> s[..|s| - 1][k] == s[k];
      j
  }

  /** FsSlice.mergeOne: append `x` unless an identical selector is present;
      an identical one with a different create flag is a conflict (None). */
  function MergeOne(s: seq<FieldSpec>, x: FieldSpec): Option<seq<FieldSpec>>
  {
    var i := FindSpec(s, x);
    if i < 0 then Some(s + [x])
    else if s[i].create != x.create then None
    else Some(s)
  }

  /** FsSlice.MergeAll: merge the incoming selectors one by one, in order. */
  function MergeAll(s: seq<FieldSpec>, incoming: seq<FieldSpec>): Option<seq<FieldSpec>>
    decreases |incoming|
  {
    if |incoming| == 0 then Some(s)
    else
      match MergeOne(s, incoming[0])
      case None => None
      case Some(s') => MergeAll(s', incoming[1..])
  }

  /** Merging keeps the base in front, adds only incoming selectors, covers
      every incoming selector and never creates duplicates. */
  lemma {:induction false} MergeAllSound(s: seq<FieldSpec>, incoming: seq<FieldSpec>)
    requires Distinct(s)
    requires MergeAll(s, incoming).Some?
    ensures var r := MergeAll(s, incoming).value;
      && Distinct(r)
      && |s| <= |r| && r[..|s|] == s
      && (forall k :: |s| <= k < |r| ==> r[k] in incoming)
      && (forall k :: 0 <= k < |incoming| ==> Covers(r, incoming[k]))
    decreases |incoming|
  {
    if |incoming| > 0 {
      var x := incoming[0];
      var s' := MergeOne(s, x).value;
      var i := FindSpec(s, x);
      if i < 0 {
        assert s' == s + [x];
        assert Distinct(s');
      } else {
        assert s' == s;
      }
      assert Covers(s', x) by {
        if i < 0 { assert SameSpec(s'[|s|], x); } else { assert SameSpec(s'[i], x); }
      }
      MergeAllSound(s', incoming[1..]);
      var r := MergeAll(s, incoming).value;
      assert r == MergeAll(s', incoming[1..]).value;
      assert r[..|s'|] == s';
      assert r[..|s|] == s'[..|s|];
      forall k | |s| <= k < |r|
        ensures r[k] in incoming
      {
        if k < |s'| {
          assert r[k] == s'[k] == x;
        } else {
          assert r[k] in incoming[1..];
        }
      }
      forall k | 0 <= k < |incoming|
        ensures Covers(r, incoming[k])
      {
        if k == 0 {
          var m :| 0 <= m < |s'| && SameSpec(s'[m], x);
          assert r[m] == s'[m];
        } else {
          assert incoming[k] == incoming[1..][k - 1];
        }
      }
    }
  }

  /** Merging fails only on a real conflict: two identical selectors with
      different create flags among the base and the incoming ones. */
  lemma {:induction false} MergeAllConflict(s: seq<FieldSpec>, incoming: seq<FieldSpec>)
    requires MergeAll(s, incoming).None?
    ensures exists a, b :: a in s + incoming && b in s + incoming && SameSpec(a, b) && a.create != b.create
    decreases |incoming|
  {
    var x := incoming[0];
    var i := FindSpec(s, x);
    if i >= 0 && s[i].create != x.create {
      assert s[i] in s + incoming && x in s + incoming;
    } else {
      var s' := MergeOne(s, x).value;
      MergeAllConflict(s', incoming[1..]);
      var a, b :| a in s' + incoming[1..] && b in s' + incoming[1..] && SameSpec(a, b) && a.create != b.create;
      assert forall y :: y in s' + incoming[1..] ==> y in s + incoming;
    }
  }

  // ---------------------------------------------------------------------
  // Paths and the tree walk
  // ---------------------------------------------------------------------

  /** A path segment: a field name, or every element of a sequence. */
  datatype Segment = Key(name: string) | Each

  /** One '/'-separated part: `name[]` is the field followed by "each element". */
  function PartSegments(part: string): seq<Segment>
  {
    if |part| >= 2 && part[|part| - 2..] == "[]" then [Key(part[..|part| - 2]), Each] else [Key(part)]
  }

  function PartsSegments(parts: seq<string>): seq<Segment>
  {
    if |parts| == 0 then [] else PartSegments(parts[0]) + PartsSegments(parts[1..])
  }

  /** A field-spec path as segments: `spec/containers[]/image` is
      [Key("spec"), Key("containers"), Each, Key("image")]. */
  function ParsePath(path: string): seq<Segment>
  {
    PartsSegments(Strings.Split(path, '/'))
  }

  const ErrNotMapping: string := "expected a mapping node"
  const ErrNotSequence: string := "expected a sequence node"
  const ErrNotString: string := "expected a string scalar"

  /** The outcome of walking a node: the rewritten node, the new values of
      the mutations that fired (in order), and the error that stopped the
      walk, if any. */
  datatype Walked = Walked(node: Node, fired: seq<string>, error: Option<string>)

  /** Walk `path` from `n`, rewriting each image reference it reaches. A
      missing field ends the walk quietly; a node of the wrong shape stops
      it with an error. */
  function Walk(n: Node, path: seq<Segment>, img: Image): (w: Walked)
    decreases n, 1
  {
    if |path| == 0 then
      match n
      case Str(s) =>
        (match SetImageValue(s, img)
         case Some(out) => Walked(Str(out), [out], None)
         case None => Walked(n, [], None))
      case _ => Walked(n, [], Some(ErrNotString))
    else
      match path[0]
      case Key(k) =>
        if !n.Map? then Walked(n, [], Some(ErrNotMapping))
        else
          var i := Lookup(n.entries, k);
          if i < 0 then Walked(n, [], None)
          else
            assert n.entries[i] in n.entries;
            var w := Walk(n.entries[i].1, path[1..], img);
            Walked(Map(n.entries[i := (k, w.node)]), w.fired, w.error)
      case Each =>
        if !n.List? then Walked(n, [], Some(ErrNotSequence))
        else
          var w := WalkItems(n.items, path[1..], img);
          Walked(List(w.0), w.1, w.2)
  }

  /** Walk the same path from every element, in order, stopping at the first
      error; returns the elements, the fired mutations and the error. */
  function WalkItems(items: seq<Node>, path: seq<Segment>, img: Image)
    : (r: (seq<Node>, seq<string>, Option<string>))
    ensures |r.0| == |items|
    decreases items, 0
  {
    if |items| == 0 then ([], [], None)
    else
      var w := Walk(items[0], path, img);
      if w.error.Some? then ([w.node] + items[1..], w.fired, w.error)
      else
        var rest := WalkItems(items[1..], path, img);
        ([w.node] + rest.0, w.fired + rest.1, rest.2)
  }

  /** Reference definition: the image strings that `path` reaches from `n`,
      in document order, or None when some node on the way has the wrong
      shape. */
  function Reached(n: Node, path: seq<Segment>): Option<seq<string>>
    decreases n, 1
  {
    if |path| == 0 then
      if n.Str? then Some([n.value]) else None
    else
      match path[0]
      case Key(k) =>
        if !n.Map? then None
        else
          var i := Lookup(n.entries, k);
          if i < 0 then Some([])
          else
            assert n.entries[i] in n.entries;
            Reached(n.entries[i].1, path[1..])
      case Each =>
        if !n.List? then None else ReachedItems(n.items, path[1..])
  }

  function ReachedItems(items: seq<Node>, path: seq<Segment>): Option<seq<string>>
    decreases items, 0
  {
    if |items| == 0 then Some([])
    else
      match Reached(items[0], path)
      case None => None
      case Some(v) =>
        match ReachedItems(items[1..], path)
        case None => None
        case Some(vs) => Some(v + vs)
  }

  /** What the setter leaves in place of one string. */
  function Rewritten(v: string, img: Image): string
  {
    match SetImageValue(v, img)
    case Some(out) => out
    case None => v
  }

  /** What the setter leaves in place of each reached string. */
  function RewriteAll(vs: seq<string>, img: Image): (r: seq<string>)
    ensures |r| == |vs|
    ensures forall k :: 0 <= k < |vs| ==> r[k] == Rewritten(vs[k], img)
  {
    if |vs| == 0 then [] else [Rewritten(vs[0], img)] + RewriteAll(vs[1..], img)
  }

  /** The mutation the setter fires on one string, if any. */
  function FiredOn(v: string, img: Image): seq<string>
  {
    match SetImageValue(v, img)
    case Some(out) => [out]
    case None => []
  }

  /** The mutations the setter fires over the reached strings: one per
      selected string, carrying its new text. */
  function FiredOver(vs: seq<string>, img: Image): (r: seq<string>)
    ensures |r| <= |vs|
  {
    if |vs| == 0 then [] else FiredOn(vs[0], img) + FiredOver(vs[1..], img)
  }

  /** Proof helper: rewriting distributes over concatenation. */
  lemma RewriteAllAppend(a: seq<string>, b: seq<string>, img: Image)
    ensures RewriteAll(a + b, img) == RewriteAll(a, img) + RewriteAll(b, img)
  {
  }

  lemma {:induction false} FiredOverAppend(a: seq<string>, b: seq<string>, img: Image)
    ensures FiredOver(a + b, img) == FiredOver(a, img) + FiredOver(b, img)
  {
    if |a| > 0 {
      assert (a + b)[0] == a[0];
      assert (a + b)[1..] == a[1..] + b;
      FiredOverAppend(a[1..], b, img);
      assert FiredOver(a + b, img) == FiredOn(a[0], img) + FiredOver(a[1..] + b, img);
      assert FiredOver(a, img) == FiredOn(a[0], img) + FiredOver(a[1..], img);
    } else {
      assert a + b == b;
    }
  }

  lemma LookupUpdate(es: seq<(string, Node)>, i: int, v: Node, key: string)
    requires 0 <= i < |es|
    ensures Lookup(es[i := (es[i].0, v)], key) == Lookup(es, key)
  {
    var es' := es[i := (es[i].0, v)];
    assert forall k :: 0 <= k < |es| ==> es'[k].0 == es[k].0;
    var a := Lookup(es', key);
    var b := Lookup(es, key);
    if a >= 0 { assert es[a].0 == key; }
    if b >= 0 { assert es'[b].0 == key; }
  }

  /** The walk is exactly the reference definition at work: it succeeds iff
      the path reaches only strings through well-shaped nodes, and then every
      reached string is replaced by the setter's result, the same path now
      reaches the rewritten strings, and one mutation fires per selected
      string. */
  lemma {:induction false} WalkRewritesReached(n: Node, path: seq<Segment>, img: Image)
    ensures Walk(n, path, img).error.None? <==> Reached(n, path).Some?
    ensures Reached(n, path).Some? ==>
      && Reached(Walk(n, path, img).node, path) == Some(RewriteAll(Reached(n, path).value, img))
      && Walk(n, path, img).fired == FiredOver(Reached(n, path).value, img)
    decreases n, 1
  {
    var w := Walk(n, path, img);
    if |path| == 0 {
      if n.Str? {
        assert Reached(n, path) == Some([n.value]);
        assert w.node == Str(Rewritten(n.value, img));
        assert RewriteAll([n.value], img) == [Rewritten(n.value, img)];
      }
    } else {
      match path[0]
      case Key(k) =>
        if n.Map? {
          var i := Lookup(n.entries, k);
          if i >= 0 {
            assert n.entries[i] in n.entries;
            var child := n.entries[i].1;
            WalkRewritesReached(child, path[1..], img);
            var cw := Walk(child, path[1..], img);
            LookupUpdate(n.entries, i, cw.node, k);
            assert w.node == Map(n.entries[i := (k, cw.node)]);
            assert w.node.entries[i].1 == cw.node;
          }
        }
      case Each =>
        if n.List? {
          WalkItemsRewritesReached(n.items, path[1..], img);
        }
    }
  }

  lemma {:induction false} WalkItemsRewritesReached(items: seq<Node>, path: seq<Segment>, img: Image)
    ensures WalkItems(items, path, img).2.None? <==> ReachedItems(items, path).Some?
    ensures ReachedItems(items, path).Some? ==>
      && ReachedItems(WalkItems(items, path, img).0, path) == Some(RewriteAll(ReachedItems(items, path).value, img))
      && WalkItems(items, path, img).1 == FiredOver(ReachedItems(items, path).value, img)
    decreases items, 0
  {
    if |items| > 0 {
      WalkRewritesReached(items[0], path, img);
      WalkItemsRewritesReached(items[1..], path, img);
      var w := Walk(items[0], path, img);
      if w.error.None? {
        var rest := WalkItems(items[1..], path, img);
        var out := [w.node] + rest.0;
        assert out[0] == w.node && out[1..] == rest.0;
        if ReachedItems(items, path).Some? {
          var v := Reached(items[0], path).value;
          var vs := ReachedItems(items[1..], path).value;
          RewriteAllAppend(v, vs, img);
          FiredOverAppend(v, vs, img);
        }
      }
    }
  }

  // ---------------------------------------------------------------------
  // The filter
  // ---------------------------------------------------------------------

  /** imagetag.Filter over one object: apply the field specs in order, each
      only when its GVK gate selects the object, threading the rewritten
      object through and stopping at the first error. */
  function Filter(img: Image, specs: seq<FieldSpec>, obj: Node): (w: Walked)
    decreases |specs|, 1
  {
    if |specs| == 0 then Walked(obj, [], None)
    else Then(img, Apply(img, specs[0], obj), specs[1..])
  }

  /** Continue with `specs` after a first outcome: stop on its error, else
      walk the rewritten node and add up the mutations. */
  function Then(img: Image, first: Walked, specs: seq<FieldSpec>): Walked
    decreases |specs|, 2
  {
    if first.error.Some? then first
    else
      var rest := Filter(img, specs, first.node);
      Walked(rest.node, first.fired + rest.fired, rest.error)
  }

  /** One field spec, gated by its GVK. */
  function Apply(img: Image, spec: FieldSpec, obj: Node): Walked
  {
    if Selects(spec.gvk, GvkOf(obj)) then Walk(obj, ParsePath(spec.path), img) else Walked(obj, [], None)
  }

  /** An object no selector's GVK selects comes out as it went in, with
      nothing fired and no error. */
  lemma {:induction false} FilterUnselected(img: Image, specs: seq<FieldSpec>, obj: Node)
    requires forall k :: 0 <= k < |specs| ==> !Selects(specs[k].gvk, GvkOf(obj))
    ensures Filter(img, specs, obj) == Walked(obj, [], None)
    decreases |specs|
  {
    if |specs| > 0 {
      FilterUnselected(img, specs[1..], obj);
    }
  }

  /** One selector: it does nothing when its GVK does not select the object;
      otherwise it fails iff its path meets a node of the wrong shape, and
      on success rewrites every reached string and fires once per selected
      string. */
  lemma FilterOne(img: Image, spec: FieldSpec, obj: Node)
    ensures !Selects(spec.gvk, GvkOf(obj)) ==> Filter(img, [spec], obj) == Walked(obj, [], None)
    ensures Selects(spec.gvk, GvkOf(obj)) ==>
      var path := ParsePath(spec.path);
      && (Filter(img, [spec], obj).error.None? <==> Reached(obj, path).Some?)
      && (Reached(obj, path).Some? ==>
            && Reached(Filter(img, [spec], obj).node, path) == Some(RewriteAll(Reached(obj, path).value, img))
            && Filter(img, [spec], obj).fired == FiredOver(Reached(obj, path).value, img))
  {
    var f := Apply(img, spec, obj);
    assert [spec][1..] == [];
    assert Filter(img, [], f.node) == Walked(f.node, [], None);
    assert f.fired + [] == f.fired;
    assert Filter(img, [spec], obj) == if f.error.Some? then f else Walked(f.node, f.fired, None);
    if Selects(spec.gvk, GvkOf(obj)) {
      WalkRewritesReached(obj, ParsePath(spec.path), img);
    }
  }

  /** Selectors apply one after another: the second group works on what
      the first left, their mutations add up, and a failure in the first
      stops the rest. */
  lemma {:induction false} FilterAppend(img: Image, a: seq<FieldSpec>, b: seq<FieldSpec>, obj: Node)
    ensures Filter(img, a + b, obj) == Then(img, Filter(img, a, obj), b)
    decreases |a|
  {
    if |a| == 0 {
      assert a + b == b;
      var r := Filter(img, b, obj);
      assert [] + r.fired == r.fired;
    } else {
      assert (a + b)[0] == a[0] && (a + b)[1..] == a[1..] + b;
      var head := Apply(img, a[0], obj);
      if head.error.None? {
        FilterAppend(img, a[1..], b, head.node);
      }
      ThenAssoc(img, head, a[1..], b);
    }
  }

  /** The step of FilterAppend: continuing with `a + b` is continuing with
      `a`, then with `b`. */
  lemma ThenAssoc(img: Image, head: Walked, a: seq<FieldSpec>, b: seq<FieldSpec>)
    requires head.error.None? ==> Filter(img, a + b, head.node) == Then(img, Filter(img, a, head.node), b)
    ensures Then(img, head, a + b) == Then(img, Then(img, head, a), b)
  {
    if head.error.None? {
      var mid := Filter(img, a, head.node);
      if mid.error.None? {
        var last := Filter(img, b, mid.node);
        assert head.fired + (mid.fired + last.fired) == head.fired + mid.fired + last.fired;
      }
    }
  }
}
