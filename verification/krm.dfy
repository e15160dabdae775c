/** The parts of the KRM function SDK (`fn`) and of kyaml that the modelled
    functions rely on: documents as trees, field lookups on them, the
    identity of a resource, and the result list a function reports. */
module Krm {
  import Strings

  datatype Option<T> = None | Some(value: T)

  /** A YAML node. Mapping entries keep their document order. */
  datatype Node =
    | Map(entries: seq<(string, Node)>)
    | List(items: seq<Node>)
    | Str(value: string)
    | Bool(flag: bool)

  /** Position of the first entry named `key`, or -1. */
  function Lookup(entries: seq<(string, Node)>, key: string): (i: int)
    ensures -1 <= i < |entries|
    ensures i >= 0 ==> entries[i].0 == key
    ensures forall k :: 0 <= k < |entries| && (i < 0 || k < i) ==> entries[k].0 != key
  {
    if |entries| == 0 then -1
    else if entries[0].0 == key then 0
    else
      var j := Lookup(entries[1..], key);
      if j < 0 then -1 else j + 1
  }

  /** The value of field `key` of a mapping node. */
  function Field(n: Node, key: string): (r: Option<Node>)
    ensures r.Some? <==> n.Map? && exists k :: 0 <= k < |n.entries| && n.entries[k].0 == key
  {
    if n.Map? then
      var i := Lookup(n.entries, key);
      if i < 0 then None else Some(n.entries[i].1)
    else None
  }

  /** SubObject.GetString: the string at `key`, or "" when it is absent or
      not a string. */
  function GetString(n: Node, key: string): string
  {
    match Field(n, key)
    case Some(Str(s)) => s
    case _ => ""
  }

  /** SubObject.NestedString(outer, key). */
  function NestedString(n: Node, outer: string, key: string): string
  {
    match Field(n, outer)
    case Some(m) => GetString(m, key)
    case None => ""
  }

  /** SubObject.NestedBool(key): the value and whether a boolean was found. */
  function NestedBool(n: Node, key: string): Option<bool>
  {
    match Field(n, key)
    case Some(Bool(b)) => Some(b)
    case _ => None
  }

  /** SubObject.GetMap: the mapping at `key`, an empty mapping when absent. */
  function GetMap(n: Node, key: string): (r: Node)
    ensures r.Map?
  {
    match Field(n, key)
    case Some(Map(es)) => Map(es)
    case _ => Map([])
  }

  /** SubObject.GetSlice: the elements of the sequence at `key`, none when
      absent. */
  function GetSlice(n: Node, key: string): seq<Node>
  {
    match Field(n, key)
    case Some(List(items)) => items
    case _ => []
  }

  /** Group, version and kind of a resource. */
  datatype Gvk = Gvk(group: string, version: string, kind: string)

  /** The GVK of an object: `apiVersion` splits at its first '/' into group
      and version; without a '/' the group is the empty core group. */
  function GvkOf(obj: Node): (g: Gvk)
    ensures g.kind == GetString(obj, "kind")
    ensures '/' !in GetString(obj, "apiVersion") ==> g == Gvk("", GetString(obj, "apiVersion"), g.kind)
  {
    var av := GetString(obj, "apiVersion");
    var i := Strings.IndexOf(av, '/');
    if i < 0 then Gvk("", av, GetString(obj, "kind"))
    else Gvk(av[..i], av[i + 1..], GetString(obj, "kind"))
  }

  /** Whether a selector GVK selects `g`; an empty selector component
      selects any value. */
  predicate Selects(selector: Gvk, g: Gvk)
  {
    && (selector.group == "" || selector.group == g.group)
    && (selector.version == "" || selector.version == g.version)
    && (selector.kind == "" || selector.kind == g.kind)
  }

  /** Metadata accessors of an object. */
  function ApiVersion(obj: Node): string { GetString(obj, "apiVersion") }
  function Kind(obj: Node): string { GetString(obj, "kind") }
  function Name(obj: Node): string { NestedString(obj, "metadata", "name") }
  function Namespace(obj: Node): string { NestedString(obj, "metadata", "namespace") }
  function Annotations(obj: Node): Node { GetMap(GetMap(obj, "metadata"), "annotations") }

  const PathAnnotationKey: string := "internal.config.kubernetes.io/path"
  const IndexAnnotationKey: string := "internal.config.kubernetes.io/index"

  function PathAnnotation(obj: Node): string { GetString(Annotations(obj), PathAnnotationKey) }
  function IndexAnnotation(obj: Node): string { GetString(Annotations(obj), IndexAnnotationKey) }

  datatype Severity = Error | Warning | Info

  datatype ResourceRef = ResourceRef(apiVersion: string, kind: string, name: string, namespace: string)
  datatype FileRef = FileRef(path: string, index: string)

  /** What a result is about: nothing, the batch item at an index, or a
      located field of a resource. */
  datatype Subject =
    | NoSubject
    | Item(index: nat)
    | Located(resource: ResourceRef, fieldPath: string, file: FileRef)

  datatype Result = Result(message: string, severity: Severity, subject: Subject)

  predicate HasError(rs: seq<Result>)
  {
    exists k :: 0 <= k < |rs| && rs[k].severity == Error
  }

  /** An error is among two lists joined iff it is among one of them. */
  lemma HasErrorAppend(a: seq<Result>, b: seq<Result>)
    ensures HasError(a + b) <==> HasError(a) || HasError(b)
  {
    if HasError(a) {
      var k :| 0 <= k < |a| && a[k].severity == Error;
      assert (a + b)[k] == a[k];
    }
    if HasError(b) {
      var k :| 0 <= k < |b| && b[k].severity == Error;
      assert (a + b)[|a| + k] == b[k];
    }
    if HasError(a + b) {
      var k :| 0 <= k < |a + b| && (a + b)[k].severity == Error;
      if k < |a| { assert a[k] == (a + b)[k]; } else { assert b[k - |a|] == (a + b)[k]; }
    }
  }

  /** Results.ExitCode: 1 as soon as one result is an error, 0 otherwise. */
  function ExitCode(rs: seq<Result>): (code: int)
    ensures code == 0 || code == 1
    ensures code == 1 <==> HasError(rs)
  {
    if |rs| == 0 then 0
    else if rs[0].severity == Error then 1
    else
      var c := ExitCode(rs[1..]);
      assert forall k :: 1 <= k < |rs| ==> rs[k] == rs[1..][k - 1];
      assert HasError(rs[1..]) ==> HasError(rs);
      c
  }

  /** The `*fn.Results` a function appends to. */
  class Results {
    var entries: seq<Result>

    constructor ()
      ensures entries == []
    {
      entries := [];
    }

    /** Results.Errorf: append one error-severity result. */
    method Errorf(message: string, subject: Subject)
      modifies this
      ensures entries == old(entries) + [Result(message, Error, subject)]
    {
      entries := entries + [Result(message, Error, subject)];
    }

    /** Results.Infof: append one info-severity result. */
    method Infof(message: string)
      modifies this
      ensures entries == old(entries) + [Result(message, Info, NoSubject)]
    {
      entries := entries + [Result(message, Info, NoSubject)];
    }
  }
}
