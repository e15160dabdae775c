/** The kubeconform function (functions/go/kubeconform): reading its
    configuration, building the validator's command line, turning the
    validator's report into results, and aggregating a batch into a verdict.
    Running the validator itself is external: its output for an object is a
    value supplied by a `validator` parameter. */
module Kubeconform {
  import opened Krm
  import Strings

  const SchemaLocationStr: string := "-schema-location"
  const SchemaLocationKey: string := "schema_location"
  const AdditionalSchemaLocationsKey: string := "additional_schema_locations"
  const IgnoreMissingSchemasKey: string := "ignore_missing_schemas"
  const SkipKindsKey: string := "skip_kinds"
  const StrictKey: string := "strict"
  const DefaultSchemaLocation: string := "/jsonschema"
  const DefaultSchemaUrl: string := "file://" + DefaultSchemaLocation

  const IgnoreMissingFlag: string := "-ignore-missing-schemas"
  const SkipFlag: string := "-skip"
  const StrictFlag: string := "-strict"

  datatype KubeconformConfig = KubeconformConfig(
    schemaLocation: string,
    additionalSchemaLocations: seq<string>,
    ignoreMissingSchemas: bool,
    skipKinds: seq<string>,
    strict: bool)

  // ---------------------------------------------------------------------
  // extractConfig and its three parsers
  // ---------------------------------------------------------------------

  /** getString: the top-level string at `key`, and only when that is empty
      the string at `data.<key>`. */
  function ConfigString(fc: Node, key: string): (v: string)
    ensures GetString(fc, key) != "" ==> v == GetString(fc, key)
    ensures GetString(fc, key) == "" ==> v == NestedString(fc, "data", key)
  {
    var val := GetString(fc, key);
    if val == "" then NestedString(fc, "data", key) else val
  }

  /** getStringList: no list for an empty string, otherwise the comma split;
      the parts never hold a comma and join back to the string. */
  function ConfigStringList(fc: Node, key: string): (parts: seq<string>)
    ensures parts == [] <==> ConfigString(fc, key) == ""
    ensures parts != [] ==> Strings.Join(parts, ",") == ConfigString(fc, key)
    ensures forall k :: 0 <= k < |parts| ==> Strings.Free(parts[k], ',')
  {
    var val := ConfigString(fc, key);
    if val == "" then []
    else
      var parts := Strings.Split(val, ',');
      Strings.JoinSplit(val, ',');
      Strings.SplitEmpty(val, ',');
      if |parts| == 1 && parts[0] == "" then [] else parts
  }

  /** getBool: a boolean stored at the top-level key wins; otherwise the
      string is true iff it is "true" in any letter case or "1". */
  function ConfigBool(fc: Node, key: string): (b: bool)
    ensures NestedBool(fc, key).Some? ==> b == NestedBool(fc, key).value
    ensures NestedBool(fc, key).None? ==>
      (b <==> Strings.EqualFold(ConfigString(fc, key), "true") || ConfigString(fc, key) == "1")
  {
    match NestedBool(fc, key)
    case Some(val) => val
    case None =>
      var strVal := ConfigString(fc, key);
      Strings.EqualFold(strVal, "true") || strVal == "1"
  }

  /** extractConfig: each field read with the parser of its type. */
  function ExtractConfig(fc: Node): KubeconformConfig
  {
    KubeconformConfig(
      ConfigString(fc, SchemaLocationKey),
      ConfigStringList(fc, AdditionalSchemaLocationsKey),
      ConfigBool(fc, IgnoreMissingSchemasKey),
      ConfigStringList(fc, SkipKindsKey),
      ConfigBool(fc, StrictKey))
  }

  /** The comma lists read back: joining the additional locations or the
      skipped kinds gives the configured string, and nothing is read from an
      empty string. */
  lemma ExtractConfigLists(fc: Node)
    ensures var cfg := ExtractConfig(fc);
      && (cfg.additionalSchemaLocations == [] <==> ConfigString(fc, AdditionalSchemaLocationsKey) == "")
      && (cfg.skipKinds == [] <==> ConfigString(fc, SkipKindsKey) == "")
      && (cfg.skipKinds != [] ==> Strings.Join(cfg.skipKinds, ",") == ConfigString(fc, SkipKindsKey))
      && (cfg.additionalSchemaLocations != [] ==>
            Strings.Join(cfg.additionalSchemaLocations, ",") == ConfigString(fc, AdditionalSchemaLocationsKey))
  {
  }

  /** A configuration that has a key only under `data`. */
  function DataConfig(key: string, val: string): Node
  {
    Map([("data", Map([(key, Str(val))]))])
  }

  /** A value found only under `data` is read from there. */
  lemma DataFallback(key: string, val: string)
    ensures ConfigString(DataConfig(key, val), key) == val
  {
    var fc := DataConfig(key, val);
    assert Field(fc, "data") == Some(fc.entries[0].1);
    if key == "data" {
      assert Field(fc, key) == Some(fc.entries[0].1);
    }
  }

  /** A comma-separated value under `data` is read as its two parts. */
  lemma DataList(key: string, a: string, b: string)
    requires Strings.Free(a, ',') && Strings.Free(b, ',')
    ensures ConfigStringList(DataConfig(key, a + [','] + b), key) == [a, b]
  {
    DataFallback(key, a + [','] + b);
    Strings.SplitTwo(a, b, ',');
  }

  /** A "true" under `data`, in any letter case, reads as set. */
  lemma DataBool(key: string)
    ensures ConfigBool(DataConfig(key, "TRUE"), key)
    ensures ConfigBool(DataConfig(key, "1"), key)
    ensures !ConfigBool(DataConfig(key, "yes"), key)
  {
    DataFallback(key, "TRUE");
    DataFallback(key, "1");
    DataFallback(key, "yes");
    var fc := DataConfig(key, "TRUE");
    assert NestedBool(fc, key) == None by {
      if key == "data" { assert Field(fc, key) == Some(fc.entries[0].1); }
    }
    assert NestedBool(DataConfig(key, "1"), key) == None by {
      if key == "data" { assert Field(DataConfig(key, "1"), key) == Some(DataConfig(key, "1").entries[0].1); }
    }
    assert NestedBool(DataConfig(key, "yes"), key) == None by {
      if key == "data" { assert Field(DataConfig(key, "yes"), key) == Some(DataConfig(key, "yes").entries[0].1); }
    }
    assert Strings.EqualFold("TRUE", "true");
  }

  /** Native booleans at the top level, and an empty list string. */
  const BoolConfig: Node := Map([
    ("ignore_missing_schemas", Bool(true)),
    ("strict", Bool(false)),
    ("additional_schema_locations", Str(""))])

  lemma ExtractBoolConfig()
    ensures ExtractConfig(BoolConfig) == KubeconformConfig("", [], true, [], false)
  {
    var fc := BoolConfig;
    assert Field(fc, "data") == None;
    assert NestedBool(fc, IgnoreMissingSchemasKey) == Some(true);
    assert NestedBool(fc, StrictKey) == Some(false);
    assert GetString(fc, AdditionalSchemaLocationsKey) == "";
  }

  // ---------------------------------------------------------------------
  // buildKubeconformArgs
  // ---------------------------------------------------------------------

  /** The schema locations in the order they are passed: the primary one if
      set, then the additional ones; the default directory when neither is. */
  function Locations(schemaLocation: string, additional: seq<string>): seq<string>
  {
    if schemaLocation == "" && |additional| == 0 then [DefaultSchemaUrl]
    else (if schemaLocation != "" then [schemaLocation] else []) + additional
  }

  /** One `-schema-location X` pair per location, in order. */
  function SchemaArgs(locations: seq<string>): (r: seq<string>)
    ensures |r| == 2 * |locations|
  {
    if |locations| == 0 then [] else [SchemaLocationStr, locations[0]] + SchemaArgs(locations[1..])
  }

  lemma {:induction false} SchemaArgsAt(locations: seq<string>, k: int)
    requires 0 <= k < |locations|
    ensures SchemaArgs(locations)[2 * k] == SchemaLocationStr
    ensures SchemaArgs(locations)[2 * k + 1] == locations[k]
    decreases k
  {
    if k > 0 {
      SchemaArgsAt(locations[1..], k - 1);
    }
  }

  lemma {:induction false} SchemaArgsSnoc(locations: seq<string>, x: string)
    ensures SchemaArgs(locations + [x]) == SchemaArgs(locations) + [SchemaLocationStr, x]
    decreases |locations|
  {
    if |locations| == 0 {
      assert locations + [x] == [x];
    } else {
      assert (locations + [x])[1..] == locations[1..] + [x];
      SchemaArgsSnoc(locations[1..], x);
    }
  }

  /** The flags after the schema locations, in their fixed order. */
  function Flags(ignoreMissing: bool, skipKinds: seq<string>, strict: bool): seq<string>
  {
    Flag(ignoreMissing, IgnoreMissingFlag) + FlagValue(SkipValue(skipKinds), SkipFlag) + Flag(strict, StrictFlag)
  }

  /** A flag, when it is set. */
  function Flag(on: bool, flag: string): seq<string>
  {
    if on then [flag] else []
  }

  /** A flag followed by its value, when there is a value. */
  function FlagValue(v: Option<string>, flag: string): seq<string>
  {
    if v.Some? then [flag, v.value] else []
  }

  /** The value of `-skip`: the kinds joined by commas, if there are any. */
  function SkipValue(skipKinds: seq<string>): Option<string>
  {
    if |skipKinds| > 0 then Some(Strings.Join(skipKinds, ",")) else None
  }

  function KubeconformArgs(schemaLocation: string, additional: seq<string>, ignoreMissing: bool,
                           skipKinds: seq<string>, strict: bool): seq<string>
  {
    ["-output", "json"] + SchemaArgs(Locations(schemaLocation, additional)) + Flags(ignoreMissing, skipKinds, strict)
  }

  /** Proof helper: regrouping a concatenation of four sequences. */
  lemma Associate(a: seq<string>, b: seq<string>, c: seq<string>, d: seq<string>)
    ensures a + b + c + d == a + (b + c + d)
  {
  }

  /** buildKubeconformArgs: JSON output, the schema location pairs, then the
      flags that are set. */
  method BuildKubeconformArgs(schemaLocation: string, additional: seq<string>, ignoreMissing: bool,
                              skipKinds: seq<string>, strict: bool) returns (args: seq<string>)
    ensures args == KubeconformArgs(schemaLocation, additional, ignoreMissing, skipKinds, strict)
  {
    args := ["-output", "json"];
    var primary: seq<string> := [];
    if schemaLocation != "" {
      args := args + [SchemaLocationStr, schemaLocation];
      primary := [schemaLocation];
      assert SchemaArgs(primary) == [SchemaLocationStr, schemaLocation];
    }
    if |additional| > 0 {
      for i := 0 to |additional|
        invariant args == ["-output", "json"] + SchemaArgs(primary + additional[..i])
      {
        SchemaArgsSnoc(primary + additional[..i], additional[i]);
        assert primary + additional[..i + 1] == primary + additional[..i] + [additional[i]];
        args := args + [SchemaLocationStr, additional[i]];
      }
      assert additional[..|additional|] == additional;
    } else {
      assert primary + additional == primary;
    }
    if schemaLocation == "" && |additional| == 0 {
      args := args + [SchemaLocationStr, "file://" + DefaultSchemaLocation];
    }
    ghost var prefix := args;
    ghost var f1 := Flag(ignoreMissing, IgnoreMissingFlag);
    ghost var f2 := FlagValue(SkipValue(skipKinds), SkipFlag);
    ghost var f3 := Flag(strict, StrictFlag);
    if ignoreMissing {
      args := args + [IgnoreMissingFlag];
    }
    assert args == prefix + f1;
    if |skipKinds| > 0 {
      args := args + [SkipFlag, Strings.Join(skipKinds, ",")];
    }
    assert args == prefix + f1 + f2;
    if strict {
      args := args + [StrictFlag];
    }
    assert args == prefix + f1 + f2 + f3;
    Associate(prefix, f1, f2, f3);
  }

  /** What a command line says: its schema locations in order, the
      ignore-missing flag, the joined kinds to skip and the strict flag. */
  datatype CommandLine = CommandLine(locations: seq<string>, ignoreMissing: bool, skip: Option<string>, strict: bool)

  /** Read `-schema-location X` pairs off the front. */
  function ParseLocations(args: seq<string>): (seq<string>, seq<string>)
    decreases |args|
  {
    if |args| >= 2 && args[0] == SchemaLocationStr then
      var (locs, rest) := ParseLocations(args[2..]);
      ([args[1]] + locs, rest)
    else ([], args)
  }

  /** Read the flags, which must come in their fixed order and end the line. */
  function ParseFlags(tail: seq<string>): Option<(bool, Option<string>, bool)>
  {
    var (ignore, t1) := TakeFlag(tail, IgnoreMissingFlag);
    var (skip, t2) := TakeFlagValue(t1, SkipFlag);
    var (strict, t3) := TakeFlag(t2, StrictFlag);
    if t3 == [] then Some((ignore, skip, strict)) else None
  }

  function TakeFlag(t: seq<string>, flag: string): (bool, seq<string>)
  {
    if |t| > 0 && t[0] == flag then (true, t[1..]) else (false, t)
  }

  function TakeFlagValue(t: seq<string>, flag: string): (Option<string>, seq<string>)
  {
    if |t| >= 2 && t[0] == flag then (Some(t[1]), t[2..]) else (None, t)
  }

  lemma TakeFlagOf(on: bool, flag: string, rest: seq<string>)
    requires rest == [] || rest[0] != flag
    ensures TakeFlag(Flag(on, flag) + rest, flag) == (on, rest)
  {
    if on {
      assert (Flag(on, flag) + rest)[1..] == rest;
    } else {
      assert Flag(on, flag) + rest == rest;
    }
  }

  lemma TakeFlagValueOf(v: Option<string>, flag: string, rest: seq<string>)
    requires rest == [] || rest[0] != flag
    ensures TakeFlagValue(FlagValue(v, flag) + rest, flag) == (v, rest)
  {
    if v.Some? {
      assert (FlagValue(v, flag) + rest)[2..] == rest;
    } else {
      assert FlagValue(v, flag) + rest == rest;
    }
  }

  function ParseArgs(args: seq<string>): Option<CommandLine>
  {
    if |args| >= 2 && args[..2] == ["-output", "json"] then
      var (locs, rest) := ParseLocations(args[2..]);
      match ParseFlags(rest)
      case None => None
      case Some(f) => Some(CommandLine(locs, f.0, f.1, f.2))
    else None
  }

  lemma {:induction false} ParseSchemaArgs(locations: seq<string>, tail: seq<string>)
    requires |tail| == 0 || tail[0] != SchemaLocationStr
    ensures ParseLocations(SchemaArgs(locations) + tail) == (locations, tail)
    decreases |locations|
  {
    if |locations| == 0 {
      assert SchemaArgs(locations) + tail == tail;
    } else {
      var args := SchemaArgs(locations) + tail;
      assert args[2..] == SchemaArgs(locations[1..]) + tail;
      ParseSchemaArgs(locations[1..], tail);
      assert [locations[0]] + locations[1..] == locations;
    }
  }

  lemma ParseFlagsRoundTrip(ignoreMissing: bool, skipKinds: seq<string>, strict: bool)
    ensures ParseFlags(Flags(ignoreMissing, skipKinds, strict)) == Some((ignoreMissing, SkipValue(skipKinds), strict))
  {
    var a := Flag(ignoreMissing, IgnoreMissingFlag);
    var b := FlagValue(SkipValue(skipKinds), SkipFlag);
    var c := Flag(strict, StrictFlag);
    assert a + b + c == a + (b + c);
    assert b + c == [] || (b + c)[0] == SkipFlag || (b + c)[0] == StrictFlag;
    TakeFlagOf(ignoreMissing, IgnoreMissingFlag, b + c);
    TakeFlagValueOf(SkipValue(skipKinds), SkipFlag, c);
    assert c + [] == c;
    TakeFlagOf(strict, StrictFlag, []);
  }

  /** The command line says exactly what was asked: the locations in order
      (primary, additional, or the default directory alone), each flag iff it
      was set, and the kinds joined by commas iff there are any. */
  lemma ArgsRoundTrip(schemaLocation: string, additional: seq<string>, ignoreMissing: bool,
                      skipKinds: seq<string>, strict: bool)
    ensures ParseArgs(KubeconformArgs(schemaLocation, additional, ignoreMissing, skipKinds, strict))
      == Some(CommandLine(Locations(schemaLocation, additional), ignoreMissing, SkipValue(skipKinds), strict))
  {
    var locs := Locations(schemaLocation, additional);
    var flags := Flags(ignoreMissing, skipKinds, strict);
    var args := KubeconformArgs(schemaLocation, additional, ignoreMissing, skipKinds, strict);
    assert args[..2] == ["-output", "json"];
    assert args[2..] == SchemaArgs(locs) + flags;
    ParseSchemaArgs(locs, flags);
    ParseFlagsRoundTrip(ignoreMissing, skipKinds, strict);
  }

  /** The line starts with JSON output and then the location pairs. */
  lemma ArgsLayout(schemaLocation: string, additional: seq<string>, ignoreMissing: bool,
                   skipKinds: seq<string>, strict: bool, k: int)
    requires 0 <= k < |Locations(schemaLocation, additional)|
    ensures var args := KubeconformArgs(schemaLocation, additional, ignoreMissing, skipKinds, strict);
      && args[..2] == ["-output", "json"]
      && args[2 + 2 * k] == SchemaLocationStr
      && args[3 + 2 * k] == Locations(schemaLocation, additional)[k]
  {
    var locs := Locations(schemaLocation, additional);
    SchemaArgsAt(locs, k);
  }

  /** The default directory is used exactly when no location is configured;
      otherwise the primary location comes first, then the additional ones. */
  lemma LocationsOrder(schemaLocation: string, additional: seq<string>)
    ensures schemaLocation == "" && |additional| == 0 ==> Locations(schemaLocation, additional) == [DefaultSchemaUrl]
    ensures schemaLocation != "" ==> Locations(schemaLocation, additional) == [schemaLocation] + additional
    ensures schemaLocation == "" ==> |additional| > 0 ==> Locations(schemaLocation, additional) == additional
  {
  }

  /** Skipping two kinds passes them as one comma-joined value. */
  lemma SkipKindsArgs()
    ensures KubeconformArgs("", [], false, ["Pod", "Deployment"], false)
      == ["-output", "json", SchemaLocationStr, DefaultSchemaUrl, SkipFlag, "Pod,Deployment"]
  {
    assert Strings.Join(["Pod", "Deployment"], ",") == "Pod,Deployment" by {
      Strings.JoinCons("Pod", ["Deployment"], ",");
    }
  }

  // ---------------------------------------------------------------------
  // Results
  // ---------------------------------------------------------------------

  /** A JSON-pointer style path as a dotted field path. */
  function DottedPath(path: string): (r: string)
    ensures '/' !in r
  {
    var dotted := Strings.ReplaceAll(path, '/', '.');
    assert forall k :: 0 <= k < |dotted| ==> dotted[k] != '/';
    Strings.TrimPrefix(dotted, ".")
  }

  /** A path that starts with '/' and has no '.' of its own comes back when
      the dots are turned into slashes again. */
  lemma DottedPathRoundTrip(path: string)
    requires |path| > 0 && path[0] == '/' && '.' !in path
    ensures "/" + Strings.ReplaceAll(DottedPath(path), '.', '/') == path
  {
    var dotted := Strings.ReplaceAll(path, '/', '.');
    assert dotted[..1] == ".";
    var r := DottedPath(path);
    assert r == dotted[1..];
    var back := "/" + Strings.ReplaceAll(r, '.', '/');
    forall k | 0 <= k < |path| ensures back[k] == path[k] {
      if k > 0 {
        assert path[k] != '.';
      }
    }
  }

  /** Field names after slashes come out joined by dots. */
  lemma DottedJoin(a: string, b: string)
    requires '/' !in a && '/' !in b
    ensures DottedPath("/" + a) == a
    ensures DottedPath("/" + a + "/" + b) == a + "." + b
  {
    var p := "/" + a;
    var d := Strings.ReplaceAll(p, '/', '.');
    assert d[..1] == ".";
    assert d[1..] == a by {
      forall k | 0 <= k < |a| ensures d[1 + k] == a[k] { assert p[1 + k] == a[k]; }
    }
    var q := "/" + a + "/" + b;
    var e := Strings.ReplaceAll(q, '/', '.');
    assert e[..1] == ".";
    assert e[1..] == a + "." + b by {
      forall k | 0 <= k < |a| + 1 + |b| ensures e[1 + k] == (a + "." + b)[k] {
        if k < |a| { assert q[1 + k] == a[k]; }
        else if k > |a| { assert q[1 + k] == b[k - |a| - 1]; }
      }
    }
  }

  lemma DottedPathExample()
    ensures DottedPath("/spec/replicas") == "spec.replicas"
    ensures DottedPath("/spec") == "spec"
  {
    DottedJoin("spec", "replicas");
    assert "/spec/replicas" == "/" + "spec" + "/" + "replicas";
    assert "spec.replicas" == "spec" + "." + "replicas";
    assert "/spec" == "/" + "spec";
  }

  function RefOf(obj: Node): ResourceRef
  {
    ResourceRef(ApiVersion(obj), Kind(obj), Name(obj), Namespace(obj))
  }

  function FileOf(obj: Node): FileRef
  {
    FileRef(PathAnnotation(obj), IndexAnnotation(obj))
  }

  /** ConfigObjectResult: a result about a field of the object, located by
      the object's identity and file annotations. */
  function ConfigObjectResult(msg: string, path: string, obj: Node, severity: Severity): (r: Result)
    ensures r.message == msg && r.severity == severity
    ensures r.subject == Located(RefOf(obj), DottedPath(path), FileOf(obj))
  {
    Result(msg, severity, Located(RefOf(obj), DottedPath(path), FileOf(obj)))
  }

  /** An error result about the object as a whole (fn.ErrorConfigObjectResult). */
  function ErrorConfigObjectResult(msg: string, obj: Node): Result
  {
    Result(msg, Error, Located(RefOf(obj), "", FileOf(obj)))
  }

  // ---------------------------------------------------------------------
  // Translating the validator's report
  // ---------------------------------------------------------------------

  datatype ValidationError = ValidationError(path: string, msg: string)

  datatype Resource = Resource(
    filename: string, kind: string, name: string, version: string,
    status: string, message: string, validationErrors: seq<ValidationError>)

  const StatusValid: string := "statusValid"
  const ValidationFailed: string := "validation failed for one or more resources"

  /** One error result per validation error, in order. */
  function ErrorResults(es: seq<ValidationError>, obj: Node): (r: seq<Result>)
    ensures |r| == |es|
  {
    if |es| == 0 then []
    else ErrorResults(es[..|es| - 1], obj) + [ConfigObjectResult(es[|es| - 1].msg, es[|es| - 1].path, obj, Error)]
  }

  /** The results of one resource: nothing when it is valid. */
  function ResourceResults(r: Resource, obj: Node): seq<Result>
  {
    if r.status != StatusValid then ErrorResults(r.validationErrors, obj) else []
  }

  /** The results of a report, resource after resource. */
  function Translated(resources: seq<Resource>, obj: Node): seq<Result>
  {
    if |resources| == 0 then []
    else Translated(resources[..|resources| - 1], obj) + ResourceResults(resources[|resources| - 1], obj)
  }

  predicate SomeInvalid(resources: seq<Resource>)
  {
    exists k :: 0 <= k < |resources| && resources[k].status != StatusValid
  }

  lemma ErrorResultsSnoc(es: seq<ValidationError>, j: int, obj: Node)
    requires 0 <= j < |es|
    ensures ErrorResults(es[..j + 1], obj) == ErrorResults(es[..j], obj) + [ConfigObjectResult(es[j].msg, es[j].path, obj, Error)]
  {
    assert es[..j + 1][..j] == es[..j];
  }

  lemma TranslatedSnoc(resources: seq<Resource>, i: int, obj: Node)
    requires 0 <= i < |resources|
    ensures Translated(resources[..i + 1], obj) == Translated(resources[..i], obj) + ResourceResults(resources[i], obj)
  {
    assert resources[..i + 1][..i] == resources[..i];
  }

  lemma SomeInvalidSnoc(resources: seq<Resource>, i: int)
    requires 0 <= i < |resources|
    ensures SomeInvalid(resources[..i + 1]) <==> SomeInvalid(resources[..i]) || resources[i].status != StatusValid
  {
    var pre, ext := resources[..i], resources[..i + 1];
    assert ext[i] == resources[i];
    if SomeInvalid(pre) {
      var k :| 0 <= k < |pre| && pre[k].status != StatusValid;
      assert ext[k] == pre[k];
    }
    if !SomeInvalid(pre) && resources[i].status == StatusValid {
      forall k | 0 <= k < |ext| ensures ext[k].status == StatusValid {
        if k < i { assert ext[k] == pre[k]; }
      }
    }
  }

  /** The inner loop of runKubeconformForObject: one error result per
      validation error, appended in order. */
  method AppendErrors(acc: seq<Result>, es: seq<ValidationError>, obj: Node) returns (results: seq<Result>)
    ensures results == acc + ErrorResults(es, obj)
  {
    results := acc;
    for j := 0 to |es|
      invariant results == acc + ErrorResults(es[..j], obj)
    {
      var e := es[j];
      ErrorResultsSnoc(es, j, obj);
      results := results + [ConfigObjectResult(e.msg, e.path, obj, Error)];
    }
    assert es[..|es|] == es;
  }

  /** The tail of runKubeconformForObject: collect the errors of every
      resource that is not valid, and fail iff there is such a resource. */
  method TranslateResources(resources: seq<Resource>, obj: Node) returns (results: seq<Result>, validationError: Option<string>)
    ensures results == Translated(resources, obj)
    ensures validationError.Some? <==> SomeInvalid(resources)
    ensures validationError.Some? ==> validationError.value == ValidationFailed
  {
    results := [];
    var hasError := false;
    for i := 0 to |resources|
      invariant results == Translated(resources[..i], obj)
      invariant hasError <==> SomeInvalid(resources[..i])
    {
      var res := resources[i];
      TranslatedSnoc(resources, i, obj);
      SomeInvalidSnoc(resources, i);
      if res.status != StatusValid {
        hasError := true;
        results := AppendErrors(results, res.validationErrors, obj);
      }
    }
    assert resources[..|resources|] == resources;
    if hasError {
      validationError := Some(ValidationFailed);
    } else {
      validationError := None;
    }
  }

  /** Every translated result is an error about a field of the object. */
  lemma {:induction false} TranslatedAreErrors(resources: seq<Resource>, obj: Node)
    ensures forall k :: 0 <= k < |Translated(resources, obj)| ==>
      Translated(resources, obj)[k].severity == Error && Translated(resources, obj)[k].subject.Located?
      && Translated(resources, obj)[k].subject.resource == RefOf(obj)
  {
    if |resources| > 0 {
      var last := resources[|resources| - 1];
      TranslatedAreErrors(resources[..|resources| - 1], obj);
      if last.status != StatusValid {
        ErrorResultsAreErrors(last.validationErrors, obj);
      }
    }
  }

  lemma {:induction false} ErrorResultsAreErrors(es: seq<ValidationError>, obj: Node)
    ensures forall k :: 0 <= k < |ErrorResults(es, obj)| ==>
      ErrorResults(es, obj)[k] == ConfigObjectResult(es[k].msg, es[k].path, obj, Error)
  {
    if |es| > 0 {
      ErrorResultsAreErrors(es[..|es| - 1], obj);
    }
  }

  /** The number of validation errors a resource contributes. */
  function ErrorCount(r: Resource): nat
  {
    if r.status != StatusValid then |r.validationErrors| else 0
  }

  /** The number of validation errors of the resources that are not valid. */
  function InvalidErrorCount(resources: seq<Resource>): nat
  {
    if |resources| == 0 then 0
    else InvalidErrorCount(resources[..|resources| - 1]) + ErrorCount(resources[|resources| - 1])
  }

  /** One result per validation error of a non-valid resource, and none
      when every resource is valid. */
  lemma {:induction false} TranslatedCount(resources: seq<Resource>, obj: Node)
    ensures |Translated(resources, obj)| == InvalidErrorCount(resources)
    ensures !SomeInvalid(resources) ==> Translated(resources, obj) == []
  {
    if |resources| > 0 {
      var init := resources[..|resources| - 1];
      TranslatedCount(init, obj);
      if !SomeInvalid(resources) {
        assert !SomeInvalid(init) by {
          forall k | 0 <= k < |init| ensures init[k].status == StatusValid {
            assert init[k] == resources[k];
          }
        }
        assert resources[|resources| - 1].status == StatusValid;
      }
    }
  }

  /** A resource reported invalid with two validation errors yields two
      errors, in order, on the dotted fields. */
  lemma TranslatedExample(obj: Node, r: Resource, m1: string, m2: string)
    requires r.status == "statusInvalid"
    requires r.validationErrors == [ValidationError("/spec/replicas", m1), ValidationError("/spec", m2)]
    ensures Translated([r], obj)
      == [Result(m1, Error, Located(RefOf(obj), "spec.replicas", FileOf(obj))),
          Result(m2, Error, Located(RefOf(obj), "spec", FileOf(obj)))]
  {
    assert [r][..0] == [];
    ErrorResultsAreErrors(r.validationErrors, obj);
    DottedPathExample();
  }

  // ---------------------------------------------------------------------
  // One object, and the batch
  // ---------------------------------------------------------------------

  /** How the decoding of the validator's JSON output ended. */
  datatype Decoded = Report(resources: seq<Resource>) | DecodeError(message: string)

  /** What running the validator on one object gave: nothing on standard
      output together with the error text, or the text it printed and how
      that decoded. */
  datatype ValidatorOutput = NoOutput(err: string) | Output(raw: string, decoded: Decoded)

  const SchemaInitMarker: string := "Failed initializing schema file"

  function SchemaInitMessage(raw: string): string
  {
    "Validating arbitrary CRDs not supported. Consider setting " + IgnoreMissingSchemasKey + " or "
      + SkipKindsKey + " in FunctionConfig:\n" + raw
  }

  function ParseFailureMessage(err: string, raw: string): string
  {
    "Failed to parse kubeconform output:\n" + err + "\n" + raw
  }

  /** What runKubeconformForObject returns for a validator output. */
  function ObjectOutcome(obj: Node, out: ValidatorOutput): (seq<Result>, Option<string>)
  {
    match out
    case NoOutput(err) => ([], Some(err))
    case Output(raw, decoded) =>
      if Strings.Contains(raw, SchemaInitMarker) then ([ErrorConfigObjectResult(SchemaInitMessage(raw), obj)], None)
      else
        match decoded
        case DecodeError(err) => ([ErrorConfigObjectResult(ParseFailureMessage(err, raw), obj)], None)
        case Report(resources) =>
          (Translated(resources, obj), if SomeInvalid(resources) then Some(ValidationFailed) else None)
  }

  /** An object fails iff the validator could not be run or reported a
      resource that is not valid; a failure of the validator to load a schema
      or an unreadable report is a result, not a failure. */
  lemma ObjectOutcomeFails(obj: Node, out: ValidatorOutput)
    ensures ObjectOutcome(obj, out).1.Some? <==>
      || out.NoOutput?
      || (!Strings.Contains(out.raw, SchemaInitMarker) && out.decoded.Report? && SomeInvalid(out.decoded.resources))
    ensures out.Output? && Strings.Contains(out.raw, SchemaInitMarker) ==>
      ObjectOutcome(obj, out).0 == [ErrorConfigObjectResult(SchemaInitMessage(out.raw), obj)]
  {
  }

  /** runKubeconformForObject, from the point where the validator's output
      is known. */
  method RunKubeconformForObject(obj: Node, args: seq<string>, validator: (seq<string>, Node) -> ValidatorOutput)
    returns (results: seq<Result>, err: Option<string>)
    ensures (results, err) == ObjectOutcome(obj, validator(args, obj))
  {
    var out := validator(args, obj);
    match out
    case NoOutput(e) =>
      return [], Some(e);
    case Output(raw, decoded) =>
      if Strings.Contains(raw, SchemaInitMarker) {
        return [ErrorConfigObjectResult(SchemaInitMessage(raw), obj)], None;
      }
      match decoded
      case DecodeError(e) =>
        return [ErrorConfigObjectResult(ParseFailureMessage(e, raw), obj)], None;
      case Report(resources) =>
        results, err := TranslateResources(resources, obj);
  }

  /** The results Run keeps: those of the objects that failed, in order. */
  function FailedResults(items: seq<Node>, args: seq<string>, validator: (seq<string>, Node) -> ValidatorOutput): seq<Result>
  {
    if |items| == 0 then []
    else
      var last := items[|items| - 1];
      var outcome := ObjectOutcome(last, validator(args, last));
      FailedResults(items[..|items| - 1], args, validator) + (if outcome.1.Some? then outcome.0 else [])
  }

  predicate ObjectFails(obj: Node, args: seq<string>, validator: (seq<string>, Node) -> ValidatorOutput)
  {
    ObjectOutcome(obj, validator(args, obj)).1.Some?
  }

  predicate SomeFails(items: seq<Node>, args: seq<string>, validator: (seq<string>, Node) -> ValidatorOutput)
  {
    exists k :: 0 <= k < |items| && ObjectFails(items[k], args, validator)
  }

  lemma FailedResultsSnoc(items: seq<Node>, i: int, args: seq<string>, validator: (seq<string>, Node) -> ValidatorOutput)
    requires 0 <= i < |items|
    ensures var outcome := ObjectOutcome(items[i], validator(args, items[i]));
      FailedResults(items[..i + 1], args, validator)
        == FailedResults(items[..i], args, validator) + (if outcome.1.Some? then outcome.0 else [])
  {
    assert items[..i + 1][..i] == items[..i];
    assert items[..i + 1][i] == items[i];
  }

  lemma SomeFailsSnoc(items: seq<Node>, i: int, args: seq<string>, validator: (seq<string>, Node) -> ValidatorOutput)
    requires 0 <= i < |items|
    ensures SomeFails(items[..i + 1], args, validator) <==> SomeFails(items[..i], args, validator) || ObjectFails(items[i], args, validator)
  {
    var pre, ext := items[..i], items[..i + 1];
    assert ext[i] == items[i];
    if SomeFails(pre, args, validator) {
      var k :| 0 <= k < |pre| && ObjectFails(pre[k], args, validator);
      assert ext[k] == pre[k];
    }
    if !SomeFails(pre, args, validator) && !ObjectFails(items[i], args, validator) {
      forall k | 0 <= k < |ext| ensures !ObjectFails(ext[k], args, validator) {
        if k < i { assert ext[k] == pre[k]; }
      }
    }
  }

  /** The command line of a configuration. */
  function ConfigArgs(cfg: KubeconformConfig): seq<string>
  {
    KubeconformArgs(cfg.schemaLocation, cfg.additionalSchemaLocations, cfg.ignoreMissingSchemas, cfg.skipKinds, cfg.strict)
  }

  const KrmValidationFailed: string := "KRM validation failed"

  /** The resource list a function reads and appends results to. */
  class ResourceList {
    var functionConfig: Node
    var items: seq<Node>
    var results: seq<Result>

    constructor (functionConfig: Node, items: seq<Node>)
      ensures this.functionConfig == functionConfig && this.items == items && results == []
    {
      this.functionConfig := functionConfig;
      this.items := items;
      results := [];
    }
  }

  /** The loop of Run: validate every object with the same command line and
      keep the results of the objects that failed. */
  method ValidateItems(items: seq<Node>, args: seq<string>, validator: (seq<string>, Node) -> ValidatorOutput)
    returns (results: seq<Result>, exit: Option<string>)
    ensures results == FailedResults(items, args, validator)
    ensures exit.Some? <==> SomeFails(items, args, validator)
    ensures exit.Some? ==> exit.value == KrmValidationFailed
  {
    results := [];
    exit := None;
    for i := 0 to |items|
      invariant results == FailedResults(items[..i], args, validator)
      invariant exit.Some? <==> SomeFails(items[..i], args, validator)
      invariant exit.Some? ==> exit.value == KrmValidationFailed
    {
      var obj := items[i];
      FailedResultsSnoc(items, i, args, validator);
      SomeFailsSnoc(items, i, args, validator);
      var objResults, e := RunKubeconformForObject(obj, args, validator);
      if e.Some? {
        if exit.None? {
          exit := Some(KrmValidationFailed);
        }
        results := results + objResults;
      }
    }
    assert items[..|items|] == items;
  }

  /** Run: validate every object with the same command line, keep the
      results of the objects that failed, append them, and report success
      iff no object failed; the error value is always nil. */
  method Run(rl: ResourceList, validator: (seq<string>, Node) -> ValidatorOutput) returns (ok: bool, err: Option<string>)
    modifies rl
    ensures rl.functionConfig == old(rl.functionConfig) && rl.items == old(rl.items)
    ensures rl.results == old(rl.results) + FailedResults(rl.items, ConfigArgs(ExtractConfig(rl.functionConfig)), validator)
    ensures ok <==> !SomeFails(rl.items, ConfigArgs(ExtractConfig(rl.functionConfig)), validator)
    ensures err == None
  {
    var cfg := ExtractConfig(rl.functionConfig);
    var args := BuildKubeconformArgs(cfg.schemaLocation, cfg.additionalSchemaLocations, cfg.ignoreMissingSchemas,
                                     cfg.skipKinds, cfg.strict);
    var results, exit := ValidateItems(rl.items, args, validator);
    rl.results := rl.results + results;
    if exit.Some? {
      return false, None;
    }
    return true, None;
  }

  /** When the validator reports nothing for any object, the run succeeds
      and adds no result. */
  lemma {:induction false} EmptyReportsPass(items: seq<Node>, args: seq<string>, validator: (seq<string>, Node) -> ValidatorOutput)
    requires forall obj :: (validator(args, obj).Output? && validator(args, obj).decoded == Report([])
      && !Strings.Contains(validator(args, obj).raw, SchemaInitMarker))
    ensures FailedResults(items, args, validator) == []
    ensures !SomeFails(items, args, validator)
  {
    if |items| > 0 {
      EmptyReportsPass(items[..|items| - 1], args, validator);
      assert !SomeFails(items, args, validator) by {
        forall k | 0 <= k < |items| ensures !ObjectFails(items[k], args, validator) {
          assert !SomeInvalid([]);
        }
      }
    }
  }

  // ---------------------------------------------------------------------
  // Results of objects that did not fail
  // ---------------------------------------------------------------------

  /** Every result of every object, in order: what Run would report if it
      kept the results of the objects whose validation returned no error. */
  function AllResults(items: seq<Node>, args: seq<string>, validator: (seq<string>, Node) -> ValidatorOutput): seq<Result>
  {
    if |items| == 0 then []
    else
      var last := items[|items| - 1];
      AllResults(items[..|items| - 1], args, validator) + ObjectOutcome(last, validator(args, last)).0
  }

  /** As written, Run drops the result that tells the user a schema could not
      be loaded: the object does not fail, so its result is not kept, and the
      run succeeds with nothing reported. */
  lemma SchemaFailureDropped(obj: Node, args: seq<string>, validator: (seq<string>, Node) -> ValidatorOutput,
                             rest: string, d: Decoded)
    requires validator(args, obj) == Output(SchemaInitMarker + rest, d)
    ensures FailedResults([obj], args, validator) == []
    ensures !SomeFails([obj], args, validator)
    ensures AllResults([obj], args, validator) == [ErrorConfigObjectResult(SchemaInitMessage(SchemaInitMarker + rest), obj)]
  {
    var raw := SchemaInitMarker + rest;
    assert Strings.OccursAt(raw, SchemaInitMarker, 0) by {
      assert raw[..|SchemaInitMarker|] == SchemaInitMarker;
    }
    assert [obj][..0] == [];
    assert !ObjectFails([obj][0], args, validator);
  }

  /** Every result an object produces is reported by the corrected loop. */
  lemma {:induction false} AllResultsComplete(items: seq<Node>, args: seq<string>,
                                              validator: (seq<string>, Node) -> ValidatorOutput, k: int)
    requires 0 <= k < |items|
    ensures forall r :: r in ObjectOutcome(items[k], validator(args, items[k])).0 ==> r in AllResults(items, args, validator)
  {
    var init := items[..|items| - 1];
    if k < |items| - 1 {
      assert init[k] == items[k];
      AllResultsComplete(init, args, validator, k);
    }
  }

  /** The results Run keeps as written are among those reported by the
      corrected loop. */
  lemma {:induction false} FailedWithinAll(items: seq<Node>, args: seq<string>, validator: (seq<string>, Node) -> ValidatorOutput)
    ensures forall r :: r in FailedResults(items, args, validator) ==> r in AllResults(items, args, validator)
  {
    if |items| > 0 {
      FailedWithinAll(items[..|items| - 1], args, validator);
    }
  }

  lemma AllResultsSnoc(items: seq<Node>, i: int, args: seq<string>, validator: (seq<string>, Node) -> ValidatorOutput)
    requires 0 <= i < |items|
    ensures AllResults(items[..i + 1], args, validator)
      == AllResults(items[..i], args, validator) + ObjectOutcome(items[i], validator(args, items[i])).0
  {
    assert items[..i + 1][..i] == items[..i];
    assert items[..i + 1][i] == items[i];
  }

  /** The loop of Run as evidently intended: the results of every object are
      kept, and the exit status still depends only on the objects that fail. */
  method ValidateItemsKeepingAll(items: seq<Node>, args: seq<string>, validator: (seq<string>, Node) -> ValidatorOutput)
    returns (results: seq<Result>, exit: Option<string>)
    ensures results == AllResults(items, args, validator)
    ensures exit.Some? <==> SomeFails(items, args, validator)
    ensures exit.Some? ==> exit.value == KrmValidationFailed
  {
    results := [];
    exit := None;
    for i := 0 to |items|
      invariant results == AllResults(items[..i], args, validator)
      invariant exit.Some? <==> SomeFails(items[..i], args, validator)
      invariant exit.Some? ==> exit.value == KrmValidationFailed
    {
      var obj := items[i];
      AllResultsSnoc(items, i, args, validator);
      SomeFailsSnoc(items, i, args, validator);
      var objResults, e := RunKubeconformForObject(obj, args, validator);
      if e.Some? && exit.None? {
        exit := Some(KrmValidationFailed);
      }
      results := results + objResults;
    }
    assert items[..|items|] == items;
  }

  /** Run with the corrected loop: every object's results are appended. */
  method RunKeepingAll(rl: ResourceList, validator: (seq<string>, Node) -> ValidatorOutput) returns (ok: bool, err: Option<string>)
    modifies rl
    ensures rl.functionConfig == old(rl.functionConfig) && rl.items == old(rl.items)
    ensures rl.results == old(rl.results) + AllResults(rl.items, ConfigArgs(ExtractConfig(rl.functionConfig)), validator)
    ensures ok <==> !SomeFails(rl.items, ConfigArgs(ExtractConfig(rl.functionConfig)), validator)
    ensures err == None
  {
    var cfg := ExtractConfig(rl.functionConfig);
    var args := BuildKubeconformArgs(cfg.schemaLocation, cfg.additionalSchemaLocations, cfg.ignoreMissingSchemas,
                                     cfg.skipKinds, cfg.strict);
    var results, exit := ValidateItemsKeepingAll(rl.items, args, validator);
    rl.results := rl.results + results;
    if exit.Some? {
      return false, None;
    }
    return true, None;
  }
}
