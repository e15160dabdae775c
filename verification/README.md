# krm-functions-catalog core, modelled in Dafny

This project models four pieces of Go code from the KRM functions catalog and
proves properties of them. Each piece is a KRM function, or part of one: a
program that reads a resource list, changes or checks the resources, and
reports results.

- **set-image**
  - `functions/go/set-image/transformer/images_transformer.go`: the
    `SetImage` runner. It covers reading the image from a ConfigMap's data,
    validating it, the built-in catalog of container image field specs,
    one filter pass over every item, and the summary and verdict.
  - `functions/go/set-image/custom/custom.go`: the second pass over
    user-supplied field specs, the mutation counter callback, and the
    adaptors that decode the function config.
- **kubeconform** (`functions/go/kubeconform/kubeconform.go`)
  - reading the function config;
  - building the validator's command line;
  - turning the validator's JSON report into results;
  - aggregating a batch into a verdict.
- **generate-kpt-pkg-docs** (`functions/go/generate-kpt-pkg-docs/docs/pkg.go`)
  - collecting function config paths from a Kptfile pipeline;
  - choosing a blueprint title;
  - indexing the Kptfiles of a package tree by path.

## Modules

| file | module | what it holds |
|---|---|---|
| `strings.dfy` | `Strings` | The few `strings`/`fmt` operations the code relies on: split, join, replace-all, trim-prefix, ASCII case folding, decimal printing. |
| `krm.dfy` | `Krm` | KRM documents as a small tree (`Map \| List \| Str \| Bool`). Also the object accessors (GVK, name, annotations), `fn.Result`, and the `Results` list with its exit code. |
| `imagetag.dfy` | `ImageTag` | The kustomize code that set-image delegates to: image references, `FieldSpec` merging, and the `imagetag` filter. The filter walks a document along a field-spec path and rewrites every selected image reference. |
| `custom.dfy` | `Custom` | `custom.go`: the shared counter, the adaptors, and the in-place pass over an array of objects. |
| `transformer.dfy` | `Transformer` | `images_transformer.go`: the default catalog, the configuration, and the `SetImage` class with its `Run`. |
| `kubeconform.dfy` | `Kubeconform` | `kubeconform.go`. The external validator is a function parameter that gives the validator's output for an object. |
| `pkg_docs.dfy` | `PkgDocs` | `pkg.go`. Rendering, Kptfile decoding and path lookup are parameters. |

State that Go mutates is modelled as mutable state:
- `SetImage` and its counter are classes.
- `objects`/`items` are arrays rewritten in place.
- `fn.Results` is a class whose sequence field grows.

Each method that changes state is proved against a specification function over the old state:
- `Pass`, `DefaultPass`, `Passes` for the set-image passes;
- `FailedResults` for kubeconform's loop;
- `KubeconformArgs` for the argument builder;
- `FnCfgPaths` and `Pkgs` for the package docs.

The properties the Go code promises are then proved about those functions.

## Model

| member | source | states |
|---|---|---|
| `Strings.Split` | functions/go/kubeconform/kubeconform.go:192 | A split is never empty, and no part contains the separator. |
| `Strings.JoinSplit` | functions/go/kubeconform/kubeconform.go:187-197 | Joining the parts of a split with the separator gives back the original string. |
| `Strings.SplitTwo` | functions/go/kubeconform/kubeconform_test.go:41-48 | Two comma-free strings joined by a comma split back into exactly those two. |
| `Strings.SplitEmpty` | functions/go/kubeconform/kubeconform.go:189-195 | A split yields the single part "" exactly when the input is empty. So the second nil return only catches what the first already returned for. |
| `Strings.ReplaceAll` | functions/go/kubeconform/kubeconform.go:169 | Same length as the input, and every occurrence of the pattern character is replaced while the others stay. |
| `Strings.NatToString` | functions/go/set-image/transformer/images_transformer.go:114 | The printed count is a non-empty string of decimal digits. |
| `Strings.NatToStringValue` | functions/go/set-image/transformer/images_transformer.go:114 | The printed count reads back as the count. |
| `Krm.ExitCode` | functions/go/set-image/transformer/images_transformer.go:116 | The exit code is 0 or 1, and it is 1 exactly when some result has Error severity. |
| `Krm.Results.Errorf` | functions/go/set-image/transformer/images_transformer.go:97-106 | Appends exactly one Error result with the message and subject, and keeps the earlier ones. |
| `Krm.Results.Infof` | functions/go/set-image/transformer/images_transformer.go:115 | Appends exactly one Info result with no subject. |
| `ImageTag.ParseRef` | functions/go/set-image/transformer/images_transformer.go:15-28 | Definition, no contract: splits an image reference into name and tag or digest. Its properties are `RenderParse`, `ParseWellFormed` and `ParseRender`. |
| `ImageTag.Matches` | functions/go/set-image/transformer/images_transformer.go:17-18 | Definition, no contract: a reference is selected when the names agree and, if the key has a tag or digest, that agrees too. Pinned by `BareKeySelectsByName` and `TaggedKeySelectsExactTag`. |
| `ImageTag.Rewrite` | functions/go/set-image/transformer/images_transformer.go:20-28 | Definition, no contract: the new name, then a digest over a tag over the old suffix. Pinned by `DigestOverridesTag`, `NewNameKeepsSuffix` and `NewTagKeepsName`. |
| `ImageTag.RenderParse` | functions/go/set-image/transformer/images_transformer.go:15-28 | Splitting a reference into name and tag or digest loses nothing: rendering it back gives the same text. |
| `ImageTag.ParseWellFormed` | functions/go/set-image/transformer/images_transformer.go:15-28 | Every parsed reference is well formed: a tag holds no ':', '/' or '@', and a bare name has no tag separator after its last '/'. |
| `ImageTag.ParseRender` | functions/go/set-image/transformer/images_transformer.go:15-28 | Parsing the rendering of a well-formed reference gives back that reference. |
| `ImageTag.BareKeySelectsByName` | functions/go/set-image/transformer/images_transformer_test.go:85-99 | A tag-less Name selects a reference iff the names agree, whatever its tag. |
| `ImageTag.NewTagKeepsName` | functions/go/set-image/transformer/images_transformer_test.go:85-99 | With only NewTag set, a selected reference keeps its name and gets the new tag. |
| `ImageTag.NewNameKeepsSuffix` | functions/go/set-image/transformer/images_transformer_test.go:101-115 | With only NewName set, a selected reference gets the new name and keeps its original tag or digest text. |
| `ImageTag.TaggedKeySelectsExactTag` | functions/go/set-image/transformer/images_transformer_test.go:133-147 | A Name carrying a tag selects exactly the references with that name and that tag. |
| `ImageTag.NoOpStillFires` | functions/go/set-image/transformer/images_transformer_test.go:150-164 | Rewriting a reference to its own value still counts as a mutation, and the text is unchanged. |
| `ImageTag.DigestOverridesTag` | functions/go/set-image/transformer/images_transformer.go:26-27 | When Digest is set, the result carries that digest and NewTag is ignored. The name is NewName if given, else the original. |
| `ImageTag.FindSpec` | functions/go/set-image/transformer/images_transformer.go:57-76 | Finds a selector with the same GVK and path, or returns -1 exactly when there is none. |
| `ImageTag.MergeAllSound` | functions/go/set-image/transformer/images_transformer.go:57-76 | A successful merge keeps the existing selectors as a prefix and adds only incoming ones. It covers every incoming selector and stays free of duplicates. |
| `ImageTag.MergeAllConflict` | functions/go/set-image/transformer/images_transformer.go:58 | A merge fails only when two selectors with the same GVK and path disagree on `create`. |
| `ImageTag.Walk` | functions/go/set-image/transformer/images_transformer.go:152-165 | Definition, no contract: the assumed walk of one field-spec path (see "Left out"). Related to the independent `Reached` by `WalkRewritesReached`. |
| `ImageTag.Filter` | functions/go/set-image/transformer/images_transformer.go:152-165 | Definition, no contract: applies the field specs in order, each gated by its GVK, and stops at the first error. Its properties are `FilterUnselected`, `FilterOne` and `FilterAppend`. |
| `ImageTag.WalkRewritesReached` | functions/go/set-image/transformer/images_transformer.go:152-165 | Under the assumed walk outcomes (see "Left out"), compares the walk along a path with an independent definition of the references the path reaches. The walk succeeds iff every reached node is a string. Then it rewrites exactly the reached references and fires once per selected one, in document order. |
| `ImageTag.FilterUnselected` | functions/go/set-image/transformer/images_transformer.go:152-156 | An object that no field spec's GVK selects comes out unchanged, with no mutation and no error. |
| `ImageTag.FilterOne` | functions/go/set-image/transformer/images_transformer.go:152-165 | Under the assumed walk outcomes, filtering with one selecting field spec succeeds iff its path reaches only strings. It then rewrites the reached references and fires once per selected reference. A non-selecting spec changes nothing. |
| `ImageTag.FilterAppend` | functions/go/set-image/transformer/images_transformer.go:152-156 | Filtering with the specs `a + b` equals filtering with `a`, then with `b` on the result. Mutations add up, and the walk stops at the first error. |
| `Custom.LogResultCallback` | functions/go/set-image/custom/custom.go:38-42 | Each call increases the shared counter by exactly one, whatever the mutation was. |
| `Custom.TrackMutations` | functions/go/set-image/custom/custom.go:25 | Firing the callback once per mutation raises the counter by the number of mutations. |
| `Custom.NewImageAdaptor` | functions/go/set-image/custom/custom.go:45-50 | Definition, no contract: reads the four image fields of the config node. Its round trip is `NewImageAdaptorRoundTrip`. |
| `Custom.DecodeFieldSpec` | functions/go/set-image/custom/custom.go:56-58 | Definition, no contract: reads one FieldSpec from a node. Its round trip is `DecodeFieldSpecRoundTrip`. |
| `Custom.NewImageAdaptorRoundTrip` | functions/go/set-image/custom/custom.go:45-50 | Decoding the node that holds an Image's four fields gives back that Image. |
| `Custom.DecodeFieldSpecRoundTrip` | functions/go/set-image/custom/custom.go:53-62 | Decoding the node of a FieldSpec gives back that FieldSpec. |
| `Custom.DecodeFieldSpecs` | functions/go/set-image/custom/custom.go:53-62 | There is one FieldSpec per input element, with no deduplication. |
| `Custom.DecodeFieldSpecsAt` | functions/go/set-image/custom/custom.go:53-62 | The k-th FieldSpec is the decoding of the k-th element, so order is kept. |
| `Custom.DecodeFieldSpecsRoundTrip` | functions/go/set-image/custom/custom.go:53-62 | Decoding the nodes of a list of FieldSpecs gives back that list. |
| `Custom.NewFieldSpecSliceAdaptor` | functions/go/set-image/custom/custom.go:53-62 | The append loop yields exactly the element-wise decoding of the input. |
| `Custom.PassErrorOf` | functions/go/set-image/custom/custom.go:26-29 | For object j of a pass: if its filter succeeded, no error names it. If it failed, an Error result naming j with the filter's message is recorded. No two recorded errors name the same object. |
| `Custom.OutcomeAt` | functions/go/set-image/custom/custom.go:21-26 | Every object is filtered with the same image and the same field specs. |
| `Custom.CollectItems` | functions/go/set-image/custom/custom.go:16-35 | Position i of the batch becomes the filtered object i, or object i unchanged when its filter failed. The length is kept. |
| `Custom.PassItems` | functions/go/set-image/custom/custom.go:16-35 | A pass keeps the number of objects, and each position depends only on the object that was there. |
| `Custom.CollectFired` | functions/go/set-image/custom/custom.go:25 | The batch count is the total number of mutations fired over all objects. |
| `Custom.PassFired` | functions/go/set-image/custom/custom.go:25 | The counter grows by the total number of mutations fired on all objects of the pass. |
| `Custom.CollectErrorsSound` | functions/go/set-image/custom/custom.go:26-29 | Every recorded error is the error of the filter of the object it names. |
| `Custom.CollectErrorsComplete` | functions/go/set-image/custom/custom.go:26-29 | Every object whose filter failed has an error recorded against it. |
| `Custom.CollectErrorsOrdered` | functions/go/set-image/custom/custom.go:16-35 | Errors name objects of the batch and appear in object order. A failure does not stop the loop. |
| `Custom.PassErrors` | functions/go/set-image/custom/custom.go:26-29 | A pass records an error iff some object's filter failed, where failures are those of the assumed walk. Each recorded error names such an object and carries its message. |
| `Custom.FilterObject` | functions/go/set-image/custom/custom.go:17-34 | One iteration writes only `objects[i]`: the filtered object, or the old one on error. It adds one to the counter per mutation and appends the error, if any. |
| `Custom.FilterObjects` | functions/go/set-image/custom/custom.go:16-35 | The loop leaves the objects, the counter and the results as the pass specification says. |
| `Custom.SetAdditionalFieldSpec` | functions/go/set-image/custom/custom.go:12-36 | Decodes the image and the field specs, then runs the pass over the objects in place with the shared counter and results. |
| `Transformer.MergeAllFresh` | functions/go/set-image/transformer/images_transformer.go:57-76 | Merging selectors that are pairwise distinct from the existing ones just appends them, in order. |
| `Transformer.CatalogPairs` | functions/go/set-image/transformer/images_transformer.go:34-79 | The catalog has 10 entries. Entries 2j and 2j+1 share one GVK: Pod v1 first, then the four apps/v1 template kinds in order. They hold the containers path and the initContainers path, and none has `create`. |
| `Transformer.CatalogShape` | functions/go/set-image/transformer/images_transformer.go:34-79 | The catalog has exactly 10 pairwise-distinct selectors. |
| `Transformer.CatalogContents` | functions/go/set-image/transformer/images_transformer.go:34-79 | A (GVK, path) pair is in the catalog iff it is a Pod containers or initContainers path, or a template containers or initContainers path of Deployment, StatefulSet, ReplicaSet or DaemonSet in apps/v1. |
| `Transformer.ContainersFsSlice` | functions/go/set-image/transformer/images_transformer.go:34-79 | The merge loop builds exactly the catalog above. |
| `Transformer.Overlay` | functions/go/set-image/transformer/images_transformer.go:120-136 | Definition, no contract: the Image after the data's image keys are copied into their fields. Pinned by `OverlayImageData` and `OverlayIgnoresOtherKeys`, and `ConfigDefaultData` is proved against it. |
| `Transformer.OverlayImageData` | functions/go/set-image/transformer/images_transformer.go:120-136 | Writing the four keys of an Image's data over any Image gives that Image. |
| `Transformer.OverlayIgnoresOtherKeys` | functions/go/set-image/transformer/images_transformer.go:120-136 | A key other than name, newName, newTag or digest does not change any image field. |
| `Transformer.ValidateInput` | functions/go/set-image/transformer/images_transformer.go:139-148 | Fails with the `name` message iff Name is empty. Otherwise it fails with the "one of" message iff all three replacements are empty, and it passes otherwise. |
| `Transformer.RunVerdict` | functions/go/set-image/transformer/images_transformer.go:95-116 | The results hold an error iff there was one before, or the config named an unknown key, or validation failed, or some object failed in either pass. The summary never counts. |
| `Transformer.SetImage.ConfigDefaultData` | functions/go/set-image/transformer/images_transformer.go:120-136 | Succeeds iff every data key is an image key, and then copies each into its field. On error it names a wrong key. |
| `Transformer.SetImage.UpdateContainerImages` | functions/go/set-image/transformer/images_transformer.go:151-175 | Filters item i with the configured image and the default catalog. It writes only item i, and only on success, counts every mutation and returns the filter's error. |
| `Transformer.SetImage.UpdateItems` | functions/go/set-image/transformer/images_transformer.go:104-108 | Every item is processed, in order. An error is recorded against its item and the loop goes on. |
| `Transformer.SetImage.Configure` | functions/go/set-image/transformer/images_transformer.go:95-102 | A config error and a validation error are each recorded, and neither stops the run. |
| `Transformer.SetImage.ApplyPasses` | functions/go/set-image/transformer/images_transformer.go:104-112 | The default pass runs, then the additional pass only when additional field specs were given. The second pass runs over what the first left, with the same counter. |
| `Transformer.SetImage.Run` | functions/go/set-image/transformer/images_transformer.go:94-117 | Lists the items, counter and results after both passes; the summary with the final count always comes last. Returns true iff no error result was recorded. |
| `Kubeconform.ConfigString` | functions/go/kubeconform/kubeconform.go:179-185 | The top-level string, or the one under `data` when the top-level one is empty. |
| `Kubeconform.ConfigStringList` | functions/go/kubeconform/kubeconform.go:187-197 | Empty iff the string is empty. Otherwise its comma-free parts join back with "," to the string. |
| `Kubeconform.ConfigBool` | functions/go/kubeconform/kubeconform.go:199-205 | A native bool wins. Otherwise the value is true iff the string is "true" in any case, or "1". |
| `Kubeconform.ExtractConfig` | functions/go/kubeconform/kubeconform.go:178-214 | Definition, no contract: each field is read with its key by the string, list or bool reader. The readers' contracts give the meaning, and `ExtractConfigLists` and `ExtractBoolConfig` give the whole record. |
| `Kubeconform.ExtractConfigLists` | functions/go/kubeconform/kubeconform.go:207-213 | Both list settings are empty iff their strings are, and otherwise join back to them. |
| `Kubeconform.DataFallback` | functions/go/kubeconform/kubeconform_test.go:69-83 | A key present only under `data` is read from there. |
| `Kubeconform.DataList` | functions/go/kubeconform/kubeconform_test.go:33-53 | "a,b" under `data` reads as the list [a, b]. |
| `Kubeconform.DataBool` | functions/go/kubeconform/kubeconform.go:199-205 | "TRUE" and "1" read as true, and "yes" reads as false. |
| `Kubeconform.ExtractBoolConfig` | functions/go/kubeconform/kubeconform_test.go:54-68 | Native bools and an empty list string give the expected configuration. |
| `Kubeconform.SchemaArgs` | functions/go/kubeconform/kubeconform.go:220-232 | Each schema location takes exactly two arguments. |
| `Kubeconform.SchemaArgsAt` | functions/go/kubeconform/kubeconform.go:220-232 | Location k appears as the pair `-schema-location`, location k. |
| `Kubeconform.BuildKubeconformArgs` | functions/go/kubeconform/kubeconform.go:216-244 | The append sequence builds exactly the argument list specified by `KubeconformArgs`. |
| `Kubeconform.ParseSchemaArgs` | functions/go/kubeconform/kubeconform.go:220-232 | The location pairs read back as the locations, in order. |
| `Kubeconform.ParseFlagsRoundTrip` | functions/go/kubeconform/kubeconform.go:234-242 | The flag tail reads back as (ignoreMissing, the joined skip kinds if any, strict). |
| `Kubeconform.ArgsRoundTrip` | functions/go/kubeconform/kubeconform.go:216-244 | The whole command line reads back as its locations and its flags, so nothing is lost or reordered. |
| `Kubeconform.ArgsLayout` | functions/go/kubeconform/kubeconform.go:217-232 | The list starts with `-output json`, and location k sits at positions 2+2k and 3+2k. |
| `Kubeconform.LocationsOrder` | functions/go/kubeconform/kubeconform.go:220-232 | The primary location comes first, then the additional ones in order. The default location is used iff both are absent. |
| `Kubeconform.SkipKindsArgs` | functions/go/kubeconform/kubeconform_test.go:146-150 | Skipping Pod and Deployment gives `-skip Pod,Deployment` after the default location. |
| `Kubeconform.DottedPath` | functions/go/kubeconform/kubeconform.go:169 | A result path contains no '/'. |
| `Kubeconform.DottedPathRoundTrip` | functions/go/kubeconform/kubeconform.go:169 | For a '/'-rooted path without dots, turning '.' back into '/' and restoring the root gives the path back. |
| `Kubeconform.DottedJoin` | functions/go/kubeconform/kubeconform.go:169 | "/a" becomes "a" and "/a/b" becomes "a.b". |
| `Kubeconform.DottedPathExample` | functions/go/kubeconform/kubeconform_test.go:241-244 | "/spec/replicas" becomes "spec.replicas" and "/spec" becomes "spec". |
| `Kubeconform.ConfigObjectResult` | functions/go/kubeconform/kubeconform.go:158-176 | The result keeps the message and severity and is located at the object's identity, its file annotations and the dotted path. |
| `Kubeconform.ErrorResults` | functions/go/kubeconform/kubeconform.go:145-147 | One result per validation error. |
| `Kubeconform.ErrorResultsAreErrors` | functions/go/kubeconform/kubeconform.go:145-147 | Result k is the Error result for validation error k, in order. |
| `Kubeconform.AppendErrors` | functions/go/kubeconform/kubeconform.go:145-147 | The inner loop appends the results of the validation errors, in order. |
| `Kubeconform.TranslateResources` | functions/go/kubeconform/kubeconform.go:140-155 | Results are the translation of the non-valid resources. An error is returned iff some resource is not "statusValid". |
| `Kubeconform.TranslatedAreErrors` | functions/go/kubeconform/kubeconform.go:142-149 | Every translated result has Error severity and is about the validated object. |
| `Kubeconform.TranslatedCount` | functions/go/kubeconform/kubeconform.go:140-155 | There is one result per validation error of a non-valid resource, and none when all are valid. |
| `Kubeconform.TranslatedExample` | functions/go/kubeconform/kubeconform_test.go:241-244 | An invalid resource with two errors gives the two located Error results, in order. |
| `Kubeconform.ObjectOutcome` | functions/go/kubeconform/kubeconform.go:112-155 | Definition, no contract: the results and error for a validator output. `ObjectOutcomeFails` says when it fails, and `RunKubeconformForObject` is proved against it. |
| `Kubeconform.ObjectOutcomeFails` | functions/go/kubeconform/kubeconform.go:112-155 | An object fails iff the validator gave no output, or its report holds a non-valid resource. A schema-load failure yields one result but no failure. |
| `Kubeconform.RunKubeconformForObject` | functions/go/kubeconform/kubeconform.go:100-155 | Once the validator's output is known, the results and error are those of the outcome specification. |
| `Kubeconform.ValidateItems` | functions/go/kubeconform/kubeconform.go:80-91 | Keeps the results of the failing objects in order. Its exit error is set iff some object failed. |
| `Kubeconform.Run` | functions/go/kubeconform/kubeconform.go:70-98 | Appends the failing objects' results to the list and returns false iff some object failed. The error value is always nil. |
| `Kubeconform.EmptyReportsPass` | functions/go/kubeconform/kubeconform_test.go:247-277 | When the validator reports no resources, the run adds no result and succeeds. |
| `Kubeconform.SchemaFailureDropped` | functions/go/kubeconform/kubeconform.go:82-92 | As written, an object whose schema could not be loaded does not fail and its result is dropped. The corrected loop reports it. |
| `Kubeconform.AllResultsComplete` | functions/go/kubeconform/kubeconform.go:82-92 | The corrected loop reports every result of every object. |
| `Kubeconform.FailedWithinAll` | functions/go/kubeconform/kubeconform.go:82-92 | Every result the loop as written keeps is also reported by the corrected loop. |
| `Kubeconform.ValidateItemsKeepingAll` | functions/go/kubeconform/kubeconform.go:82-92 | The corrected loop keeps every object's results in order, with the same exit condition. |
| `Kubeconform.RunKeepingAll` | functions/go/kubeconform/kubeconform.go:70-98 | Run with the corrected loop: all results are appended, and the verdict is unchanged. |
| `PkgDocs.ConfigPaths` | functions/go/generate-kpt-pkg-docs/docs/pkg.go:43-47 | At most one path per function. |
| `PkgDocs.AppendConfigPaths` | functions/go/generate-kpt-pkg-docs/docs/pkg.go:43-52 | Each loop appends the non-empty config paths of its functions, in order. |
| `PkgDocs.GetFnCfgPaths` | functions/go/generate-kpt-pkg-docs/docs/pkg.go:38-54 | The two loops compute the config-path list of the Kptfile, or nil without a pipeline. |
| `PkgDocs.ConfigPathsMembers` | functions/go/generate-kpt-pkg-docs/docs/pkg.go:43-52 | A path is listed iff it is non-empty and some function has it. |
| `PkgDocs.ConfigPathsNonEmpty` | functions/go/generate-kpt-pkg-docs/docs/pkg.go:44-46 | No listed path is empty. |
| `PkgDocs.ConfigPathsAll` | functions/go/generate-kpt-pkg-docs/docs/pkg.go:43-47 | When every function has a path, all are listed, one per function and in order. |
| `PkgDocs.FnCfgPathsShape` | functions/go/generate-kpt-pkg-docs/docs/pkg.go:38-54 | The result is nil iff there is no pipeline. Otherwise it is the mutators' paths followed by the validators' paths, none empty, at most one per function. |
| `PkgDocs.ConfigMapSkipped` | functions/go/generate-kpt-pkg-docs/docs/pkg_test.go:56-77 | A mutator configured by a ConfigMap only is skipped, and the validator's path is listed. |
| `PkgDocs.GetBlueprintTitle` | functions/go/generate-kpt-pkg-docs/docs/pkg.go:57-63 | The title is the heading of level 1 of the chosen text. |
| `PkgDocs.TitleIgnoresName` | functions/go/generate-kpt-pkg-docs/docs/pkg.go:58-60 | When the title annotation exists, the package name does not matter. |
| `PkgDocs.EmptyTitleKept` | functions/go/generate-kpt-pkg-docs/docs/pkg.go:58-60 | An existing but empty title annotation is used as is, not replaced by the name. |
| `PkgDocs.TitleFallsBackToName` | functions/go/generate-kpt-pkg-docs/docs/pkg.go:61-62 | Without the annotation the title is the package name, and other annotations do not matter. |
| `PkgDocs.EntryOf` | functions/go/generate-kpt-pkg-docs/docs/pkg.go:18-31 | Definition, no contract: what one node adds to the index. It is skipped if not a Kptfile, fails on the first render, decode or path error, else gives its path and Kptfile. |
| `PkgDocs.Pkgs` | functions/go/generate-kpt-pkg-docs/docs/pkg.go:15-35 | Definition, no contract: the index built from the nodes in order. Its properties are `PkgsErrSticks`, `PkgsFails`, `PkgsDomain`, `PkgsLastWins` and `PkgsNoKptfiles`, and `FindPkgs` is proved against it. |
| `PkgDocs.FindPkgs` | functions/go/generate-kpt-pkg-docs/docs/pkg.go:15-35 | The loop, with its early returns, computes the Kptfile index of the nodes. |
| `PkgDocs.PkgsErrSticks` | functions/go/generate-kpt-pkg-docs/docs/pkg.go:19-30 | Once a node fails, the later nodes do not change the outcome. |
| `PkgDocs.PkgsFails` | functions/go/generate-kpt-pkg-docs/docs/pkg.go:19-30 | The index fails iff some Kptfile node fails to render, decode or locate, and it carries the first such error. |
| `PkgDocs.PkgsDomain` | functions/go/generate-kpt-pkg-docs/docs/pkg.go:17-31 | A path is indexed iff some Kptfile-kind node is found at it. |
| `PkgDocs.PkgsLastWins` | functions/go/generate-kpt-pkg-docs/docs/pkg.go:31 | A path maps to the Kptfile of the last node found at that path. |
| `PkgDocs.PkgsNoKptfiles` | functions/go/generate-kpt-pkg-docs/docs/pkg.go:18 | Nodes of other kinds add nothing: with no Kptfile node, the index is empty. |

## Left out

- Running the kubeconform binary is not modelled. That covers the process, its stdin and stdout, marshalling the object to JSON and decoding the JSON report. The validator is a function parameter that returns either "no output, with an error" or "raw text and its decoding". A marshal error and an exec failure with empty output both map to the first.
- kustomize's `imagetag.Filter`, `FsSlice.MergeAll`, `filtersutil.ApplyToJSON` and the YAML parse and print round trip are library code that is not part of this model. The filter is a concrete function. Only how an image is matched and rewritten follows the `Image` doc comment and the set-image tests.
- `ImageTag.Walk` and `ImageTag.WalkItems`: the walk outcomes on a document of unexpected shape are assumptions of this model, not fixed by the code here.
  - A missing field ends a walk quietly.
  - A plain field segment applied to a sequence stops the walk with an error. kustomize may instead walk into the sequence, so a path such as `spec/containers/image` could rewrite images there while this model records an error.
  - A `[]` segment on a non-sequence stops the walk with an error.
  - A non-string leaf stops the walk with an error, where kustomize may treat it as a non-match.
  - `ImageTag.WalkRewritesReached`, `ImageTag.FilterOne` and `Custom.PassErrors` are facts about this assumed walk.
  - The object is written back only when the filter succeeds. Mutations fired before an error still count.
  - The YAML round trip is the identity. A parse failure of the printed document is not modelled.
- Image references are split on the last '@', else on the last ':' after the last '/'. Docker's full reference grammar is not modelled.
- `Krm.Results.Errorf` records the offending item as an index. The Go code passes the object as an extra `fmt` argument, and the text `fmt` then prints for it is not modelled. The config-error message is likewise recorded without `fmt`'s extra-argument text.
- `Strings.EqualFold` folds ASCII letters only. Go's Unicode simple folding is not modelled.
- `Krm.PathAnnotation` and `Krm.IndexAnnotation` read only the `internal.config.kubernetes.io/path` and `internal.config.kubernetes.io/index` annotations, and both return a string. The SDK's fallback to the legacy `config.kubernetes.io/*` keys and its integer index are not modelled.
- `ImageTag.Matches` compares names literally. kustomize matches with a pattern built from the name, where a '.' may match any character; that is not modelled.
- kustomize's image filter skips CustomResourceDefinition objects. The model filters every object whose GVK a field spec selects.
- `Krm.NestedBool` finds a native bool only. The SDK's other conversions are not modelled.
- `Transformer.SetImage.ConfigDefaultData`: Go map iteration order is unspecified. The method picks keys in an order the verifier does not fix. On error it states only that the error names a wrong key, not which one, nor how many fields were already written.
- `Transformer.SetImage.Configure` and `Transformer.SetImage.Run` return the configuration error as a ghost value that only their contracts use. The Go function does not expose it.
- `Transformer.SetImage.ApplyPasses` and `Transformer.SetImage.Configure` are parts of `Run`, split out so that each is proved on its own. Five other helpers are split the same way, each taking one Go loop: `Custom.TrackMutations`, `Custom.FilterObjects`, `Kubeconform.AppendErrors`, `Kubeconform.ValidateItems` and `PkgDocs.AppendConfigPaths`.
- The additional pass uses only the user's field specs, as `SetAdditionalFieldSpec` builds its filter from them alone. It does not merge them with the default catalog.
- `getMdHeading`, `kptfileutil.DecodeKptfile`, `node.String()` and `findResourcePath` are not part of this model. They are parameters (`mdHeading`, `Library`), and the Kptfile is a datatype with the fields the code reads.
- Nil and empty Go slices are not distinguished, except where the result differs: `getFnCfgPaths` without a pipeline returns `None`.
- Integers are unbounded. The counter in set-image cannot overflow in any realistic run.
- The `main.go` files, the sleep functions, list-setters and the archived example are command-line wiring or unrelated to this core.

## Findings

| source | as written | input that shows it | evidently intended | confidence | as-written member | corrected member |
|---|---|---|---|---|---|---|
| functions/go/kubeconform/kubeconform.go:82-92 | The loop keeps an object's results only when the object returned a non-nil error. The schema-load and unreadable-report cases build an Error result at lines 120-138 but return a nil error, so that result is discarded. | One item for which the validator prints text containing "Failed initializing schema file": `Run` returns true and appends no result. | The explanatory Error result reaches the result list. | not executed | `Kubeconform.SchemaFailureDropped` | `Kubeconform.RunKeepingAll` |
