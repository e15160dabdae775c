/** set-image's additional-field pass (functions/go/set-image/custom): the
    adaptors that decode the function config into kustomize types, the
    mutation callback that counts rewrites, and the pass that rewrites every
    object of a batch in place along user-given field specs. */
module Custom {
  import opened Krm
  import opened ImageTag

  /** The `*int` that the mutation callbacks of a run all add to. */
  class Counter {
    var value: nat

    constructor (start: nat)
      ensures value == start
    {
      value := start;
    }
  }

  /** The callback returned by LogResultCallback, called once per mutation:
      whatever the mutation, the shared count grows by exactly one. */
  method LogResultCallback(count: Counter)
    modifies count
    ensures count.value == old(count.value) + 1
  {
    count.value := count.value + 1;
  }

  /** The filter's mutation tracker: the callback runs once per mutation
      that fired, in order. */
  method TrackMutations(fired: seq<string>, count: Counter)
    modifies count
    ensures count.value == old(count.value) + |fired|
  {
    for j := 0 to |fired|
      invariant count.value == old(count.value) + j
    {
      LogResultCallback(count);
    }
  }

  // ---------------------------------------------------------------------
  // Adaptors: config sub-objects decoded into kustomize types
  // ---------------------------------------------------------------------

  /** NewImageAdaptor: the `image` sub-object read as a types.Image; a field
      that is absent or not a string reads as "". */
  function NewImageAdaptor(imgObj: Node): (img: Image)
  {
    Image(GetString(imgObj, "name"), GetString(imgObj, "newName"),
          GetString(imgObj, "newTag"), GetString(imgObj, "digest"))
  }

  /** How a types.Image is written as a mapping. */
  function ImageNode(img: Image): Node
  {
    Map([("name", Str(img.name)), ("newName", Str(img.newName)),
         ("newTag", Str(img.newTag)), ("digest", Str(img.digest))])
  }

  /** Decoding the mapping written from an image gives that image back. */
  lemma NewImageAdaptorRoundTrip(img: Image)
    ensures NewImageAdaptor(ImageNode(img)) == img
  {
    var es := ImageNode(img).entries;
    assert es[0].0 == "name" && es[1].0 == "newName" && es[2].0 == "newTag" && es[3].0 == "digest";
    assert Lookup(es, "name") == 0;
    assert Lookup(es, "newName") == 1;
    assert Lookup(es, "newTag") == 2;
    assert Lookup(es, "digest") == 3;
  }

  /** One element of `additionalImageFields` read as a types.FieldSpec: the
      GVK fields inline, `path`, and the `create` flag (false unless a
      boolean true is given). */
  function DecodeFieldSpec(v: Node): (fs: FieldSpec)
  {
    FieldSpec(Gvk(GetString(v, "group"), GetString(v, "version"), GetString(v, "kind")),
              GetString(v, "path"), NestedBool(v, "create") == Some(true))
  }

  /** How a types.FieldSpec is written as a mapping. */
  function FieldSpecNode(fs: FieldSpec): Node
  {
    Map([("group", Str(fs.gvk.group)), ("version", Str(fs.gvk.version)), ("kind", Str(fs.gvk.kind)),
         ("path", Str(fs.path)), ("create", Bool(fs.create))])
  }

  /** Decoding the mapping written from a field spec gives it back. */
  lemma DecodeFieldSpecRoundTrip(fs: FieldSpec)
    ensures DecodeFieldSpec(FieldSpecNode(fs)) == fs
  {
    var es := FieldSpecNode(fs).entries;
    assert es[0].0 == "group" && es[1].0 == "version" && es[2].0 == "kind";
    assert es[3].0 == "path" && es[4].0 == "create";
    assert Lookup(es, "group") == 0;
    assert Lookup(es, "version") == 1;
    assert Lookup(es, "kind") == 2;
    assert Lookup(es, "path") == 3;
    assert Lookup(es, "create") == 4;
  }

  /** The user selectors, element by element. */
  function DecodeFieldSpecs(vs: seq<Node>): (r: seq<FieldSpec>)
    ensures |r| == |vs|
  {
    if |vs| == 0 then [] else DecodeFieldSpecs(vs[..|vs| - 1]) + [DecodeFieldSpec(vs[|vs| - 1])]
  }

  /** NewFieldSpecSliceAdaptor: one field spec per input element, in input
      order and without deduplication. */
  method NewFieldSpecSliceAdaptor(addImgFields: seq<Node>) returns (additionalImageFields: seq<FieldSpec>)
    ensures additionalImageFields == DecodeFieldSpecs(addImgFields)
  {
    additionalImageFields := [];
    for i := 0 to |addImgFields|
      invariant additionalImageFields == DecodeFieldSpecs(addImgFields[..i])
    {
      assert addImgFields[..i + 1][..i] == addImgFields[..i];
      additionalImageFields := additionalImageFields + [DecodeFieldSpec(addImgFields[i])];
    }
    assert addImgFields[..|addImgFields|] == addImgFields;
  }

  /** One selector per element, in element order and without deduplication. */
  lemma {:induction false} DecodeFieldSpecsAt(vs: seq<Node>, k: nat)
    requires k < |vs|
    ensures |DecodeFieldSpecs(vs)| == |vs|
    ensures DecodeFieldSpecs(vs)[k] == DecodeFieldSpec(vs[k])
  {
    if k < |vs| - 1 {
      DecodeFieldSpecsAt(vs[..|vs| - 1], k);
    }
  }

  /** Decoding the written selectors gives them back, in order. */
  lemma DecodeFieldSpecsRoundTrip(specs: seq<FieldSpec>)
    ensures DecodeFieldSpecs(seq(|specs|, k requires 0 <= k < |specs| => FieldSpecNode(specs[k]))) == specs
  {
    var vs := seq(|specs|, k requires 0 <= k < |specs| => FieldSpecNode(specs[k]));
    forall k | 0 <= k < |specs|
      ensures DecodeFieldSpecs(vs)[k] == specs[k]
    {
      DecodeFieldSpecsAt(vs, k);
      DecodeFieldSpecRoundTrip(specs[k]);
    }
  }

  // ---------------------------------------------------------------------
  // One pass of the filter over a batch of objects
  // ---------------------------------------------------------------------

  /** What one object becomes: the filtered object, or the original one when
      the filter failed (the filter works on a copy of the object, and the
      copy is only written back on success). */
  function Kept(w: Walked, obj: Node): Node
  {
    if w.error.Some? then obj else w.node
  }

  /** The result recorded for the object at position `i`. */
  function Reported(w: Walked, i: nat): seq<Result>
  {
    if w.error.Some? then [Result(w.error.value, Error, Item(i))] else []
  }

  /** Proof helper: the shape of what one object reports. */
  lemma ReportedShape(w: Walked, i: nat)
    ensures |Reported(w, i)| == (if w.error.Some? then 1 else 0)
    ensures w.error.Some? ==> Reported(w, i)[0] == Result(w.error.value, Error, Item(i))
  {
  }

  /** The outcome of a pass: the objects, the number of mutations counted
      and the error results recorded. */
  datatype Batch = Batch(items: seq<Node>, fired: nat, errors: seq<Result>)

  /** What the filter does to each object of a batch. */
  function Outcomes(img: Image, specs: seq<FieldSpec>, objs: seq<Node>): (ws: seq<Walked>)
    ensures |ws| == |objs|
  {
    if |objs| == 0 then [] else [Filter(img, specs, objs[0])] + Outcomes(img, specs, objs[1..])
  }

  lemma {:induction false} OutcomeAt(img: Image, specs: seq<FieldSpec>, objs: seq<Node>, i: nat)
    requires i < |objs|
    ensures Outcomes(img, specs, objs)[i] == Filter(img, specs, objs[i])
  {
    if i > 0 {
      OutcomeAt(img, specs, objs[1..], i - 1);
    }
  }

  /** Going through a batch in order given each object's filter outcome: an
      error is recorded against its object and the pass goes on; every
      mutation that fired is counted, also on an object that then failed. */
  function Collect(objs: seq<Node>, ws: seq<Walked>): (b: Batch)
    requires |ws| == |objs|
    ensures |b.items| == |objs|
    decreases |objs|
  {
    if |objs| == 0 then Batch([], 0, [])
    else
      var i := |objs| - 1;
      var b := Collect(objs[..i], ws[..i]);
      Batch(b.items + [Kept(ws[i], objs[i])], b.fired + |ws[i].fired|, b.errors + Reported(ws[i], i))
  }

  /** Filtering every object in order with the same image and selectors. */
  function Pass(img: Image, specs: seq<FieldSpec>, objs: seq<Node>): Batch
  {
    Collect(objs, Outcomes(img, specs, objs))
  }

  /** Each object ends up as its own outcome made it. */
  lemma {:induction false} CollectItems(objs: seq<Node>, ws: seq<Walked>)
    requires |ws| == |objs|
    ensures forall i :: 0 <= i < |objs| ==> Collect(objs, ws).items[i] == Kept(ws[i], objs[i])
    decreases |objs|
  {
    if |objs| > 0 {
      var i := |objs| - 1;
      CollectItems(objs[..i], ws[..i]);
      var items := Collect(objs[..i], ws[..i]).items;
      assert Collect(objs, ws).items == items + [Kept(ws[i], objs[i])];
      forall k | 0 <= k < i
        ensures Collect(objs, ws).items[k] == Kept(ws[k], objs[k])
      {
        assert objs[..i][k] == objs[k] && ws[..i][k] == ws[k];
      }
    }
  }

  /** A pass keeps the number of objects, and each object becomes what the
      filter made of it alone, or stays as it was when the filter failed. */
  lemma PassItems(img: Image, specs: seq<FieldSpec>, objs: seq<Node>)
    ensures |Pass(img, specs, objs).items| == |objs|
    ensures forall i :: 0 <= i < |objs| ==>
      Pass(img, specs, objs).items[i] == (if Filter(img, specs, objs[i]).error.Some? then objs[i] else Filter(img, specs, objs[i]).node)
  {
    var ws := Outcomes(img, specs, objs);
    CollectItems(objs, ws);
    forall i | 0 <= i < |objs|
      ensures Pass(img, specs, objs).items[i] == Kept(Filter(img, specs, objs[i]), objs[i])
    {
      OutcomeAt(img, specs, objs, i);
    }
  }

  /** Going through one more object extends the batch of the prefix. */
  lemma CollectSnoc(objs: seq<Node>, ws: seq<Walked>, i: nat)
    requires |ws| == |objs| && i < |objs|
    ensures var b := Collect(objs[..i], ws[..i]);
      Collect(objs[..i + 1], ws[..i + 1])
        == Batch(b.items + [Kept(ws[i], objs[i])], b.fired + |ws[i].fired|, b.errors + Reported(ws[i], i))
  {
    assert objs[..i + 1][..i] == objs[..i];
    assert ws[..i + 1][..i] == ws[..i];
  }

  /** The number of mutations the outcomes fire, summed front to back. */
  function FiredTotal(ws: seq<Walked>): nat
  {
    if |ws| == 0 then 0 else |ws[0].fired| + FiredTotal(ws[1..])
  }

  lemma {:induction false} FiredTotalAppend(ws: seq<Walked>, w: Walked)
    ensures FiredTotal(ws + [w]) == FiredTotal(ws) + |w.fired|
  {
    if |ws| > 0 {
      assert (ws + [w])[1..] == ws[1..] + [w];
      FiredTotalAppend(ws[1..], w);
    } else {
      assert (ws + [w])[1..] == [];
    }
  }

  /** The count a pass adds is the total number of mutations fired over the
      whole batch. */
  lemma {:induction false} CollectFired(objs: seq<Node>, ws: seq<Walked>)
    requires |ws| == |objs|
    ensures Collect(objs, ws).fired == FiredTotal(ws)
    decreases |objs|
  {
    if |objs| > 0 {
      var i := |objs| - 1;
      CollectFired(objs[..i], ws[..i]);
      FiredTotalAppend(ws[..i], ws[i]);
      assert ws[..i] + [ws[i]] == ws;
    }
  }

  /** A recorded result that is the error of the outcome it names. */
  predicate RecordsFailure(e: Result, ws: seq<Walked>)
  {
    && e.severity == Error && e.subject.Item?
    && e.subject.index < |ws|
    && ws[e.subject.index].error == Some(e.message)
  }

  /** Each recorded error is an error-severity result about an object whose
      outcome failed with that message. */
  lemma {:induction false} CollectErrorsSound(objs: seq<Node>, ws: seq<Walked>)
    requires |ws| == |objs|
    ensures forall k :: 0 <= k < |Collect(objs, ws).errors| ==> RecordsFailure(Collect(objs, ws).errors[k], ws)
    decreases |objs|
  {
    if |objs| > 0 {
      var i := |objs| - 1;
      CollectErrorsSound(objs[..i], ws[..i]);
      var pes := Collect(objs[..i], ws[..i]).errors;
      var es := Collect(objs, ws).errors;
      assert es == pes + Reported(ws[i], i);
      ReportedShape(ws[i], i);
      forall k | 0 <= k < |es|
        ensures RecordsFailure(es[k], ws)
      {
        if k < |pes| {
          assert es[k] == pes[k];
          assert RecordsFailure(pes[k], ws[..i]);
          assert ws[..i][pes[k].subject.index] == ws[pes[k].subject.index];
        } else {
          assert es[k] == Reported(ws[i], i)[0];
        }
      }
    }
  }

  /** Every failed outcome has its error recorded. */
  lemma {:induction false} CollectErrorsComplete(objs: seq<Node>, ws: seq<Walked>, j: nat)
    requires |ws| == |objs|
    requires j < |objs| && ws[j].error.Some?
    ensures exists k :: 0 <= k < |Collect(objs, ws).errors| && Collect(objs, ws).errors[k].subject == Item(j)
    decreases |objs|
  {
    var i := |objs| - 1;
    var pes := Collect(objs[..i], ws[..i]).errors;
    var es := Collect(objs, ws).errors;
    assert es == pes + Reported(ws[i], i);
    ReportedShape(ws[i], i);
    if j == i {
      assert es[|pes|] == Reported(ws[i], i)[0];
    } else {
      assert ws[..i][j] == ws[j];
      CollectErrorsComplete(objs[..i], ws[..i], j);
      var k :| 0 <= k < |pes| && pes[k].subject == Item(j);
      assert es[k] == pes[k];
    }
  }

  /** The recorded errors follow the order of the objects. */
  lemma {:induction false} CollectErrorsOrdered(objs: seq<Node>, ws: seq<Walked>)
    requires |ws| == |objs|
    ensures forall k :: 0 <= k < |Collect(objs, ws).errors| ==>
      Collect(objs, ws).errors[k].subject.Item? && Collect(objs, ws).errors[k].subject.index < |objs|
    ensures forall k, l :: 0 <= k < l < |Collect(objs, ws).errors| ==>
      Collect(objs, ws).errors[k].subject.index < Collect(objs, ws).errors[l].subject.index
    decreases |objs|
  {
    if |objs| > 0 {
      var i := |objs| - 1;
      CollectErrorsOrdered(objs[..i], ws[..i]);
      var pes := Collect(objs[..i], ws[..i]).errors;
      var es := Collect(objs, ws).errors;
      assert es == pes + Reported(ws[i], i);
      ReportedShape(ws[i], i);
      forall k | 0 <= k < |es|
        ensures es[k].subject.Item? && es[k].subject.index < |objs|
      {
        if k < |pes| { assert es[k] == pes[k]; } else { assert es[k] == Reported(ws[i], i)[0]; }
      }
      forall k, l | 0 <= k < l < |es|
        ensures es[k].subject.index < es[l].subject.index
      {
        assert es[k] == pes[k];
        if l < |pes| { assert es[l] == pes[l]; } else { assert es[l] == Reported(ws[i], i)[0]; }
      }
    }
  }

  /** The count a pass adds is the number of mutations its filter fired,
      summed over the objects. */
  lemma PassFired(img: Image, specs: seq<FieldSpec>, objs: seq<Node>)
    ensures Pass(img, specs, objs).fired == FiredTotal(Outcomes(img, specs, objs))
  {
    CollectFired(objs, Outcomes(img, specs, objs));
  }

  /** A pass records an error exactly when the filter fails on some object,
      and each recorded error is the failure of the object it names. */
  lemma PassErrors(img: Image, specs: seq<FieldSpec>, objs: seq<Node>)
    ensures HasError(Pass(img, specs, objs).errors)
      <==> exists i :: 0 <= i < |objs| && Filter(img, specs, objs[i]).error.Some?
    ensures forall k :: 0 <= k < |Pass(img, specs, objs).errors| ==>
      && Pass(img, specs, objs).errors[k].subject.Item?
      && Pass(img, specs, objs).errors[k].subject.index < |objs|
      && Filter(img, specs, objs[Pass(img, specs, objs).errors[k].subject.index]).error
         == Some(Pass(img, specs, objs).errors[k].message)
  {
    var ws := Outcomes(img, specs, objs);
    var es := Pass(img, specs, objs).errors;
    CollectErrorsSound(objs, ws);
    assert es == Collect(objs, ws).errors;
    forall k | 0 <= k < |es|
      ensures es[k].subject.Item? && es[k].subject.index < |objs|
      ensures Filter(img, specs, objs[es[k].subject.index]).error == Some(es[k].message)
    {
      assert RecordsFailure(es[k], ws);
      OutcomeAt(img, specs, objs, es[k].subject.index);
    }
    if HasError(es) {
      var k :| 0 <= k < |es| && es[k].severity == Error;
      assert RecordsFailure(es[k], ws);
      OutcomeAt(img, specs, objs, es[k].subject.index);
    }
    if i :| 0 <= i < |objs| && Filter(img, specs, objs[i]).error.Some? {
      OutcomeAt(img, specs, objs, i);
      CollectErrorsComplete(objs, ws, i);
      var k :| 0 <= k < |es| && es[k].subject == Item(i);
      assert es[k].severity == Error;
    }
  }

  /** What a pass records about object `j`: nothing when its filter
      succeeded; when it failed, an Error result naming `j` with the
      filter's message. No two recorded errors name the same object. */
  lemma PassErrorOf(img: Image, specs: seq<FieldSpec>, objs: seq<Node>, j: nat)
    requires j < |objs|
    ensures Filter(img, specs, objs[j]).error.None? ==>
      forall k :: 0 <= k < |Pass(img, specs, objs).errors| ==> Pass(img, specs, objs).errors[k].subject != Item(j)
    ensures Filter(img, specs, objs[j]).error.Some? ==>
      exists k :: 0 <= k < |Pass(img, specs, objs).errors|
        && Pass(img, specs, objs).errors[k] == Result(Filter(img, specs, objs[j]).error.value, Error, Item(j))
    ensures forall k, l :: 0 <= k < l < |Pass(img, specs, objs).errors| ==>
      Pass(img, specs, objs).errors[k].subject != Pass(img, specs, objs).errors[l].subject
  {
    var ws := Outcomes(img, specs, objs);
    var es := Pass(img, specs, objs).errors;
    assert es == Collect(objs, ws).errors;
    OutcomeAt(img, specs, objs, j);
    CollectErrorsSound(objs, ws);
    CollectErrorsOrdered(objs, ws);
    forall k | 0 <= k < |es| && es[k].subject == Item(j)
      ensures ws[j].error == Some(es[k].message) && es[k].severity == Error
    {
      assert RecordsFailure(es[k], ws);
    }
    if ws[j].error.Some? {
      CollectErrorsComplete(objs, ws, j);
      var k :| 0 <= k < |es| && es[k].subject == Item(j);
      assert es[k] == Result(ws[j].error.value, Error, Item(j));
    }
  }

  /** Proof helper: replacing the first element after a prefix. */
  lemma ReplaceAfter(items: seq<Node>, rest: seq<Node>, v: Node)
    requires |rest| > 0
    ensures (items + rest)[|items| := v] == items + [v] + rest[1..]
  {
  }

  /** One round of the loop, on values: if the objects are the batch of
      the first `i` outcomes followed by the untouched rest, then replacing
      object `i` as its outcome says gives the batch of the first `i + 1`. */
  lemma LoopStep(img: Image, specs: seq<FieldSpec>, objs: seq<Node>, i: nat, before: seq<Node>, w: Walked)
    requires i < |objs|
    requires before == Collect(objs[..i], Outcomes(img, specs, objs)[..i]).items + objs[i..]
    requires w == Filter(img, specs, before[i])
    ensures var ws := Outcomes(img, specs, objs);
      && before[i := Kept(w, before[i])] == Collect(objs[..i + 1], ws[..i + 1]).items + objs[i + 1..]
      && Collect(objs[..i + 1], ws[..i + 1]).fired == Collect(objs[..i], ws[..i]).fired + |w.fired|
      && Collect(objs[..i + 1], ws[..i + 1]).errors == Collect(objs[..i], ws[..i]).errors + Reported(w, i)
  {
    var ws := Outcomes(img, specs, objs);
    var items := Collect(objs[..i], ws[..i]).items;
    assert before[i] == objs[i] by {
      assert (items + objs[i..])[i] == objs[i..][0];
    }
    OutcomeAt(img, specs, objs, i);
    CollectSnoc(objs, ws, i);
    ReplaceAfter(items, objs[i..], Kept(ws[i], objs[i]));
    assert objs[i..][1..] == objs[i + 1..];
  }

  /** Proof helper: regrouping a concatenation of result lists. */
  lemma AppendResults(a: seq<Result>, b: seq<Result>, c: seq<Result>)
    ensures a + b + c == a + (b + c)
  {
  }

  /** One round of SetAdditionalFieldSpec's loop: filter the object at
      position `i`, count each mutation through the callback, record a
      failure against the object, and write the object back. */
  method FilterObject(image: Image, specs: seq<FieldSpec>, objects: array<Node>, i: nat, res: Results, count: Counter)
      returns (w: Walked)
    requires i < objects.Length
    modifies objects, res, count
    ensures w == Filter(image, specs, old(objects[i]))
    ensures objects[..] == old(objects[..])[i := Kept(w, old(objects[i]))]
    ensures count.value == old(count.value) + |w.fired|
    ensures res.entries == old(res.entries) + Reported(w, i)
  {
    var obj := objects[i];
    w := Filter(image, specs, obj);
    TrackMutations(w.fired, count);
    if w.error.Some? {
      res.Errorf(w.error.value, Item(i));
    }
    objects[i] := Kept(w, obj);
  }

  /** The loop of SetAdditionalFieldSpec: every object, in order, is
      filtered with the same image and selectors and replaced in place. */
  method FilterObjects(image: Image, specs: seq<FieldSpec>, objects: array<Node>, res: Results, count: Counter)
    modifies objects, res, count
    ensures objects[..] == Pass(image, specs, old(objects[..])).items
    ensures count.value == old(count.value) + Pass(image, specs, old(objects[..])).fired
    ensures res.entries == old(res.entries) + Pass(image, specs, old(objects[..])).errors
  {
    ghost var objs := objects[..];
    ghost var res0 := res.entries;
    ghost var count0 := count.value;
    ghost var ws := Outcomes(image, specs, objs);
    ghost var b := Batch([], 0, []);
    for i := 0 to objects.Length
      invariant b == Collect(objs[..i], ws[..i])
      invariant objects[..] == b.items + objs[i..]
      invariant count.value == count0 + b.fired
      invariant res.entries == res0 + b.errors
    {
      ghost var before := objects[..];
      var w := FilterObject(image, specs, objects, i, res, count);
      LoopStep(image, specs, objs, i, before, w);
      AppendResults(res0, b.errors, Reported(w, i));
      b := Collect(objs[..i + 1], ws[..i + 1]);
    }
    assert objs == objs[..objects.Length] && ws == ws[..objects.Length];
  }

  /** The pass made with an image and selectors still in their document form. */
  function DecodedPass(img: Node, addImgFields: seq<Node>, objs: seq<Node>): Batch
  {
    Pass(NewImageAdaptor(img), DecodeFieldSpecs(addImgFields), objs)
  }

  /** SetAdditionalFieldSpec: decode the image and the user selectors once
      up front, then filter every object with them; the objects, the shared
      count and the results end up as the pass says. */
  method SetAdditionalFieldSpec(img: Node, objects: array<Node>, addImgFields: seq<Node>, res: Results, count: Counter)
    modifies objects, res, count
    ensures objects[..] == DecodedPass(img, addImgFields, old(objects[..])).items
    ensures count.value == old(count.value) + DecodedPass(img, addImgFields, old(objects[..])).fired
    ensures res.entries == old(res.entries) + DecodedPass(img, addImgFields, old(objects[..])).errors
  {
    var image := NewImageAdaptor(img);
    var additionalImageFields := NewFieldSpecSliceAdaptor(addImgFields);
    FilterObjects(image, additionalImageFields, objects, res, count);
  }
}
