/** The recursive merge of JSON objects, and what it does path by path. */
module ConfigMerge {
  import opened Wrappers

  /** JSON values; an array, number, string or null is replaced whole, so its text stands
      for it. */
  datatype Value = Bool(flag: bool) | Plain(text: string) | Object(fields: map<string, Value>)

  /** `overlay` merged into `base`. */
  function Merge(base: Value, overlay: Value): Value
    decreases overlay
  {
    if base.Object? && overlay.Object? then
      Object(map k | k in base.fields.Keys + overlay.fields.Keys ::
        if k !in overlay.fields then base.fields[k]
        else if k in base.fields then Merge(base.fields[k], overlay.fields[k])
        else overlay.fields[k])
    else overlay
  }

  /** While the overlay's keys in `todo` are still to be merged: the others already have
      their final values. */
  ghost predicate Partial(base: map<string, Value>, overlay: map<string, Value>, target: map<string, Value>,
                          todo: set<string>, fields: map<string, Value>)
    requires target.Keys == base.Keys + overlay.Keys
  {
    && todo <= overlay.Keys
    && fields.Keys == base.Keys + (overlay.Keys - todo)
    && forall k :: k in fields ==> fields[k] == if k in overlay && k !in todo then target[k] else base[k]
  }

  lemma PartialStep(base: map<string, Value>, overlay: map<string, Value>, target: map<string, Value>,
                    todo: set<string>, fields: map<string, Value>, k: string)
    requires target.Keys == base.Keys + overlay.Keys
    requires Partial(base, overlay, target, todo, fields) && k in todo
    ensures Partial(base, overlay, target, todo - {k}, fields[k := target[k]])
  {
  }

  lemma PartialStart(base: map<string, Value>, overlay: map<string, Value>, target: map<string, Value>)
    requires target.Keys == base.Keys + overlay.Keys
    ensures Partial(base, overlay, target, overlay.Keys, base)
  {
  }

  lemma PartialEnd(base: map<string, Value>, overlay: map<string, Value>, target: map<string, Value>,
                   fields: map<string, Value>)
    requires target.Keys == base.Keys + overlay.Keys
    requires Partial(base, overlay, target, {}, fields)
    requires forall k :: k in base && k !in overlay ==> target[k] == base[k]
    ensures fields == target
  {
  }

  lemma PartialBase(base: map<string, Value>, overlay: map<string, Value>, target: map<string, Value>,
                    todo: set<string>, fields: map<string, Value>, k: string)
    requires target.Keys == base.Keys + overlay.Keys
    requires Partial(base, overlay, target, todo, fields) && k in todo
    ensures k in overlay && (k in fields <==> k in base) && (k in fields ==> fields[k] == base[k])
  {
  }

  /** `deep_merge`. */
  method DeepMerge(base: Value, overlay: Value) returns (merged: Value)
    requires base.Object? && overlay.Object?
    ensures merged == Merge(base, overlay)
    decreases overlay
  {
    hide Merge, Partial;
    KeysAreUnion(base, overlay);
    ghost var target := Merge(base, overlay).fields;
    var fields := base.fields;
    var todo := overlay.fields.Keys;
    PartialStart(base.fields, overlay.fields, target);
    while todo != {}
      invariant Partial(base.fields, overlay.fields, target, todo, fields)
      decreases |todo|
    {
      var k :| k in todo;
      PartialBase(base.fields, overlay.fields, target, todo, fields, k);
      MergeField(base, overlay, k);
      var value := overlay.fields[k];
      if k in fields && fields[k].Object? && value.Object? {
        value := DeepMerge(fields[k], value);
      }
      PartialStep(base.fields, overlay.fields, target, todo, fields, k);
      fields := fields[k := value];
      todo := todo - {k};
    }
    BaseIsKept(base, overlay);
    PartialEnd(base.fields, overlay.fields, target, fields);
    merged := Object(fields);
  }

  lemma BaseIsKept(base: Value, overlay: Value)
    requires base.Object? && overlay.Object?
    ensures forall k :: k in base.fields && k !in overlay.fields ==>
      Merge(base, overlay).Object? && k in Merge(base, overlay).fields && Merge(base, overlay).fields[k] == base.fields[k]
  {
    hide Merge;
    forall k | k in base.fields && k !in overlay.fields
      ensures Merge(base, overlay).Object? && k in Merge(base, overlay).fields && Merge(base, overlay).fields[k] == base.fields[k]
    {
      MergeField(base, overlay, k);
    }
  }

  lemma MergeField(base: Value, overlay: Value, k: string)
    requires base.Object? && overlay.Object? && (k in base.fields || k in overlay.fields)
    ensures Merge(base, overlay).Object? && k in Merge(base, overlay).fields
    ensures Merge(base, overlay).fields[k] ==
      if k !in overlay.fields then base.fields[k]
      else if k in base.fields && base.fields[k].Object? && overlay.fields[k].Object? then
        Merge(base.fields[k], overlay.fields[k])
      else overlay.fields[k]
  {
  }

  // ---- By path

  function At(v: Value, path: seq<string>): Option<Value> {
    if path == [] then Some(v)
    else if v.Object? && path[0] in v.fields then At(v.fields[path[0]], path[1..])
    else None
  }

  /** Some proper prefix of the path holds a value that is no object. */
  predicate CutsOff(v: Value, path: seq<string>) {
    path != [] && (!v.Object? || (path[0] in v.fields && CutsOff(v.fields[path[0]], path[1..])))
  }

  lemma {:induction false} CutsOffMeans(v: Value, path: seq<string>)
    ensures CutsOff(v, path) <==> exists n :: 0 <= n < |path| && At(v, path[..n]).Some? && !At(v, path[..n]).value.Object?
  {
    if path != [] && v.Object? && path[0] in v.fields {
      var w, rest := v.fields[path[0]], path[1..];
      CutsOffMeans(w, rest);
      forall n | 0 < n < |path| ensures At(v, path[..n]) == At(w, rest[..n - 1]) {
        assert path[..n][1..] == rest[..n - 1];
      }
      if CutsOff(w, rest) {
        var m :| 0 <= m < |rest| && At(w, rest[..m]).Some? && !At(w, rest[..m]).value.Object?;
        assert At(v, path[..m + 1]) == At(w, rest[..m]);
      }
    } else if path != [] {
      assert At(v, path[..0]) == Some(v);
      if v.Object? {
        assert forall n :: 0 < n < |path| ==> At(v, path[..n]).None?;
      }
    }
  }

  /** The merge at every path: where the overlay has a value, that value, merged into the
      base's if both are there; elsewhere the base's value, unless the overlay put
      something that is no object on the way. */
  lemma {:induction false} MergeAt(base: Value, overlay: Value, path: seq<string>)
    ensures At(Merge(base, overlay), path) ==
      if At(overlay, path).Some? then
        Some(if At(base, path).Some? then Merge(At(base, path).value, At(overlay, path).value) else At(overlay, path).value)
      else if CutsOff(overlay, path) then None
      else At(base, path)
  {
    if path != [] && base.Object? && overlay.Object? && path[0] in base.fields && path[0] in overlay.fields {
      MergeAt(base.fields[path[0]], overlay.fields[path[0]], path[1..]);
    }
  }

  /** A value of the overlay that is no object always ends up at its path. */
  lemma OverlayWins(base: Value, overlay: Value, path: seq<string>)
    requires At(overlay, path).Some? && !At(overlay, path).value.Object?
    ensures At(Merge(base, overlay), path) == At(overlay, path)
  {
    MergeAt(base, overlay, path);
  }

  /** Merging the same overlay again changes nothing, and a value merged into itself is
      itself. */
  lemma {:induction false} MergeSelf(v: Value)
    ensures Merge(v, v) == v
  {
    if v.Object? {
      forall k | k in v.fields ensures Merge(v.fields[k], v.fields[k]) == v.fields[k] {
        MergeSelf(v.fields[k]);
      }
      assert Merge(v, v).fields == v.fields;
    }
  }

  lemma {:induction false} MergeTwice(base: Value, overlay: Value)
    ensures Merge(Merge(base, overlay), overlay) == Merge(base, overlay)
    decreases overlay
  {
    MergeSelf(overlay);
    if base.Object? && overlay.Object? {
      var m := Merge(base, overlay);
      forall k | k in overlay.fields ensures Merge(m.fields[k], overlay.fields[k]) == m.fields[k] {
        if k in base.fields {
          MergeTwice(base.fields[k], overlay.fields[k]);
        } else {
          MergeSelf(overlay.fields[k]);
        }
      }
      assert Merge(m, overlay).fields == m.fields;
    }
  }

  lemma KeysAreUnion(base: Value, overlay: Value)
    requires base.Object? && overlay.Object?
    ensures Merge(base, overlay).Object?
    ensures Merge(base, overlay).fields.Keys == base.fields.Keys + overlay.fields.Keys
  {
  }
}
