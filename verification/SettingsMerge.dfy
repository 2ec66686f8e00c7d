/** Deep-merging a settings patch, compared with JSON Merge Patch (RFC 7396), and resolving stored
    overrides against defaults. */
module SettingsMerge {
  import opened Base

  /** A number is an integer or a float, as `as_i64` and `as_f64` tell them apart. */
  datatype Json =
    | Null
    | Bool(b: bool)
    | Int(i: int)
    | Float(f: real)
    | Str(s: string)
    | Arr(items: seq<Json>)
    | Obj(fields: map<string, Json>)

  // ---- apply_patch ----------------------------------------------------------------------

  /** Objects merge key by key, a null deletes its key, anything else replaces. */
  function ApplyPatch(target: Json, patch: Json): (r: Json)
    decreases patch
  {
    if !target.Obj? || !patch.Obj? then patch
    else
      var t, p := target.fields, patch.fields;
      Obj(map k | k in t.Keys + p.Keys && (k in p ==> p[k] != Null) ::
            if k !in p then t[k]
            else if p[k].Obj? && k in t && t[k].Obj? then ApplyPatch(t[k], p[k])
            else p[k])
  }

  /** The loop over the patch's entries, in any order, on the target's own map. */
  method ApplyInPlace(target: Json, patch: Json) returns (result: Json)
    ensures result == ApplyPatch(target, patch)
    decreases patch
  {
    if !target.Obj? || !patch.Obj? {
      return patch;
    }
    var t, p := target.fields, patch.fields;
    ghost var want := ApplyPatch(target, patch).fields;
    var todo := p.Keys;
    while todo != {}
      invariant todo <= p.Keys
      invariant forall k :: k in p && k !in todo ==> (k in t <==> k in want) && (k in t ==> t[k] == want[k])
      invariant forall k :: k in todo || k !in p ==>
        (k in t <==> k in target.fields) && (k in t ==> t[k] == target.fields[k])
      decreases todo
    {
      var k :| k in todo;
      todo := todo - {k};
      var v := p[k];
      if v == Null {
        t := t - {k};
      } else if v.Obj? && k in t && t[k].Obj? {
        var merged := ApplyInPlace(t[k], v);
        t := t[k := merged];
      } else {
        t := t[k := v];
      }
    }
    assert t == want;
    return Obj(t);
  }

  // ---- RFC 7396 -------------------------------------------------------------------------

  /** MergePatch of section 2 of RFC 7396: a target that is missing (given as null) or not an object
      is first replaced by the empty object. */
  function MergePatch(target: Json, patch: Json): (r: Json)
    decreases patch
  {
    if !patch.Obj? then patch
    else
      var t := FieldsOf(target);
      var p := patch.fields;
      Obj(map k | k in t.Keys + p.Keys && (k in p ==> p[k] != Null) ::
            if k in p then MergePatch(Member(target, k), p[k]) else t[k])
  }

  function FieldsOf(j: Json): map<string, Json> { if j.Obj? then j.fields else map[] }

  function Member(j: Json, k: string): Json { if j.Obj? && k in j.fields then j.fields[k] else Null }

  /** No object reached through objects alone has a null member. */
  ghost predicate NullFree(p: Json)
    decreases p
  {
    p.Obj? ==> forall k :: k in p.fields ==> p.fields[k] != Null && NullFree(p.fields[k])
  }

  /** Every patch object that lands on something other than an object is null-free. */
  ghost predicate Compatible(target: Json, patch: Json)
    decreases patch
  {
    patch.Obj? ==>
      if target.Obj? then forall k :: k in patch.fields ==> Compatible(Member(target, k), patch.fields[k])
      else NullFree(patch)
  }

  /** Merging into a non-object returns the patch itself exactly when the patch is null-free. */
  lemma {:induction false} MergeIntoNothing(target: Json, patch: Json)
    requires !target.Obj?
    ensures MergePatch(target, patch) == patch <==> NullFree(patch)
    decreases patch
  {
    if patch.Obj? {
      var p, m := patch.fields, MergePatch(target, patch).fields;
      forall k | k in p && p[k] != Null
        ensures m[k] == p[k] <==> NullFree(p[k])
      {
        MergeIntoNothing(Null, p[k]);
      }
      if NullFree(patch) {
        assert m == p;
      } else {
        var k :| k in p && (p[k] == Null || !NullFree(p[k]));
        assert k !in m || m[k] != p[k];
      }
    }
  }

  /** `apply_patch` is the RFC's merge exactly on compatible patches. */
  lemma {:induction false} ApplyIsMergePatch(target: Json, patch: Json)
    ensures ApplyPatch(target, patch) == MergePatch(target, patch) <==> Compatible(target, patch)
    decreases patch
  {
    if patch.Obj? {
      if !target.Obj? {
        MergeIntoNothing(target, patch);
      } else {
        var p, a, m := patch.fields, ApplyPatch(target, patch).fields, MergePatch(target, patch).fields;
        assert a.Keys == m.Keys;
        forall k | k in p && p[k] != Null
          ensures a[k] == m[k] <==> Compatible(Member(target, k), p[k])
        {
          EntryIsMergePatch(target, patch, k);
        }
        if Compatible(target, patch) {
          assert a == m;
        } else {
          var k :| k in p && !Compatible(Member(target, k), p[k]);
          assert a[k] != m[k];
        }
      }
    }
  }

  lemma {:induction false} EntryIsMergePatch(target: Json, patch: Json, k: string)
    requires target.Obj? && patch.Obj? && k in patch.fields && patch.fields[k] != Null
    ensures ApplyPatch(target, patch).fields[k] == MergePatch(target, patch).fields[k]
       <==> Compatible(Member(target, k), patch.fields[k])
    decreases patch, 0
  {
    var v, old' := patch.fields[k], Member(target, k);
    ApplyIsMergePatch(old', v);
    assert v.Obj? && !old'.Obj? ==> ApplyPatch(old', v) == v;
  }

  // ---- Applying a patch twice --------------------------------------------------------------

  /** A patch applied to itself changes nothing exactly when it is null-free. */
  lemma {:induction false} ApplyToItself(patch: Json)
    ensures ApplyPatch(patch, patch) == patch <==> NullFree(patch)
    decreases patch
  {
    if patch.Obj? {
      var p, a := patch.fields, ApplyPatch(patch, patch).fields;
      forall k | k in p && p[k] != Null ensures a[k] == p[k] <==> NullFree(p[k]) {
        ApplyToItself(p[k]);
      }
      if NullFree(patch) {
        assert a == p;
      } else {
        var k :| k in p && (p[k] == Null || !NullFree(p[k]));
        assert k !in a || a[k] != p[k];
      }
    }
  }

  /** Applying the same patch again changes nothing exactly when it was compatible the first time. */
  lemma {:induction false} ApplyTwice(target: Json, patch: Json)
    ensures ApplyPatch(ApplyPatch(target, patch), patch) == ApplyPatch(target, patch)
       <==> Compatible(target, patch)
    decreases patch
  {
    if patch.Obj? {
      if !target.Obj? {
        ApplyToItself(patch);
      } else {
        var once := ApplyPatch(target, patch);
        var p, a, b := patch.fields, once.fields, ApplyPatch(once, patch).fields;
        assert a.Keys == b.Keys;
        forall k | k in p && p[k] != Null
          ensures b[k] == a[k] <==> Compatible(Member(target, k), p[k])
        {
          EntryTwice(target, patch, k);
        }
        if Compatible(target, patch) {
          assert b == a;
        } else {
          var k :| k in p && !Compatible(Member(target, k), p[k]);
          assert b[k] != a[k];
        }
      }
    }
  }

  lemma {:induction false} EntryTwice(target: Json, patch: Json, k: string)
    requires target.Obj? && patch.Obj? && k in patch.fields && patch.fields[k] != Null
    ensures var once := ApplyPatch(target, patch);
      ApplyPatch(once, patch).fields[k] == once.fields[k] <==> Compatible(Member(target, k), patch.fields[k])
    decreases patch, 0
  {
    var v, old' := patch.fields[k], Member(target, k);
    ApplyTwice(old', v);
    assert ApplyPatch(target, patch).fields[k] == ApplyPatch(old', v);
  }

  /** So it is not idempotent in general: a nested null inserted under a new key is gone after the
      second application. */
  lemma NotIdempotent()
    ensures var p := Obj(map["a" := Obj(map["x" := Null])]);
      ApplyPatch(Obj(map[]), p) == p && ApplyPatch(p, p) == Obj(map["a" := Obj(map[])])
  {
    var inner := Obj(map["x" := Null]);
    var p := Obj(map["a" := inner]);
    assert ApplyPatch(inner, inner).fields == map[];
    assert ApplyPatch(p, p).fields == map["a" := Obj(map[])];
    assert ApplyPatch(Obj(map[]), p).fields == p.fields;
  }

  // ---- What a patch leaves alone -----------------------------------------------------------

  /** The value at the end of a path of keys, if there is one. */
  function Lookup(j: Json, path: seq<string>): Option<Json>
    decreases |path|
  {
    if path == [] then Some(j)
    else if j.Obj? && path[0] in j.fields then Lookup(j.fields[path[0]], path[1..])
    else None
  }

  /** The patch says something about `path` or about a point on the way to it. */
  predicate Touches(patch: Json, path: seq<string>)
    decreases |path|
  {
    if path == [] || !patch.Obj? then true
    else path[0] in patch.fields && Touches(patch.fields[path[0]], path[1..])
  }

  /** A path the patch does not touch leads to the same value as before, at every depth. */
  lemma {:induction false} UntouchedUnchanged(target: Json, patch: Json, path: seq<string>)
    requires !Touches(patch, path)
    ensures Lookup(ApplyPatch(target, patch), path) == Lookup(target, path)
    decreases |path|
  {
    var k := path[0];
    if target.Obj? {
      if k in patch.fields {
        UntouchedUnchanged(Member(target, k), patch.fields[k], path[1..]);
        NothingAlong(patch.fields[k], path[1..]);
      }
    } else {
      NothingAlong(patch, path);
    }
  }

  lemma {:induction false} NothingAlong(patch: Json, path: seq<string>)
    requires !Touches(patch, path)
    ensures Lookup(patch, path) == None
    decreases |path|
  {
    if path[0] in patch.fields {
      NothingAlong(patch.fields[path[0]], path[1..]);
    }
  }
}
