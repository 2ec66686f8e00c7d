/** Resolving settings through a ten-second cache in front of the stored overrides. */
module SettingsStore {
  import opened Base
  import opened SettingsMerge

  const CACHE_TTL_MS: nat := 10_000

  // ---- Defaults, overrides, clamps ---------------------------------------------------------

  datatype FloatBound = FloatBound(key: string, lo: real, hi: real)
  datatype IntBound = IntBound(key: string, lo: int, hi: int)

  /** A settings scope: its defaults and the numeric keys it clamps. */
  datatype Scope = Scope(defaults: map<string, Json>, floats: seq<FloatBound>, ints: seq<IntBound>)

  /** The clamps of the org scope. */
  const ORG_FLOATS: seq<FloatBound> := [
    FloatBound("autoMergeConfidence", 0.0, 100.0), FloatBound("dedupCosine", 0.0, 1.0),
    FloatBound("conflictSubjectCosine", 0.0, 1.0), FloatBound("ontologyLinkMaxDistance", 0.0, 1.0),
    FloatBound("budgetMonthlyLimitUsd", 0.0, 1_000_000.0)]

  const ORG_INTS: seq<IntBound> := [
    IntBound("maxCorrelateClaims", 1, 5000), IntBound("parseAiMaxPages", 1, 500),
    IntBound("claimsMaxChunks", 1, 2000), IntBound("contextualMaxChunks", 0, 5000),
    IntBound("searchRrfK", 1, 1000), IntBound("searchCandidates", 1, 500), IntBound("searchTopK", 1, 200),
    IntBound("searchSnippetLength", 40, 2000), IntBound("budgetSoftThresholdPct", 0, 100)]

  function AsReal(j: Json): Option<real> {
    match j case Int(i) => Some(i as real) case Float(f) => Some(f) case _ => None
  }

  function ClampFloat(v: map<string, Json>, b: FloatBound): map<string, Json> {
    if b.key in v && AsReal(v[b.key]).Some? then
      var n := AsReal(v[b.key]).value;
      v[b.key := Float(if n < b.lo then b.lo else if n > b.hi then b.hi else n)]
    else v
  }

  function ClampInt(v: map<string, Json>, b: IntBound): map<string, Json> {
    if b.key in v && v[b.key].Int? then v[b.key := Int(Max(b.lo, Min(v[b.key].i, b.hi)))] else v
  }

  function ClampFloats(v: map<string, Json>, bounds: seq<FloatBound>): map<string, Json> {
    if bounds == [] then v else ClampFloat(ClampFloats(v, bounds[..|bounds| - 1]), bounds[|bounds| - 1])
  }

  function ClampInts(v: map<string, Json>, bounds: seq<IntBound>): map<string, Json> {
    if bounds == [] then v else ClampInt(ClampInts(v, bounds[..|bounds| - 1]), bounds[|bounds| - 1])
  }

  /** A stored top-level key replaces the default for that key; then the numbers are clamped. */
  function MergeAndClamp(scope: Scope, overrides: Json): map<string, Json> {
    ClampInts(ClampFloats(scope.defaults + FieldsOf(overrides), scope.floats), scope.ints)
  }

  /** `org_i64`: the resolved value when it is an integer, else the caller's default. */
  function ReadInt(v: map<string, Json>, key: string, default: int): int {
    if key in v && v[key].Int? then v[key].i else default
  }

  lemma {:induction false} FloatsLeaveInts(v: map<string, Json>, bounds: seq<FloatBound>, key: string)
    requires forall b :: b in bounds ==> b.key != key
    ensures key in ClampFloats(v, bounds) <==> key in v
    ensures key in v ==> ClampFloats(v, bounds)[key] == v[key]
  {
    if bounds == [] {
    } else {
      FloatsLeaveInts(v, bounds[..|bounds| - 1], key);
    }
  }

  lemma {:induction false} IntsLeaveOthers(v: map<string, Json>, bounds: seq<IntBound>, key: string)
    requires forall b :: b in bounds ==> b.key != key
    ensures key in ClampInts(v, bounds) <==> key in v
    ensures key in v ==> ClampInts(v, bounds)[key] == v[key]
  {
    if bounds == [] {
    } else {
      IntsLeaveOthers(v, bounds[..|bounds| - 1], key);
    }
  }

  ghost predicate DistinctKeys(scope: Scope) {
    && (forall i, j :: 0 <= i < j < |scope.ints| ==> scope.ints[i].key != scope.ints[j].key)
    && (forall i, j :: 0 <= i < j < |scope.floats| ==> scope.floats[i].key != scope.floats[j].key)
    && (forall f, b :: f in scope.floats && b in scope.ints ==> f.key != b.key)
  }

  lemma {:induction false} ClampIntsAt(v: map<string, Json>, bounds: seq<IntBound>, n: nat)
    requires n < |bounds| && forall i, j :: 0 <= i < j < |bounds| ==> bounds[i].key != bounds[j].key
    ensures var key := bounds[n].key; var r := ClampInts(v, bounds);
      && (key in r <==> key in v)
      && (key in v ==> r[key] == if v[key].Int? then Int(Max(bounds[n].lo, Min(v[key].i, bounds[n].hi))) else v[key])
  {
    var last := |bounds| - 1;
    if n < last {
      ClampIntsAt(v, bounds[..last], n);
    } else {
      IntsLeaveOthers(v, bounds[..last], bounds[n].key);
    }
  }

  /** Whatever was stored, reading a clamped integer key yields a value within its bounds, or the
      caller's default when the stored value is not an integer. */
  lemma ReadsAreInRange(scope: Scope, overrides: Json, n: nat, default: int)
    requires DistinctKeys(scope) && n < |scope.ints| && scope.ints[n].lo <= scope.ints[n].hi
    requires scope.ints[n].lo <= default <= scope.ints[n].hi
    ensures scope.ints[n].lo <= ReadInt(MergeAndClamp(scope, overrides), scope.ints[n].key, default) <= scope.ints[n].hi
  {
    var b := scope.ints[n];
    ClampIntsAt(ClampFloats(scope.defaults + FieldsOf(overrides), scope.floats), scope.ints, n);
  }

  /** `org_f64`: the resolved value when it is a number, else the caller's default. */
  function ReadFloat(v: map<string, Json>, key: string, default: real): real {
    if key in v && AsReal(v[key]).Some? then AsReal(v[key]).value else default
  }

  /** The nearest number within the bounds. */
  ghost predicate IsNearest(x: real, lo: real, hi: real, y: real) {
    lo <= y <= hi && (lo <= x <= hi ==> y == x) && (x < lo ==> y == lo) && (x > hi ==> y == hi)
  }

  lemma {:induction false} ClampFloatsAt(v: map<string, Json>, bounds: seq<FloatBound>, n: nat)
    requires n < |bounds| && bounds[n].lo <= bounds[n].hi
    requires forall i, j :: 0 <= i < j < |bounds| ==> bounds[i].key != bounds[j].key
    ensures var key := bounds[n].key; var r := ClampFloats(v, bounds);
      && (key in r <==> key in v)
      && (key in v ==>
            if AsReal(v[key]).Some?
            then r[key].Float? && IsNearest(AsReal(v[key]).value, bounds[n].lo, bounds[n].hi, r[key].f)
            else r[key] == v[key])
  {
    var last := |bounds| - 1;
    if n < last {
      ClampFloatsAt(v, bounds[..last], n);
    } else {
      FloatsLeaveInts(v, bounds[..last], bounds[n].key);
    }
  }

  /** What is stored under `key`, or else the default for it. */
  ghost function Overlaid(scope: Scope, overrides: Json, key: string): Option<Json> {
    var o := FieldsOf(overrides);
    if key in o then Some(o[key]) else if key in scope.defaults then Some(scope.defaults[key]) else None
  }

  /** A clamped float key reads as the number within its bounds that is nearest to the stored one, or to
      the default when nothing is stored; when that is no number, as the caller's default. */
  lemma FloatsAreNearest(scope: Scope, overrides: Json, n: nat, default: real)
    requires DistinctKeys(scope) && n < |scope.floats| && scope.floats[n].lo <= scope.floats[n].hi
    ensures var b := scope.floats[n]; var x := Overlaid(scope, overrides, b.key);
      var y := ReadFloat(MergeAndClamp(scope, overrides), b.key, default);
      if x.Some? && AsReal(x.value).Some? then IsNearest(AsReal(x.value).value, b.lo, b.hi, y) else y == default
  {
    var b, merged := scope.floats[n], scope.defaults + FieldsOf(overrides);
    ClampFloatsAt(merged, scope.floats, n);
    IntsLeaveOthers(ClampFloats(merged, scope.floats), scope.ints, b.key);
  }

  /** The same for a clamped integer key, which a number that is no integer does not touch. */
  lemma IntsAreNearest(scope: Scope, overrides: Json, n: nat, default: int)
    requires DistinctKeys(scope) && n < |scope.ints| && scope.ints[n].lo <= scope.ints[n].hi
    ensures var b := scope.ints[n]; var x := Overlaid(scope, overrides, b.key);
      var y := ReadInt(MergeAndClamp(scope, overrides), b.key, default);
      if x.Some? && x.value.Int? then IsNearest(x.value.i as real, b.lo as real, b.hi as real, y as real)
      else y == default
  {
    var b, merged := scope.ints[n], scope.defaults + FieldsOf(overrides);
    ClampIntsAt(ClampFloats(merged, scope.floats), scope.ints, n);
    FloatsLeaveInts(merged, scope.floats, b.key);
  }

  /** Keys without a bound are exactly the override, or else the default. */
  lemma OtherKeysOverlay(scope: Scope, overrides: Json, key: string)
    requires forall b :: b in scope.floats ==> b.key != key
    requires forall b :: b in scope.ints ==> b.key != key
    ensures var r := MergeAndClamp(scope, overrides); var o := FieldsOf(overrides);
      && (key in r <==> key in o || key in scope.defaults)
      && (key in r ==> r[key] == if key in o then o[key] else scope.defaults[key])
  {
    var merged := scope.defaults + FieldsOf(overrides);
    FloatsLeaveInts(merged, scope.floats, key);
    IntsLeaveOthers(ClampFloats(merged, scope.floats), scope.ints, key);
  }

  /** Length, first and seventh character: enough to tell the clamped integer keys apart. */
  function Mark(key: string): (nat, char, char)
    requires |key| > 6
  {
    (|key|, key[0], key[6])
  }

  lemma OrgIntMarks()
    ensures forall b :: b in ORG_INTS ==> |b.key| > 6
    ensures forall i, j :: 0 <= i < j < |ORG_INTS| ==> Mark(ORG_INTS[i].key) != Mark(ORG_INTS[j].key)
  {
    OrgIntMarksAre();
  }

  lemma OrgIntMarksAre()
    ensures |ORG_INTS| == 9 && forall i :: 0 <= i < 9 ==> |ORG_INTS[i].key| > 6
    ensures Mark(ORG_INTS[0].key) == (18, 'm', 'r') && Mark(ORG_INTS[1].key) == (15, 'p', 'i')
    ensures Mark(ORG_INTS[2].key) == (15, 'c', 'M') && Mark(ORG_INTS[3].key) == (19, 'c', 't')
    ensures Mark(ORG_INTS[4].key) == (10, 's', 'R') && Mark(ORG_INTS[5].key) == (16, 's', 'C')
    ensures Mark(ORG_INTS[6].key) == (10, 's', 'T') && Mark(ORG_INTS[7].key) == (19, 's', 'S')
    ensures Mark(ORG_INTS[8].key) == (22, 'b', 'S')
  {
  }

  /** Length and first character tell the clamped floats from the clamped integers. */
  predicate FloatShaped(key: string) {
    |key| == 11 || |key| == 21 || |key| == 23 || (|key| == 19 && key[0] == 'a')
  }

  /** Length and first character tell the clamped floats apart. */
  lemma OrgFloatMarks()
    ensures forall f :: f in ORG_FLOATS ==> f.key != []
    ensures forall i, j :: 0 <= i < j < |ORG_FLOATS| ==>
      (|ORG_FLOATS[i].key|, ORG_FLOATS[i].key[0]) != (|ORG_FLOATS[j].key|, ORG_FLOATS[j].key[0])
  {
  }

  lemma OrgFloatShapes()
    ensures forall f :: f in ORG_FLOATS ==> FloatShaped(f.key)
  {
  }

  lemma OrgIntShapes()
    ensures forall b :: b in ORG_INTS ==> !FloatShaped(b.key)
  {
  }

  lemma OrgIntsApart()
    ensures forall i, j :: 0 <= i < j < |ORG_INTS| ==> ORG_INTS[i].key != ORG_INTS[j].key
  {
    OrgIntMarks();
  }

  lemma OrgFloatsApart()
    ensures forall i, j :: 0 <= i < j < |ORG_FLOATS| ==> ORG_FLOATS[i].key != ORG_FLOATS[j].key
  {
    OrgFloatMarks();
  }

  lemma OrgFloatsNoInts()
    ensures forall f, b :: f in ORG_FLOATS && b in ORG_INTS ==> f.key != b.key
  {
    OrgFloatShapes();
    OrgIntShapes();
  }

  lemma OrgKeysDistinct(defaults: map<string, Json>)
    ensures DistinctKeys(Scope(defaults, ORG_FLOATS, ORG_INTS))
  {
    OrgIntsApart();
    OrgFloatsApart();
    OrgFloatsNoInts();
  }

  // ---- The cached store ----------------------------------------------------------------------

  type Key = Uuid

  datatype Entry = Entry(values: map<string, Json>, at: nat)

  /** The stored overrides from time `since` on, until the next version. */
  datatype Version = Version(since: nat, stored: map<Key, Json>)

  function Stored(stored: map<Key, Json>, key: Key): Json {
    if key in stored then stored[key] else Obj(map[])
  }

  /** Version `i` was in force at time `t` (versions of the same instant all count). */
  ghost predicate InForce(log: seq<Version>, i: nat, t: nat) {
    && i < |log| && log[i].since <= t
    && (i + 1 < |log| ==> t <= log[i + 1].since)
  }

  /** The effective bundle for `key` under the stored overrides `db`. */
  function Effective(scope: Scope, db: map<Key, Json>, key: Key): map<string, Json> {
    MergeAndClamp(scope, Stored(db, key))
  }

  /** `values` was the effective bundle for `key` at time `t`. */
  ghost predicate WasEffective(scope: Scope, log: seq<Version>, key: Key, values: map<string, Json>, t: nat) {
    exists i :: 0 <= i < |log| && InForce(log, i, t) && values == Effective(scope, log[i].stored, key)
  }

  /** Every cached bundle was effective when it was cached. */
  ghost predicate EntriesOk(scope: Scope, log: seq<Version>, cache: map<Key, Entry>, now: nat) {
    forall key :: key in cache ==>
      cache[key].at <= now && WasEffective(scope, log, key, cache[key].values, cache[key].at)
  }

  /** Every cached bundle, fresh or not, is the current one. */
  ghost predicate Coherent(scope: Scope, stored: map<Key, Json>, cache: map<Key, Entry>) {
    forall key :: key in cache ==> cache[key].values == Effective(scope, stored, key)
  }

  /** A new version does not take back what was in force up to now. */
  lemma HistoryStays(scope: Scope, log: seq<Version>, v: Version, key: Key, values: map<string, Json>, t: nat)
    requires WasEffective(scope, log, key, values, t) && t <= v.since
    ensures WasEffective(scope, log + [v], key, values, t)
  {
    var i :| 0 <= i < |log| && InForce(log, i, t) && values == Effective(scope, log[i].stored, key);
    assert InForce(log + [v], i, t) && (log + [v])[i] == log[i];
  }

  lemma EntriesStay(scope: Scope, log: seq<Version>, v: Version, cache: map<Key, Entry>, now: nat)
    requires EntriesOk(scope, log, cache, now) && v.since == now
    ensures EntriesOk(scope, log + [v], cache, now)
  {
    forall key | key in cache ensures WasEffective(scope, log + [v], key, cache[key].values, cache[key].at) {
      HistoryStays(scope, log, v, key, cache[key].values, cache[key].at);
    }
  }

  /** Patching one key and dropping its entry keeps the rest of the cache current. */
  lemma PatchStaysCoherent(scope: Scope, stored: map<Key, Json>, cache: map<Key, Entry>, key: Key, j: Json)
    requires Coherent(scope, stored, cache)
    ensures Coherent(scope, stored[key := j], cache - {key})
  {
    forall k | k in cache && k != key
      ensures cache[k].values == Effective(scope, stored[key := j], k)
    {
      assert Stored(stored[key := j], k) == Stored(stored, k);
    }
  }

  lemma Refilled(cache: map<Key, Entry>, key: Key, entry: Entry)
    ensures (cache - {key})[key := entry] == cache[key := entry]
  {
  }

  /** The store and its cache as one request sees them that no step of another request comes between.
      What interleaved requests see is the subject of module `SettingsProtocol`. */
  class SettingsStore {
    const scope: Scope
    var stored: map<Key, Json>
    var cache: map<Key, Entry>
    var now: nat
    /** Every version of the stored overrides, oldest first. */
    ghost var log: seq<Version>

    ghost predicate Valid()
      reads this
    {
      && log != [] && log[|log| - 1].stored == stored && log[|log| - 1].since <= now
      && EntriesOk(scope, log, cache, now)
    }

    constructor (scope: Scope, stored: map<Key, Json>)
      ensures Valid() && Coherent(scope, stored, cache)
      ensures this.scope == scope && this.stored == stored && now == 0
    {
      this.scope, this.stored, cache, now := scope, stored, map[], 0;
      log := [Version(0, stored)];
    }

    /** What the cache would answer now. */
    ghost function Live(): map<Key, map<string, Json>>
      reads this
    {
      map key | key in cache && now < cache[key].at + CACHE_TTL_MS :: cache[key].values
    }

    /** Time only makes entries disappear, and ten seconds all of them. */
    method Tick(ms: nat)
      requires Valid()
      modifies this`now
      ensures Valid() && now == old(now) + ms
      ensures forall key :: key in Live() ==> key in old(Live()) && Live()[key] == old(Live())[key]
      ensures ms >= 10_000 ==> Live() == map[]
    {
      now := now + ms;
    }

    method CacheGet(key: Key) returns (hit: Option<map<string, Json>>)
      ensures hit == if key in Live() then Some(Live()[key]) else None
    {
      if key in cache {
        var entry := cache[key];
        if now < entry.at + CACHE_TTL_MS {
          return Some(entry.values);
        }
      }
      return None;
    }

    method CachePut(key: Key, values: map<string, Json>)
      modifies this`cache
      ensures cache == old(cache)[key := Entry(values, now)] && Live() == old(Live())[key := values]
    {
      cache := cache[key := Entry(values, now)];
    }

    method CacheInvalidate(key: Key)
      modifies this`cache
      ensures cache == old(cache) - {key} && Live() == old(Live()) - {key}
    {
      cache := cache - {key};
    }

    /** A resolve that runs without interruption: if the cache was coherent the result is exactly the
        current effective bundle; in any case it is one that was in force less than ten seconds ago. A
        miss is filled with the current bundle. */
    method Resolve(key: Key) returns (values: map<string, Json>, ghost t: nat)
      requires Valid()
      modifies this`cache
      ensures Valid()
      ensures old(Coherent(scope, stored, cache)) ==>
        Coherent(scope, stored, cache) && values == Effective(scope, stored, key)
      ensures t <= now < t + 10_000 && WasEffective(scope, log, key, values, t)
      ensures key !in old(cache) ==>
        values == Effective(scope, stored, key) && cache == old(cache)[key := Entry(values, now)]
    {
      var hit := CacheGet(key);
      if hit.Some? {
        return hit.value, cache[key].at;
      }
      values, t := MergeAndClamp(scope, Stored(stored, key)), now;
      assert InForce(log, |log| - 1, now);
      CachePut(key, values);
    }

    /** Merge a patch into the stored overrides and drop the cached bundle, without interruption. */
    method Store(key: Key, patch: Json) returns (overrides: Json)
      requires Valid()
      modifies this`stored, this`log, this`cache
      ensures Valid() && overrides == ApplyPatch(Stored(old(stored), key), patch)
      ensures stored == old(stored)[key := overrides] && cache == old(cache) - {key}
      ensures old(Coherent(scope, stored, cache)) ==> Coherent(scope, stored, cache)
    {
      overrides := ApplyInPlace(Stored(stored, key), patch);
      Write(key, overrides);
      CacheInvalidate(key);
      if old(Coherent(scope, stored, cache)) {
        PatchStaysCoherent(scope, old(stored), old(cache), key, overrides);
      }
    }

    /** `patch_system`: store, then resolve again, which refills the cache. */
    method PatchSystem(key: Key, patch: Json) returns (values: map<string, Json>)
      requires Valid()
      modifies this`stored, this`log, this`cache
      ensures Valid()
      ensures stored == old(stored)[key := ApplyPatch(Stored(old(stored), key), patch)]
      ensures values == Effective(scope, stored, key) && cache == old(cache)[key := Entry(values, now)]
      ensures old(Coherent(scope, stored, cache)) ==> Coherent(scope, stored, cache)
    {
      var overrides := Store(key, patch);
      ghost var t;
      values, t := Resolve(key);
      Refilled(old(cache), key, Entry(values, now));
    }

    /** `patch_org`: store, then answer without filling the cache. */
    method PatchOrg(key: Key, patch: Json) returns (values: map<string, Json>)
      requires Valid()
      modifies this`stored, this`log, this`cache
      ensures Valid()
      ensures stored == old(stored)[key := ApplyPatch(Stored(old(stored), key), patch)]
      ensures values == Effective(scope, stored, key) && cache == old(cache) - {key}
      ensures old(Coherent(scope, stored, cache)) ==> Coherent(scope, stored, cache)
    {
      var overrides := Store(key, patch);
      values := MergeAndClamp(scope, overrides);
    }

    /** The upsert, by this process or by another one whose writes the cache does not notice. */
    method Write(key: Key, overrides: Json)
      requires Valid()
      modifies this`stored, this`log
      ensures Valid() && stored == old(stored)[key := overrides]
      ensures log == old(log) + [Version(now, stored)]
    {
      EntriesStay(scope, log, Version(now, stored[key := overrides]), cache, now);
      stored := stored[key := overrides];
      log := log + [Version(now, stored)];
    }
  }
}
