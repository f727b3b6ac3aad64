/**
 A user record as the user manager handles it: a plain object of fields, keyed by
 `String(u.id)`, patched by object spread.
 */
module Entities {
  import opened Optional
  import opened JsValue
  import opened Seqs

  /** A partial set of fields spread over an entity (an edit-form payload or a stored
      update). */
  type Patch = map<string, Value>

  datatype Entity = Entity(fields: map<string, Value>) {

    /** `String(u.id)`; an entity without an `id` field keys as `String(undefined)`. */
    function Key(): string {
      if "id" in fields then ToJsString(fields["id"]) else "undefined"
    }

    /** `{ ...u, ...p }`. */
    function Patched(p: Patch): (e: Entity)
      ensures forall f :: f in p ==> f in e.fields && e.fields[f] == p[f]
      ensures forall f :: f !in p ==> (f in e.fields <==> f in fields)
      ensures forall f :: f !in p && f in fields ==> e.fields[f] == fields[f]
      ensures "id" !in p ==> e.Key() == Key()
    {
      Entity(fields + p)
    }
  }

  /** Spreading two patches one after the other is spreading their merge. */
  lemma PatchedTwice(e: Entity, p: Patch, q: Patch)
    ensures e.Patched(p).Patched(q) == e.Patched(p + q)
  {
  }

  /** Applying an empty patch changes nothing. */
  lemma PatchedByNothing(e: Entity)
    ensures e.Patched(map[]) == e
  {
  }

  /** The `findIndex`/`filter` callback `(u) => String(u.id) === id`. */
  function KeyIs(id: string): Entity -> bool {
    (e: Entity) => e.Key() == id
  }

  /** The `filter` callback `(u) => String(u.id) !== id`. */
  function KeyIsNot(id: string): Entity -> bool {
    (e: Entity) => e.Key() != id
  }

  /** `k` is the first position of `s` whose entity has key `id`. */
  predicate FirstWithKey(s: seq<Entity>, id: string, k: int) {
    && 0 <= k < |s|
    && s[k].Key() == id
    && forall j :: 0 <= j < k ==> s[j].Key() != id
  }

  predicate HasKey(s: seq<Entity>, id: string) {
    exists k :: 0 <= k < |s| && s[k].Key() == id
  }

  /** No two entities of `s` share a key. */
  predicate UniqueKeys(s: seq<Entity>) {
    forall i, j :: 0 <= i < j < |s| ==> s[i].Key() != s[j].Key()
  }

  /** The first match of `findIndex` is the first position with the key, and there is
      one exactly when some entity has the key. */
  lemma FindKey(s: seq<Entity>, id: string)
    ensures FindIndex(s, KeyIs(id)).Some? <==> HasKey(s, id)
    ensures FindIndex(s, KeyIs(id)).Some? ==> FirstWithKey(s, id, FindIndex(s, KeyIs(id)).value)
  {
  }

  /** `i = s.findIndex(…); if (i !== -1) s[i] = { ...s[i], ...p }`: the first entity
      with the key is patched and nothing else changes. */
  function PatchFirst(s: seq<Entity>, id: string, p: Patch): (r: seq<Entity>)
    ensures !HasKey(s, id) ==> r == s
    ensures forall k :: FirstWithKey(s, id, k) ==> r == s[k := s[k].Patched(p)]
  {
    FindKey(s, id);
    match FindIndex(s, KeyIs(id))
    case Some(k) => s[k := s[k].Patched(p)]
    case None => s
  }

  /** `i = s.findIndex(…); s.splice(i, 1)`: the first entity with the key is removed
      and the others keep their order. */
  function RemoveFirst(s: seq<Entity>, id: string): (r: seq<Entity>)
    ensures !HasKey(s, id) ==> r == s
    ensures HasKey(s, id) ==> |r| == |s| - 1
    ensures forall k :: FirstWithKey(s, id, k) ==> r == s[..k] + s[k + 1..]
  {
    FindKey(s, id);
    match FindIndex(s, KeyIs(id))
    case Some(k) => s[..k] + s[k + 1..]
    case None => s
  }

  /** Removing the first match removes one copy of it and nothing else. */
  lemma RemoveFirstMultiset(s: seq<Entity>, id: string, k: int)
    requires FirstWithKey(s, id, k)
    ensures multiset(RemoveFirst(s, id)) + multiset{s[k]} == multiset(s)
  {
    assert s == s[..k] + [s[k]] + s[k + 1..];
  }

  /** Keys stay distinct when an entity with a fresh key is put in front. */
  lemma UniqueKeysCons(x: Entity, t: seq<Entity>)
    requires UniqueKeys(t)
    requires forall i :: 0 <= i < |t| ==> t[i].Key() != x.Key()
    ensures UniqueKeys([x] + t)
  {
  }

  /** Filtering keeps keys distinct. */
  lemma {:induction false} FilterKeepsUniqueKeys(s: seq<Entity>, p: Entity -> bool)
    requires UniqueKeys(s)
    ensures UniqueKeys(Filter(s, p))
    decreases |s|
  {
    if |s| > 0 {
      var t := Filter(s[1..], p);
      FilterKeepsUniqueKeys(s[1..], p);
      if p(s[0]) {
        FilterMembers(s[1..], p);
        forall i | 0 <= i < |t|
          ensures t[i].Key() != s[0].Key()
        {
          var k :| 0 <= k < |s[1..]| && s[1..][k] == t[i];
          assert s[k + 1] == t[i];
        }
        UniqueKeysCons(s[0], t);
      }
    }
  }
}
