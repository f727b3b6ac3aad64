/**
 The overlay of local edits kept in `localStorage` beside a remote endpoint that does
 not persist writes, and the three operations that record a create, an update and a
 delete in it once the corresponding remote call has succeeded.
 */
module Overlays {
  import opened Optional
  import opened JsValue
  import opened Seqs
  import opened Entities

  /** `created` holds locally created users, newest first; `updated` maps a key to the
      patch to spread over the remote user with that key; `deleted` lists the keys of
      remote users to hide. */
  datatype Overlay = Overlay(created: seq<Entity>, updated: map<string, Patch>, deleted: seq<string>)

  const Empty := Overlay([], map[], [])

  /** What the storage slot yields after `JSON.parse`. A field is `None` when the parsed
      document lacks it or holds a falsy value there. */
  datatype Stored =
    | Absent
    | Malformed
    | Document(created: Option<seq<Entity>>, updated: Option<map<string, Patch>>, deleted: Option<seq<string>>)

  /** `loadChanges`: a missing or empty slot, or one that does not parse (a `null`
      document included, whose property access throws), yields the empty overlay; a
      parsed document contributes each part it has and an empty part for each it lacks. */
  function LoadChanges(stored: Stored): (o: Overlay)
    ensures !stored.Document? ==> o == Empty
    ensures stored.Document? ==> o.created == (if stored.created.Some? then stored.created.value else [])
    ensures stored.Document? ==> o.updated == (if stored.updated.Some? then stored.updated.value else map[])
    ensures stored.Document? ==> o.deleted == (if stored.deleted.Some? then stored.deleted.value else [])
  {
    match stored
    case Absent => Empty
    case Malformed => Empty
    case Document(c, u, d) => Overlay(c.Or([]), u.Or(map[]), d.Or([]))
  }

  /** `saveChanges`: the whole overlay is written back. */
  function Save(o: Overlay): Stored {
    Document(Some(o.created), Some(o.updated), Some(o.deleted))
  }

  /** What is saved is what is loaded next time. */
  lemma LoadAfterSave(o: Overlay)
    ensures LoadChanges(Save(o)) == o
  {
  }

  /** `{ ...payload, id: data.id || `local-${Date.now()}` }`: the server's id when it is
      truthy, otherwise a local id built from the clock reading `now`. */
  function NewUser(payload: Patch, serverId: Option<Value>, now: nat): (u: Entity)
    ensures "id" in u.fields && Truthy(u.fields["id"])
    ensures serverId.Some? && Truthy(serverId.value) ==> u.fields["id"] == serverId.value
    ensures !(serverId.Some? && Truthy(serverId.value)) ==> u.Key() == "local-" + Decimal(now)
    ensures forall f :: f != "id" ==> (f in u.fields <==> f in payload)
    ensures forall f :: f != "id" && f in payload ==> u.fields[f] == payload[f]
  {
    var id := if serverId.Some? && Truthy(serverId.value) then serverId.value else Str("local-" + Decimal(now));
    Entity(payload["id" := id])
  }

  /** `changes.created.unshift(newUser)`. */
  function RecordCreate(o: Overlay, u: Entity): (r: Overlay)
    ensures |r.created| == |o.created| + 1
    ensures r.created[0] == u && r.created[1..] == o.created
    ensures r.updated == o.updated && r.deleted == o.deleted
  {
    o.(created := [u] + o.created)
  }

  /** The overlay step of `updateUser`: a locally created user is patched in place
      (first match only); otherwise the payload is spread over the stored patch for the
      key (see `MarkUpdated`). */
  function RecordUpdate(o: Overlay, id: string, p: Patch): (r: Overlay)
    ensures forall k :: FirstWithKey(o.created, id, k) ==>
              r == o.(created := o.created[k := o.created[k].Patched(p)])
    ensures !HasKey(o.created, id) ==> r == MarkUpdated(o, id, p)
  {
    if HasKey(o.created, id) then o.(created := PatchFirst(o.created, id, p)) else MarkUpdated(o, id, p)
  }

  /** `changes.updated[id] = { ...(changes.updated[id] || {}), ...p }`: the payload's
      fields win, fields of an earlier patch that the payload lacks survive, and the
      patches of other keys are untouched. */
  function MarkUpdated(o: Overlay, id: string, p: Patch): (r: Overlay)
    ensures r.created == o.created && r.deleted == o.deleted
    ensures r.updated.Keys == o.updated.Keys + {id}
    ensures forall k :: k in o.updated && k != id ==> r.updated[k] == o.updated[k]
    ensures forall f :: f in p ==> f in r.updated[id] && r.updated[id][f] == p[f]
    ensures forall f :: f !in p && id in o.updated && f in o.updated[id] ==>
              f in r.updated[id] && r.updated[id][f] == o.updated[id][f]
    ensures forall f :: f in r.updated[id] ==> f in p || (id in o.updated && f in o.updated[id])
  {
    o.(updated := UpdatedWith(o.updated, id, p))
  }

  /** The patch map after spreading `p` over the patch stored for `id`. */
  function UpdatedWith(updated: map<string, Patch>, id: string, p: Patch): map<string, Patch> {
    var prior := if id in updated then updated[id] else map[];
    updated[id := prior + p]
  }

  /** The overlay step of `deleteUser`: a locally created user is removed from
      `created` (first match only); otherwise the key is marked deleted (see
      `MarkDeleted`). */
  function RecordDelete(o: Overlay, id: string): (r: Overlay)
    ensures forall k :: FirstWithKey(o.created, id, k) ==>
              r == o.(created := o.created[..k] + o.created[k + 1..])
    ensures !HasKey(o.created, id) ==> r == MarkDeleted(o, id)
  {
    if HasKey(o.created, id) then o.(created := RemoveFirst(o.created, id)) else MarkDeleted(o, id)
  }

  /** `changes.deleted = [...new Set([...changes.deleted, id])]; delete changes.updated[id]`:
      the key is in `deleted` once, the earlier keys keep their order, and its patch is
      gone while the other patches stay. */
  function MarkDeleted(o: Overlay, id: string): (r: Overlay)
    ensures r.created == o.created
    ensures id in r.deleted && NoDuplicates(r.deleted)
    ensures forall i :: 0 <= i < |r.deleted| ==> r.deleted[i] in o.deleted || r.deleted[i] == id
    ensures forall i :: 0 <= i < |o.deleted| ==> o.deleted[i] in r.deleted
    ensures NoDuplicates(o.deleted) ==> r.deleted == if id in o.deleted then o.deleted else o.deleted + [id]
    ensures r.updated.Keys == o.updated.Keys - {id}
    ensures forall k :: k in r.updated ==> r.updated[k] == o.updated[k]
  {
    var deleted := Dedup(o.deleted + [id]);
    DedupSnocMembers(o.deleted, id);
    DedupSnocDistinct(o.deleted, id);
    o.(deleted := deleted, updated := o.updated - {id})
  }

  /** Two successive edits of one user amount to one edit whose later payload wins,
      provided the first edit does not rewrite the id. */
  lemma RecordUpdateTwice(o: Overlay, id: string, p: Patch, q: Patch)
    requires "id" !in p
    ensures RecordUpdate(RecordUpdate(o, id, p), id, q) == RecordUpdate(o, id, p + q)
  {
    if HasKey(o.created, id) {
      UpdateCreatedTwice(o, id, p, q);
    } else {
      MarkUpdatedTwice(o, id, p, q);
    }
  }

  lemma UpdateCreatedTwice(o: Overlay, id: string, p: Patch, q: Patch)
    requires "id" !in p && HasKey(o.created, id)
    ensures RecordUpdate(RecordUpdate(o, id, p), id, q) == RecordUpdate(o, id, p + q)
  {
    FindKey(o.created, id);
    var k := FindIndex(o.created, KeyIs(id)).value;
    var c1 := o.created[k := o.created[k].Patched(p)];
    assert FirstWithKey(c1, id, k);
    PatchedTwice(o.created[k], p, q);
  }

  lemma MarkUpdatedTwice(o: Overlay, id: string, p: Patch, q: Patch)
    requires !HasKey(o.created, id)
    ensures RecordUpdate(RecordUpdate(o, id, p), id, q) == RecordUpdate(o, id, p + q)
  {
    var o1 := MarkUpdated(o, id, p);
    assert RecordUpdate(o, id, p) == o1;
    assert RecordUpdate(o1, id, q) == MarkUpdated(o1, id, q);
    UpdatedWithTwice(o.updated, id, p, q);
  }

  lemma UpdatedWithTwice(updated: map<string, Patch>, id: string, p: Patch, q: Patch)
    ensures UpdatedWith(UpdatedWith(updated, id, p), id, q) == UpdatedWith(updated, id, p + q)
  {
    var prior := if id in updated then updated[id] else map[];
    assert prior + p + q == prior + (p + q);
  }

  /** No key is both patched and deleted. */
  predicate PatchesNotDeleted(o: Overlay) {
    forall k :: k in o.updated ==> k !in o.deleted
  }

  /** Recording a create or a delete keeps patched and deleted keys apart; recording an
      update does too unless the key is already deleted. */
  lemma PatchesNotDeletedPreserved(o: Overlay, u: Entity, id: string, p: Patch)
    requires PatchesNotDeleted(o)
    ensures PatchesNotDeleted(RecordCreate(o, u))
    ensures PatchesNotDeleted(RecordDelete(o, id))
    ensures id !in o.deleted ==> PatchesNotDeleted(RecordUpdate(o, id, p))
  {
  }

  /** The update branch does not look at `deleted`: editing a remote user whose key is
      already deleted stores a patch for a key that stays deleted. */
  lemma UpdateOfDeletedKey(o: Overlay, id: string, p: Patch)
    requires !HasKey(o.created, id) && id in o.deleted
    ensures id in RecordUpdate(o, id, p).updated && id in RecordUpdate(o, id, p).deleted
  {
  }
}
