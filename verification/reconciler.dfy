/**
 The merge step of `fetchUsers`: the list a fetch shows is the remote list seen
 through the overlay.
 */
module Reconciler {
  import opened Seqs
  import opened Entities
  import opened Overlays

  /** The callback `(u) => !changes.deleted.includes(String(u.id))`. */
  function Survives(deleted: seq<string>): Entity -> bool {
    (e: Entity) => e.Key() !in deleted
  }

  /** Its complement: the remote entities the overlay hides. */
  function IsDeleted(deleted: seq<string>): Entity -> bool {
    (e: Entity) => e.Key() in deleted
  }

  /** The callback `(u) => update ? { ...u, ...update } : u` with
      `update = changes.updated[String(u.id)]`. */
  function ApplyUpdate(updated: map<string, Patch>): Entity -> Entity {
    (e: Entity) => if e.Key() in updated then e.Patched(updated[e.Key()]) else e
  }

  function Survivors(remote: seq<Entity>, deleted: seq<string>): seq<Entity> {
    Filter(remote, Survives(deleted))
  }

  /** The four steps in their fixed order: copy the remote list (entities are values,
      so the copy is the list itself), drop the deleted keys, spread each surviving
      entity's patch over it, and put the locally created entities in front. */
  function Merge(remote: seq<Entity>, o: Overlay): (r: seq<Entity>)
    ensures |r| == |o.created| + |Survivors(remote, o.deleted)|
    ensures r[..|o.created|] == o.created
  {
    var copied := remote;
    var kept := Filter(copied, Survives(o.deleted));
    var patched := MapSeq(kept, ApplyUpdate(o.updated));
    o.created + patched
  }

  /** Entity `i` of the remote part of the result is the `i`-th surviving remote
      entity with its patch applied. */
  lemma MergeRemotePart(remote: seq<Entity>, o: Overlay, i: int)
    requires 0 <= i < |Survivors(remote, o.deleted)|
    ensures Merge(remote, o)[|o.created| + i] == ApplyUpdate(o.updated)(Survivors(remote, o.deleted)[i])
  {
  }

  /** Every remote entity whose key is not in `deleted` shows up, patched, after the
      created entities. */
  lemma MergeKeepsSurvivors(remote: seq<Entity>, o: Overlay, j: int)
    requires 0 <= j < |remote| && remote[j].Key() !in o.deleted
    ensures ApplyUpdate(o.updated)(remote[j]) in Merge(remote, o)[|o.created|..]
  {
    var s := Survivors(remote, o.deleted);
    var tail := MapSeq(s, ApplyUpdate(o.updated));
    assert Merge(remote, o)[|o.created|..] == tail;
    FilterMembers(remote, Survives(o.deleted));
    assert Survives(o.deleted)(remote[j]);
    assert remote[j] in s;
    var k :| 0 <= k < |s| && s[k] == remote[j];
    assert tail[k] == ApplyUpdate(o.updated)(remote[j]);
  }

  /** Every entity after the created ones comes from a remote entity whose key is not in
      `deleted`: together with `MergeKeepsSurvivors`, the dropped remote entities are
      exactly those with a deleted key. */
  lemma MergeRemoteOrigin(remote: seq<Entity>, o: Overlay, i: int)
    requires |o.created| <= i < |Merge(remote, o)|
    ensures exists j :: 0 <= j < |remote| && remote[j].Key() !in o.deleted
                        && Merge(remote, o)[i] == ApplyUpdate(o.updated)(remote[j])
  {
    var s := Survivors(remote, o.deleted);
    MergeRemotePart(remote, o, i - |o.created|);
    var e := s[i - |o.created|];
    FilterMembers(remote, Survives(o.deleted));
    assert e in remote && Survives(o.deleted)(e);
    var j :| 0 <= j < |remote| && remote[j] == e;
  }

  /** No patch in the overlay rewrites an `id` (the edit form never sends one). */
  predicate PatchesKeepIds(o: Overlay) {
    forall k :: k in o.updated ==> "id" !in o.updated[k]
  }

  lemma ApplyUpdateKeepsKey(updated: map<string, Patch>, e: Entity)
    requires forall k :: k in updated ==> "id" !in updated[k]
    ensures ApplyUpdate(updated)(e).Key() == e.Key()
  {
  }

  /** When no patch rewrites an id, nothing after the created entities has a deleted key. */
  lemma MergeHidesDeleted(remote: seq<Entity>, o: Overlay)
    requires PatchesKeepIds(o)
    ensures forall i :: |o.created| <= i < |Merge(remote, o)| ==> Merge(remote, o)[i].Key() !in o.deleted
  {
  }

  /** A surviving remote entity with a stored patch takes every field of the patch and
      keeps every other field, its `id` included when the patch has none; one without a
      patch passes through unchanged. */
  lemma MergeAppliesPatch(remote: seq<Entity>, o: Overlay, i: int)
    requires 0 <= i < |Survivors(remote, o.deleted)|
    ensures var e := Survivors(remote, o.deleted)[i];
            var m := Merge(remote, o)[|o.created| + i];
            if e.Key() in o.updated then
              (forall f :: f in o.updated[e.Key()] ==> f in m.fields && m.fields[f] == o.updated[e.Key()][f])
              && (forall f :: f !in o.updated[e.Key()] ==> (f in m.fields <==> f in e.fields))
              && (forall f :: f !in o.updated[e.Key()] && f in e.fields ==> m.fields[f] == e.fields[f])
            else m == e
  {
  }

  /** The result has the created entities plus every remote entity whose key is not in
      `deleted`, counted with repetitions. */
  lemma MergeLength(remote: seq<Entity>, o: Overlay)
    ensures |Merge(remote, o)| == |o.created| + |remote| - |Filter(remote, IsDeleted(o.deleted))|
  {
  }

  /** The surviving remote entities keep their source order, and each one keeps every
      copy it had in the remote list. */
  lemma SurvivorsInSourceOrder(remote: seq<Entity>, o: Overlay, e: Entity)
    ensures IsSubsequence(Survivors(remote, o.deleted), remote)
    ensures multiset(Survivors(remote, o.deleted))[e] == if e.Key() in o.deleted then 0 else multiset(remote)[e]
  {
    FilterIsSubsequence(remote, Survives(o.deleted));
    FilterMultiplicity(remote, Survives(o.deleted), e);
  }

  /** With nothing recorded locally, the fetched list is shown as it came. */
  lemma MergeEmpty(remote: seq<Entity>)
    ensures Merge(remote, Empty) == remote
  {
    FilterKeepsAll(remote, Survives([]));
  }

  /** Recording a create puts the new entity in front of what a fetch shows. */
  /** The remote part of a merge depends only on `updated` and `deleted`. */
  lemma MergeSplit(remote: seq<Entity>, o: Overlay) returns (tail: seq<Entity>)
    ensures tail == MapSeq(Survivors(remote, o.deleted), ApplyUpdate(o.updated))
    ensures Merge(remote, o) == o.created + tail
  {
    tail := MapSeq(Survivors(remote, o.deleted), ApplyUpdate(o.updated));
  }

  lemma MergeAfterCreate(remote: seq<Entity>, o: Overlay, u: Entity)
    ensures Merge(remote, RecordCreate(o, u)) == [u] + Merge(remote, o)
  {
    var o' := RecordCreate(o, u);
    assert o'.created == [u] + o.created && o'.updated == o.updated && o'.deleted == o.deleted;
    var tail := MergeSplit(remote, o);
    var tail' := MergeSplit(remote, o');
    assert tail' == tail;
    PrependAppend(u, o.created, tail);
    assert Merge(remote, o') == ([u] + o.created) + tail;
  }

  /** After two edits of a remote user, a fetch shows the later payload's value for
      every field that payload carries. */
  lemma LatestEditWins(remote: seq<Entity>, o: Overlay, id: string, p: Patch, q: Patch, i: int)
    requires !HasKey(o.created, id)
    requires 0 <= i < |Survivors(remote, o.deleted)| && Survivors(remote, o.deleted)[i].Key() == id
    ensures var m := Merge(remote, RecordUpdate(RecordUpdate(o, id, p), id, q))[|o.created| + i];
            forall f :: f in q ==> f in m.fields && m.fields[f] == q[f]
  {
  }
}
