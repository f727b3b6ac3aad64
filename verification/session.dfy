/**
 One user-manager session: the in-memory `users` list the table shows and the overlay
 slot in `localStorage`, as the four remote-backed operations change them. A failed
 remote call leaves both untouched. After a successful create, update or delete the
 list is edited in place instead of being fetched again; the lemmas here say when
 that in-place edit agrees with what a fresh fetch of the same remote list would show.
 */
module Session {
  import opened Optional
  import opened JsValue
  import opened Seqs
  import opened Entities
  import opened Overlays
  import opened Reconciler

  datatype State = State(storage: Stored, users: seq<Entity>)

  /** The outcome of a remote call; `Failed` stands for a non-ok status and for a
      transport error alike. */
  datatype Reply<T> = Failed | Ok(value: T)

  /** `users = users.filter((u) => String(u.id) !== id)`: every user with the key goes,
      every other user stays, in order. */
  function UsersAfterDelete(users: seq<Entity>, id: string): (r: seq<Entity>)
    ensures forall i :: 0 <= i < |r| ==> r[i].Key() != id && r[i] in users
    ensures forall i :: 0 <= i < |users| && users[i].Key() != id ==> users[i] in r
    ensures IsSubsequence(r, users)
    ensures forall u :: multiset(r)[u] == if u.Key() != id then multiset(users)[u] else 0
  {
    FilterIsSubsequence(users, KeyIsNot(id));
    FilterMultiplicities(users, KeyIsNot(id));
    FilterMembers(users, KeyIsNot(id));
    Filter(users, KeyIsNot(id))
  }

  /** `fetchUsers`: on success the list becomes the remote list merged with the stored
      overlay; the overlay itself is only read. */
  function FetchUsers(s: State, reply: Reply<seq<Entity>>): (r: State)
    ensures reply.Failed? ==> r == s
    ensures reply.Ok? ==> r.storage == s.storage && r.users == Merge(reply.value, LoadChanges(s.storage))
  {
    match reply
    case Failed => s
    case Ok(remote) => s.(users := Merge(remote, LoadChanges(s.storage)))
  }

  /** `createUser`: the reply carries the server's `id` field, if any. */
  function CreateUser(s: State, payload: Patch, reply: Reply<Option<Value>>, now: nat): (r: State)
    ensures reply.Failed? ==> r == s
    ensures reply.Ok? ==> var u := NewUser(payload, reply.value, now);
                          && LoadChanges(r.storage) == RecordCreate(LoadChanges(s.storage), u)
                          && r.users == [u] + s.users
  {
    match reply
    case Failed => s
    case Ok(serverId) =>
      var u := NewUser(payload, serverId, now);
      State(Save(RecordCreate(LoadChanges(s.storage), u)), [u] + s.users)
  }

  /** `updateUser`: the overlay records the patch and the first listed user with the key
      is patched in place. */
  function UpdateUser(s: State, id: Value, payload: Patch, reply: Reply<()>): (r: State)
    ensures reply.Failed? ==> r == s
    ensures reply.Ok? ==> LoadChanges(r.storage) == RecordUpdate(LoadChanges(s.storage), ToJsString(id), payload)
                          && r.users == PatchFirst(s.users, ToJsString(id), payload)
  {
    match reply
    case Failed => s
    case Ok(_) =>
      var key := ToJsString(id);
      State(Save(RecordUpdate(LoadChanges(s.storage), key, payload)), PatchFirst(s.users, key, payload))
  }

  /** `deleteUser`: the overlay records the delete and every listed user with the key
      is dropped. */
  function DeleteUser(s: State, id: Value, reply: Reply<()>): (r: State)
    ensures reply.Failed? ==> r == s
    ensures reply.Ok? ==> LoadChanges(r.storage) == RecordDelete(LoadChanges(s.storage), ToJsString(id))
                          && r.users == UsersAfterDelete(s.users, ToJsString(id))
  {
    match reply
    case Failed => s
    case Ok(_) =>
      var key := ToJsString(id);
      State(Save(RecordDelete(LoadChanges(s.storage), key)), UsersAfterDelete(s.users, key))
  }

  /** The shown list is what a fetch of `remote` would show now. */
  predicate Synced(s: State, remote: seq<Entity>) {
    s.users == Merge(remote, LoadChanges(s.storage))
  }

  /** When a created entity has the key, the first match lies among them. */
  lemma PatchFirstInPrefix(c: seq<Entity>, t: seq<Entity>, id: string, p: Patch)
    requires HasKey(c, id)
    ensures PatchFirst(c + t, id, p) == PatchFirst(c, id, p) + t
  {
    FindKey(c, id);
    var k := FindIndex(c, KeyIs(id)).value;
    var m := c + t;
    assert forall j :: 0 <= j < |c| ==> m[j] == c[j];
    assert FirstWithKey(m, id, k);
    assert m[k := m[k].Patched(p)] == c[k := c[k].Patched(p)] + t;
  }

  /** Patching a locally created user in the overlay patches the same entry of the
      shown list, because the created entries come first. */
  lemma MergeAfterUpdateCreated(remote: seq<Entity>, o: Overlay, id: string, p: Patch)
    requires HasKey(o.created, id)
    ensures Merge(remote, RecordUpdate(o, id, p)) == PatchFirst(Merge(remote, o), id, p)
  {
    PatchFirstInPrefix(o.created, MapSeq(Survivors(remote, o.deleted), ApplyUpdate(o.updated)), id, p);
  }

  /** When no created entity has the key, the first match lies beyond them. */
  lemma PatchFirstSkips(c: seq<Entity>, t: seq<Entity>, id: string, p: Patch)
    requires !HasKey(c, id)
    ensures PatchFirst(c + t, id, p) == c + PatchFirst(t, id, p)
  {
    if k :| FirstWithKey(t, id, k) {
      assert FirstWithKey(c + t, id, |c| + k);
      assert (c + t)[|c| + k := (c + t)[|c| + k].Patched(p)] == c + t[k := t[k].Patched(p)];
    } else {
      if HasKey(t, id) {
        FindKey(t, id);
        assert false;
      }
      assert !HasKey(c + t, id);
    }
  }

  /** Spreading `p` over the stored patch of `e` is spreading `p` over the patched `e`. */
  lemma ApplyUpdatedWith(e: Entity, updated: map<string, Patch>, id: string, p: Patch)
    requires e.Key() == id
    ensures ApplyUpdate(UpdatedWith(updated, id, p))(e) == ApplyUpdate(updated)(e).Patched(p)
  {
  }

  /** An entity with another key does not see the new patch. */
  lemma ApplyUpdatedWithOther(e: Entity, updated: map<string, Patch>, id: string, p: Patch)
    requires e.Key() != id
    ensures ApplyUpdate(UpdatedWith(updated, id, p))(e) == ApplyUpdate(updated)(e)
  {
  }

  /** Spreading `p` over the stored patch of a key changes only the entity with that
      key, when keys are distinct. */
  lemma UpdatedWithTouchesOne(s: seq<Entity>, updated: map<string, Patch>, id: string, p: Patch, q: int)
    requires UniqueKeys(s) && 0 <= q < |s| && s[q].Key() == id
    ensures MapSeq(s, ApplyUpdate(UpdatedWith(updated, id, p)))
         == MapSeq(s, ApplyUpdate(updated))[q := ApplyUpdate(updated)(s[q]).Patched(p)]
  {
    var f, g := ApplyUpdate(updated), ApplyUpdate(UpdatedWith(updated, id, p));
    ApplyUpdatedWith(s[q], updated, id, p);
    forall j | 0 <= j < |s| && j != q
      ensures g(s[j]) == f(s[j])
    {
      ApplyUpdatedWithOther(s[j], updated, id, p);
    }
    MapSeqPointUpdate(s, f, g, q, f(s[q]).Patched(p));
  }

  /** Patching the first match among remote entities whose keys are distinct and kept by
      their patches: the match is the one entity with the key. */
  lemma PatchRemoteMatch(s: seq<Entity>, updated: map<string, Patch>, id: string, p: Patch, q: int)
    requires UniqueKeys(s) && 0 <= q < |s| && s[q].Key() == id
    requires forall j :: 0 <= j < |s| ==> MapSeq(s, ApplyUpdate(updated))[j].Key() == s[j].Key()
    ensures PatchFirst(MapSeq(s, ApplyUpdate(updated)), id, p) == MapSeq(s, ApplyUpdate(UpdatedWith(updated, id, p)))
  {
    var t := MapSeq(s, ApplyUpdate(updated));
    assert FirstWithKey(t, id, q);
    UpdatedWithTouchesOne(s, updated, id, p, q);
  }

  /** Among remote entities with distinct keys, patching the first one with the key is
      the same as spreading the payload over its stored patch. */
  lemma PatchRemoteEntry(s: seq<Entity>, updated: map<string, Patch>, id: string, p: Patch)
    requires UniqueKeys(s)
    requires forall k :: k in updated ==> "id" !in updated[k]
    ensures PatchFirst(MapSeq(s, ApplyUpdate(updated)), id, p) == MapSeq(s, ApplyUpdate(UpdatedWith(updated, id, p)))
  {
    var t := MapSeq(s, ApplyUpdate(updated));
    forall j | 0 <= j < |s|
      ensures t[j].Key() == s[j].Key()
    {
      ApplyUpdateKeepsKey(updated, s[j]);
    }
    if q :| 0 <= q < |s| && s[q].Key() == id {
      PatchRemoteMatch(s, updated, id, p, q);
    } else {
      var f, g := ApplyUpdate(updated), ApplyUpdate(UpdatedWith(updated, id, p));
      forall j | 0 <= j < |s|
        ensures g(s[j]) == f(s[j])
      {
        ApplyUpdatedWithOther(s[j], updated, id, p);
      }
      MapSeqExt(s, f, g);
      assert !HasKey(t, id);
    }
  }

  /** Recording a patch for a remote user and patching the first listed user with the
      key agree, provided remote keys are unique and no stored patch rewrites an id. */
  lemma MergeAfterUpdateRemote(remote: seq<Entity>, o: Overlay, id: string, p: Patch)
    requires !HasKey(o.created, id)
    requires UniqueKeys(remote) && PatchesKeepIds(o)
    ensures Merge(remote, RecordUpdate(o, id, p)) == PatchFirst(Merge(remote, o), id, p)
  {
    var s := Survivors(remote, o.deleted);
    FilterKeepsUniqueKeys(remote, Survives(o.deleted));
    PatchRemoteEntry(s, o.updated, id, p);
    PatchFirstSkips(o.created, MapSeq(s, ApplyUpdate(o.updated)), id, p);
  }

  /** When no created entity has the key, dropping the key leaves them all. */
  lemma DropKeySkips(c: seq<Entity>, t: seq<Entity>, id: string)
    requires !HasKey(c, id)
    ensures Filter(c + t, KeyIsNot(id)) == c + Filter(t, KeyIsNot(id))
  {
    FilterAppend(c, t, KeyIsNot(id));
    forall x | x in c
      ensures KeyIsNot(id)(x)
    {
      var i :| 0 <= i < |c| && c[i] == x;
    }
    FilterKeepsAll(c, KeyIsNot(id));
  }

  /** Adding a key to `deleted` narrows the survivors to those without the key. */
  lemma SurvivorsAfterMark(remote: seq<Entity>, o: Overlay, id: string)
    ensures Filter(Survivors(remote, o.deleted), KeyIsNot(id)) == Survivors(remote, MarkDeleted(o, id).deleted)
  {
    var d' := MarkDeleted(o, id).deleted;
    forall k: string
      ensures k in d' <==> k in o.deleted || k == id
    {
      if k in d' {
        var i :| 0 <= i < |d'| && d'[i] == k;
      }
      if k in o.deleted {
        var i :| 0 <= i < |o.deleted| && o.deleted[i] == k;
      }
    }
    FilterFilter(remote, Survives(o.deleted), KeyIsNot(id), Survives(d'));
  }

  /** Dropping the key from the patched survivors is patching the narrowed survivors
      with the key's patch removed. */
  lemma DropKeyFromRemote(remote: seq<Entity>, o: Overlay, id: string)
    requires PatchesKeepIds(o)
    ensures Filter(MapSeq(Survivors(remote, o.deleted), ApplyUpdate(o.updated)), KeyIsNot(id))
         == MapSeq(Survivors(remote, MarkDeleted(o, id).deleted), ApplyUpdate(MarkDeleted(o, id).updated))
  {
    var o' := MarkDeleted(o, id);
    var s := Survivors(remote, o.deleted);
    var s' := Survivors(remote, o'.deleted);
    forall x | x in s
      ensures KeyIsNot(id)(ApplyUpdate(o.updated)(x)) == KeyIsNot(id)(x)
    {
      ApplyUpdateKeepsKey(o.updated, x);
    }
    FilterMapCommute(s, ApplyUpdate(o.updated), KeyIsNot(id), KeyIsNot(id));
    SurvivorsAfterMark(remote, o, id);
    forall i | 0 <= i < |s'|
      ensures ApplyUpdate(o.updated)(s'[i]) == ApplyUpdate(o'.updated)(s'[i])
    {
      assert Survives(o'.deleted)(s'[i]);
    }
  }

  /** Marking a remote user deleted hides exactly what dropping every listed user with
      the key hides, provided no stored patch rewrites an id. */
  lemma MergeAfterDeleteRemote(remote: seq<Entity>, o: Overlay, id: string)
    requires !HasKey(o.created, id) && PatchesKeepIds(o)
    ensures Merge(remote, RecordDelete(o, id)) == Filter(Merge(remote, o), KeyIsNot(id))
  {
    DropKeySkips(o.created, MapSeq(Survivors(remote, o.deleted), ApplyUpdate(o.updated)), id);
    DropKeyFromRemote(remote, o, id);
  }

  /** Removing a locally created user from the overlay hides exactly what dropping
      every listed user with the key hides, provided the key is held by that user alone
      among the created and the remote ones and no stored patch rewrites an id. */
  lemma MergeAfterDeleteCreated(remote: seq<Entity>, o: Overlay, id: string)
    requires HasKey(o.created, id) && PatchesKeepIds(o) && UniqueKeys(o.created + remote)
    ensures Merge(remote, RecordDelete(o, id)) == Filter(Merge(remote, o), KeyIsNot(id))
  {
    FindKey(o.created, id);
    var k := FindIndex(o.created, KeyIs(id)).value;
    var c := o.created;
    var cr := c + remote;
    var s := Survivors(remote, o.deleted);
    var t := MapSeq(s, ApplyUpdate(o.updated));
    FilterMembers(remote, Survives(o.deleted));
    forall j | 0 <= j < |c| && j != k
      ensures c[j].Key() != id
    {
      assert cr[j] == c[j] && cr[k] == c[k];
    }
    FilterDropsOne(c, KeyIsNot(id), k);
    forall x | x in t
      ensures KeyIsNot(id)(x)
    {
      var i :| 0 <= i < |t| && t[i] == x;
      ApplyUpdateKeepsKey(o.updated, s[i]);
      var j :| 0 <= j < |remote| && remote[j] == s[i];
      assert cr[|c| + j] == remote[j] && cr[k] == c[k];
    }
    FilterKeepsAll(t, KeyIsNot(id));
    FilterAppend(c, t, KeyIsNot(id));
  }

  /** A successful fetch shows what a fetch shows. */
  lemma FetchSyncs(s: State, remote: seq<Entity>)
    ensures Synced(FetchUsers(s, Ok(remote)), remote)
  {
  }

  /** Putting a created user in front of the list agrees with a reload. */
  lemma CreateStaysSynced(s: State, remote: seq<Entity>, payload: Patch, reply: Reply<Option<Value>>, now: nat)
    requires Synced(s, remote)
    ensures Synced(CreateUser(s, payload, reply, now), remote)
  {
    if reply.Ok? {
      MergeAfterCreate(remote, LoadChanges(s.storage), NewUser(payload, reply.value, now));
    }
  }

  /** Patching the listed user in place agrees with a reload when the remote keys are
      unique and no stored patch rewrites an id. */
  lemma UpdateStaysSynced(s: State, remote: seq<Entity>, id: Value, payload: Patch, reply: Reply<()>)
    requires Synced(s, remote)
    requires UniqueKeys(remote) && PatchesKeepIds(LoadChanges(s.storage))
    ensures Synced(UpdateUser(s, id, payload, reply), remote)
  {
    if reply.Ok? {
      var o := LoadChanges(s.storage);
      if HasKey(o.created, ToJsString(id)) {
        MergeAfterUpdateCreated(remote, o, ToJsString(id), payload);
      } else {
        MergeAfterUpdateRemote(remote, o, ToJsString(id), payload);
      }
    }
  }

  /** Dropping the listed users with the key agrees with a reload when no stored patch
      rewrites an id and, for a locally created user, its key is held by no other
      created or remote user. */
  lemma DeleteStaysSynced(s: State, remote: seq<Entity>, id: Value, reply: Reply<()>)
    requires Synced(s, remote)
    requires PatchesKeepIds(LoadChanges(s.storage))
    requires HasKey(LoadChanges(s.storage).created, ToJsString(id)) ==> UniqueKeys(LoadChanges(s.storage).created + remote)
    ensures Synced(DeleteUser(s, id, reply), remote)
  {
    if reply.Ok? {
      var o := LoadChanges(s.storage);
      if HasKey(o.created, ToJsString(id)) {
        MergeAfterDeleteCreated(remote, o, ToJsString(id));
      } else {
        MergeAfterDeleteRemote(remote, o, ToJsString(id));
      }
    }
  }

  /** When the server hands out the same id for two creates, deleting that id drops
      both users from the list but removes only the newer one from the overlay, so a
      reload brings the older one back. */
  lemma SharedServerIdBreaksSync()
    ensures var s0 := State(Absent, []);
            var s1 := CreateUser(s0, map["name" := Str("A")], Ok(Some(Num(11))), 0);
            var s2 := CreateUser(s1, map["name" := Str("B")], Ok(Some(Num(11))), 0);
            var s3 := DeleteUser(s2, Num(11), Ok(()));
            Synced(s2, []) && s3.users == [] && Merge([], LoadChanges(s3.storage)) != []
  {
    var a := NewUser(map["name" := Str("A")], Some(Num(11)), 0);
    var b := NewUser(map["name" := Str("B")], Some(Num(11)), 0);
    var key := ToJsString(Num(11));
    assert a.Key() == key && b.Key() == key;
    var s0 := State(Absent, []);
    var s1 := CreateUser(s0, map["name" := Str("A")], Ok(Some(Num(11))), 0);
    var s2 := CreateUser(s1, map["name" := Str("B")], Ok(Some(Num(11))), 0);
    assert LoadChanges(s2.storage).created == [b, a];
    assert s2.users == [b, a];
    CreateStaysSynced(s0, [], map["name" := Str("A")], Ok(Some(Num(11))), 0);
    CreateStaysSynced(s1, [], map["name" := Str("B")], Ok(Some(Num(11))), 0);
    assert FirstWithKey([b, a], key, 0);
    var s3 := DeleteUser(s2, Num(11), Ok(()));
    assert LoadChanges(s3.storage).created == [a];
    assert s3.users == [] by {
      assert !KeyIsNot(key)(b) && !KeyIsNot(key)(a);
    }
  }
}
