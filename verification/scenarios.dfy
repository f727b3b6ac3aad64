/**
 Worked examples of the reconciler on concrete data: a numeric remote id matched by its
 string form, a hidden remote user, and a local user deleted without a trace.
 */
module Scenarios {
  import opened JsValue
  import opened Entities
  import opened Overlays
  import opened Reconciler

  function Ann(): Entity {
    Entity(map["id" := Num(1), "name" := Str("Ann")])
  }

  function LocalNew(): Entity {
    Entity(map["id" := Str("local-9"), "name" := Str("New")])
  }

  /** The remote user with numeric id 1 picks up the patch stored under "1", behind the
      locally created user. */
  lemma PatchedRemoteBehindCreated()
    ensures Merge([Ann()], Overlay([LocalNew()], map["1" := map["name" := Str("Annie")]], []))
         == [LocalNew(), Entity(map["id" := Num(1), "name" := Str("Annie")])]
  {
    assert Ann().Key() == "1";
    assert Ann().fields + map["name" := Str("Annie")] == map["id" := Num(1), "name" := Str("Annie")];
  }

  /** A remote user whose key is deleted is not shown. */
  lemma DeletedRemoteHidden()
    ensures Merge([Ann()], Overlay([], map[], ["1"])) == []
  {
  }

  /** Deleting a locally created user empties `created` and leaves `deleted` alone. */
  lemma DeleteLocalLeavesNoTrace()
    ensures RecordDelete(Overlay([LocalNew()], map[], []), "local-9") == Overlay([], map[], [])
  {
    assert FirstWithKey([LocalNew()], "local-9", 0);
  }
}
