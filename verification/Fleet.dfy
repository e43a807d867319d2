/** The start of a fleet: every snapshot is loaded before the first missing one is saved. */
module Fleet {
  import opened FileSystem
  import opened ParameterStore

  /** A snapshot is there and does not load. */
  predicate Rejects(sum: Checksum, files: Directory<Content>, m: Model)
    requires ValidModel(m)
  {
    PathOf(m.name) in files && !Loads(sum, m, files[PathOf(m.name)].content)
  }

  /** The model with its snapshot, or as it is when there is none. */
  function Started(files: Directory<Content>, m: Model): Model {
    if PathOf(m.name) in files && files[PathOf(m.name)].content.Json?
    then LoadedModel(m, files[PathOf(m.name)].content.doc) else m
  }

  ghost predicate ValidFleet(models: seq<OdModel>)
    reads models
  {
    && (forall i :: 0 <= i < |models| ==> ValidModel(models[i].View()))
    && (forall i, k :: 0 <= i < k < |models| ==> models[i] != models[k])
  }

  ghost function Views(models: seq<OdModel>): (views: seq<Model>)
    reads models
    ensures |views| == |models| && forall i :: 0 <= i < |models| ==> views[i] == models[i].View()
  {
    seq(|models|, i requires 0 <= i < |models| reads models => models[i].View())
  }

  predicate DistinctNames(models: seq<OdModel>) {
    forall i, k :: 0 <= i < k < |models| ==> models[i].name != models[k].name
  }

  /** Nothing stands in the way of a start: the lock is held, no snapshot is rejected, every
      model without one passes the profile check, and no file operation fails. */
  predicate Startable(store: Store, locked: bool, files: Directory<Content>, views: seq<Model>, fails: seq<nat>)
    requires |fails| == |views| && forall i :: 0 <= i < |views| ==> ValidModel(views[i])
  {
    locked && forall i :: 0 <= i < |views| ==>
      && !Rejects(store.checksum, files, views[i])
      && (PathOf(views[i].name) !in files ==> Savable(views[i]) && fails[i] >= 4)
  }

  class ModelFleet {
    const models: seq<OdModel>
    const store: Store

    constructor (models: seq<OdModel>, store: Store)
      ensures this.models == models && this.store == store
    {
      this.models, this.store := models, store;
    }

    /** Load every snapshot; stop at the first that is rejected. */
    method LoadAll() returns (ok: bool, missing: seq<nat>)
      requires ValidFleet(models)
      modifies models
      ensures ok == forall i :: 0 <= i < |models| ==> !Rejects(store.checksum, store.files, old(models[i].View()))
      ensures ok ==> forall i :: 0 <= i < |models| ==>
                       models[i].View() == Started(store.files, old(models[i].View()))
      ensures ok ==> forall i :: 0 <= i < |models| ==>
                       (i in missing <==> PathOf(models[i].name) !in store.files)
      ensures ok ==> forall k :: 0 <= k < |missing| ==> missing[k] < |models|
    {
      hide Loads, LoadedModel, ValidModel;
      missing := [];
      for i := 0 to |models|
        invariant forall k :: 0 <= k < i ==> !Rejects(store.checksum, store.files, old(models[k].View()))
        invariant forall k :: 0 <= k < i ==> models[k].View() == Started(store.files, old(models[k].View()))
        invariant forall k :: i <= k < |models| ==> models[k].View() == old(models[k].View())
        invariant forall k :: 0 <= k < i ==> (k in missing <==> PathOf(models[k].name) !in store.files)
        invariant forall k :: 0 <= k < |missing| ==> missing[k] < i
      {
        var r := store.Load(models[i]);
        if r == Refused {
          assert Rejects(store.checksum, store.files, old(models[i].View()));
          return false, missing;
        }
        if r == Missing {
          missing := missing + [i];
        }
        if r == Loaded {
          LoadsIsJson(store.checksum, old(models[i].View()), store.files[PathOf(models[i].name)].content);
        }
        assert models[i].View() == Started(store.files, old(models[i].View()));
      }
      return true, missing;
    }

    /** Save the models without a snapshot, up to the first save that fails. */
    method SaveMissing(missing: seq<nat>, temporaries: seq<Name>, fails: seq<nat>) returns (ok: bool)
      requires |temporaries| == |fails| == |models|
      requires forall k :: 0 <= k < |missing| ==> missing[k] < |models| && PathOf(models[missing[k]].name) !in store.files
      requires forall i :: 0 <= i < |temporaries| ==> temporaries[i] !in store.files
      requires forall i, k :: 0 <= i < |temporaries| && 0 <= k < |models| ==> temporaries[i] != PathOf(models[k].name)
      modifies store
      ensures forall n :: n in old(store.files) ==> n in store.files && store.files[n] == old(store.files)[n]
      ensures ok ==> forall k :: 0 <= k < |missing| ==> PathOf(models[missing[k]].name) in store.files
      ensures ok && DistinctNames(models) ==> forall k :: 0 <= k < |missing| ==> SavedAs(store, models[missing[k]])
      ensures (&& old(store.locked)
               && forall k :: 0 <= k < |missing| ==> Savable(models[missing[k]].View()) && fails[missing[k]] >= 4)
              ==> ok
    {
      hide Loads, ValidModel, Attempt, Savable, DocumentOf, PathOf;
      var n := 0;
      while n < |missing|
        invariant n <= |missing| && store.locked == old(store.locked)
        invariant forall k :: k in old(store.files) ==> k in store.files && store.files[k] == old(store.files)[k]
        invariant forall i :: 0 <= i < |temporaries| ==> temporaries[i] !in store.files
        invariant forall k :: 0 <= k < n ==> PathOf(models[missing[k]].name) in store.files
        invariant DistinctNames(models) ==> forall k :: 0 <= k < n ==> SavedAs(store, models[missing[k]])
        decreases |missing| - n
      {
        var i := missing[n];
        ghost var before := store.files;
        ok := store.Save(models[i], temporaries[i], fails[i]);
        SavableIsValid(models[i].View());
        SaveTouchesOwn(before, temporaries[i], store.files, store.checksum, models[i].View(), fails[i], ok);
        if !ok {
          return;
        }
        forall k | 0 <= k < n && DistinctNames(models)
          ensures SavedAs(store, models[missing[k]])
        {
          NamesGivePaths(models[missing[k]].name, models[i].name);
        }
        n := n + 1;
      }
      return true;
    }

    /** The start-up: if any snapshot is rejected no file is written; snapshots that were
        there are never written; a complete start leaves a snapshot for every model, each
        missing one with the values its model has; and nothing but the named causes stops it. */
    method Start(temporaries: seq<Name>, fails: seq<nat>) returns (ok: bool)
      requires ValidFleet(models) && |temporaries| == |fails| == |models|
      requires forall i :: 0 <= i < |temporaries| ==> temporaries[i] !in store.files
      requires forall i, k :: 0 <= i < |temporaries| && 0 <= k < |models| ==> temporaries[i] != PathOf(models[k].name)
      modifies models, store
      ensures (exists i :: 0 <= i < |models| && Rejects(store.checksum, old(store.files), old(models[i].View())))
              ==> !ok && store.files == old(store.files)
      ensures forall n :: n in old(store.files) ==> n in store.files && store.files[n] == old(store.files)[n]
      ensures ok ==> forall i :: 0 <= i < |models| ==> PathOf(models[i].name) in store.files
      ensures Startable(store, old(store.locked), old(store.files), old(Views(models)), fails) ==> ok
      ensures ok && DistinctNames(models) ==>
                forall i :: 0 <= i < |models| && PathOf(models[i].name) !in old(store.files) ==>
                  models[i].View() == old(models[i].View()) && SavedAs(store, models[i])
    {
      hide Loads, LoadedModel, ValidModel, Rejects, Savable, PathOf, SavedAs;
      ghost var views := Views(models);
      var missing: seq<nat>;
      ok, missing := LoadAll();
      if !ok {
        return;
      }
      forall k | 0 <= k < |missing|
        ensures PathOf(models[missing[k]].name) !in store.files && models[missing[k]].View() == views[missing[k]]
      {
        assert missing[k] in missing;
      }
      ok := SaveMissing(missing, temporaries, fails);
      forall i | 0 <= i < |models| && PathOf(models[i].name) !in old(store.files)
        ensures i in missing
        ensures ok ==> PathOf(models[i].name) in store.files
        ensures ok && DistinctNames(models) ==> models[i].View() == views[i] && SavedAs(store, models[i])
      {
        var k :| 0 <= k < |missing| && missing[k] == i;
      }
    }
  }

  /** The snapshot of this model holds its present values. */
  ghost predicate SavedAs(store: Store, model: OdModel)
    reads store, model
  {
    && ValidModel(model.View()) && PathOf(model.name) in store.files
    && store.files[PathOf(model.name)] == File(Json(DocumentOf(store.checksum, model.View())), true)
  }

  lemma NamesGivePaths(a: string, b: string)
    ensures PathOf(a) == PathOf(b) ==> a == b
  {
    if PathOf(a) == PathOf(b) {
      assert a == PathOf(a)[..|PathOf(a)| - 5] && b == PathOf(b)[..|PathOf(b)| - 5];
    }
  }

  lemma LoadsIsJson(sum: Checksum, m: Model, content: Content)
    requires ValidModel(m) && Loads(sum, m, content)
    ensures content.Json?
  {
  }

  lemma SavableIsValid(m: Model)
    ensures Savable(m) ==> ValidModel(m)
  {
  }

  /** A save, complete or not, touches its own path and temporary file only. */
  lemma SaveTouchesOwn(d: Directory<Content>, temporary: Name, e: Directory<Content>, sum: Checksum,
                       m: Model, fails: nat, ok: bool)
    requires temporary != PathOf(m.name) && temporary !in d
    requires (e == d && !ok)
             || (ValidModel(m) && ok == (fails >= 4)
                 && e == ApplyAll(d, Attempt(PathOf(m.name), temporary, Json(DocumentOf(sum, m)), fails)))
    ensures temporary !in e && (ok ==> PathOf(m.name) in e)
    ensures ok ==> e[PathOf(m.name)] == File(Json(DocumentOf(sum, m)), true)
    ensures forall k :: k !in {PathOf(m.name), temporary} ==> (k in d <==> k in e) && (k in d ==> e[k] == d[k])
  {
    hide DocumentOf, ValidModel;
    if ValidModel(m) {
      AttemptStates(d, PathOf(m.name), temporary, Json(DocumentOf(sum, m)), fails);
    }
  }

  lemma AttemptStates(d: Directory<Content>, path: Name, temporary: Name, content: Content, fails: nat)
    requires temporary != path && temporary !in d
    ensures ApplyAll(d, Attempt(path, temporary, content, fails))
            == if fails < 3 then d else Moved(d, path, temporary, content)
  {
    if fails < 3 {
      EarlyErrorKeeps(d, path, temporary, content, fails);
    } else {
      var n := if fails < 4 then fails else 4;
      var ops, steps := Attempt(path, temporary, content, fails), Replacing(path, temporary, content);
      assert ops[..n] == steps[..n];
      PrefixStates(d, path, temporary, content, n);
    }
  }
}
