/**
 * The build-configuration watcher of pkg/watcher/buildcfg/buildcfg.go.
 *
 * Each tick lists the build configurations and compares them with a store
 * keyed by ID: an item whose ID is not pending fires `BuildConfigAdded`
 * after being stored, and each stored ID that no item claimed is removed
 * and fires `BuildConfigDeleted`. The list call is an input (`None` when it
 * fails); the listener calls are recorded, in order, in the ghost log
 * `events`, each with the store's key set at the moment of the call.
 */
module BuildCfg {
  import opened Wrappers

  type Id = string

  /**
   * A build configuration as the watchers use it: its ID, the Git source
   * (`Parameters.Source.Git.URI` and `.Ref`) and the webhook secret.
   */
  datatype BuildConfig = BuildConfig(id: Id, uri: string, gitRef: string, secret: string)

  /** A listener call, with the store's keys as the listener would see them. */
  datatype Event =
    | Added(config: BuildConfig, storeIds: set<Id>)
    | Deleted(id: Id, storeIds: set<Id>)

  // ---------------------------------------------------------------------
  // Specification of one sync
  // ---------------------------------------------------------------------

  /** The ID a listener call is about. */
  function EventId(e: Event): Id
  {
    match e
    case Added(bc, _) => bc.id
    case Deleted(id, _) => id
  }

  /** The IDs of the listed items. */
  function Ids(items: seq<BuildConfig>): set<Id>
  {
    if items == [] then {} else Ids(items[..|items| - 1]) + {items[|items| - 1].id}
  }

  predicate DistinctIds(items: seq<BuildConfig>)
  {
    forall j, k :: 0 <= j < k < |items| ==> items[j].id != items[k].id
  }

  /** State of the first loop of `sync`: the store, the IDs still pending, the calls made. */
  datatype AddPass = AddPass(store: map<Id, BuildConfig>, pending: set<Id>, added: seq<Event>)

  /** One iteration of the first loop (buildcfg.go:72-77). */
  function AddStep(p: AddPass, bc: BuildConfig): AddPass
  {
    if bc.id in p.pending then
      p.(pending := p.pending - {bc.id})
    else
      var store := p.store[bc.id := bc];
      AddPass(store, p.pending, p.added + [Added(bc, store.Keys)])
  }

  /** The first loop of `sync` over `items`, from `store` with `pending` IDs. */
  function AddItems(store: map<Id, BuildConfig>, pending: set<Id>, items: seq<BuildConfig>): AddPass
  {
    if items == [] then AddPass(store, pending, [])
    else AddStep(AddItems(store, pending, items[..|items| - 1]), items[|items| - 1])
  }

  /** State of the second loop of `sync`. */
  datatype DeletePass = DeletePass(store: map<Id, BuildConfig>, deleted: seq<Event>)

  /** The second loop of `sync` over the leftover IDs, in the order `order` (buildcfg.go:80-83). */
  function DeleteIds(store: map<Id, BuildConfig>, order: seq<Id>): DeletePass
  {
    if order == [] then DeletePass(store, [])
    else
      var p := DeleteIds(store, order[..|order| - 1]);
      var id := order[|order| - 1];
      var s := p.store - {id};
      DeletePass(s, p.deleted + [Deleted(id, s.Keys)])
  }

  /** The IDs the second loop of a sync from `store` visits. */
  function Leftover(store: map<Id, BuildConfig>, items: seq<BuildConfig>): set<Id>
  {
    AddItems(store, store.Keys, items).pending
  }

  /** `order` lists every element of `s` exactly once. */
  ghost predicate Enumerates(order: seq<Id>, s: set<Id>)
  {
    && (forall j, k :: 0 <= j < k < |order| ==> order[j] != order[k])
    && (forall id :: id in order <==> id in s)
  }

  datatype SyncOutcome = SyncOutcome(store: map<Id, BuildConfig>, added: seq<Event>, deleted: seq<Event>)

  /** A successful sync of `store` against `items`, deleting leftovers in `order`. */
  function SyncSpec(store: map<Id, BuildConfig>, items: seq<BuildConfig>, order: seq<Id>): SyncOutcome
  {
    var a := AddItems(store, store.Keys, items);
    var d := DeleteIds(a.store, order);
    SyncOutcome(d.store, a.added, d.deleted)
  }

  /**
   * Reference definition of the items that fire `BuildConfigAdded`, in list
   * order: those whose ID was not stored before the tick, and those whose ID
   * already occurred earlier in the same list.
   */
  function Fires(known: set<Id>, items: seq<BuildConfig>): seq<BuildConfig>
  {
    if items == [] then []
    else
      var n := |items| - 1;
      Fires(known, items[..n]) + (if items[n].id !in known || items[n].id in Ids(items[..n]) then [items[n]] else [])
  }

  /** The items whose ID is not in `known`, in list order. */
  function New(known: set<Id>, items: seq<BuildConfig>): seq<BuildConfig>
  {
    if items == [] then []
    else
      var n := |items| - 1;
      New(known, items[..n]) + (if items[n].id !in known then [items[n]] else [])
  }

  // ---------------------------------------------------------------------
  // Properties of one sync
  // ---------------------------------------------------------------------

  lemma IdsMember(items: seq<BuildConfig>, id: Id)
    ensures id in Ids(items) <==> exists k :: 0 <= k < |items| && items[k].id == id
  {
    if items != [] {
      var n := |items| - 1;
      IdsMember(items[..n], id);
      if id in Ids(items[..n]) {
        var k :| 0 <= k < n && items[..n][k].id == id;
        assert items[k].id == id;
      }
      if exists k :: 0 <= k < |items| && items[k].id == id {
        var k :| 0 <= k < |items| && items[k].id == id;
        if k < n { assert items[..n][k].id == id; }
      }
    }
  }

  /**
   * The first loop, started with every stored ID pending: the pending IDs
   * are the stored ones no item claimed, every listed ID ends up stored,
   * the calls are exactly `Fires` in list order, each made after its item
   * was stored, and a stored ID that no item lists keeps its object.
   */
  lemma {:induction false} AddItemsInvariant(store: map<Id, BuildConfig>, items: seq<BuildConfig>)
    ensures var a := AddItems(store, store.Keys, items);
      && a.pending == store.Keys - Ids(items)
      && a.store.Keys == store.Keys + Ids(items)
      && |a.added| == |Fires(store.Keys, items)|
      && (forall k :: 0 <= k < |a.added| ==>
            a.added[k].Added? && a.added[k].config == Fires(store.Keys, items)[k] && a.added[k].config.id in a.added[k].storeIds)
      && (forall id :: id in store && id !in Ids(items) ==> a.store[id] == store[id])
  {
    if items != [] {
      var n := |items| - 1;
      var bc := items[n];
      AddItemsInvariant(store, items[..n]);
      assert items[..n] + [bc] == items;
    }
  }

  /** The second loop removes exactly the visited IDs and calls once per ID, in order. */
  lemma {:induction false} DeleteIdsInvariant(store: map<Id, BuildConfig>, order: seq<Id>)
    ensures var d := DeleteIds(store, order);
      && d.store == store - (set id | id in order)
      && |d.deleted| == |order|
      && (forall k :: 0 <= k < |order| ==>
            d.deleted[k].Deleted? && d.deleted[k].id == order[k] && order[k] !in d.deleted[k].storeIds)
  {
    if order != [] {
      var n := |order| - 1;
      DeleteIdsInvariant(store, order[..n]);
      assert (set id | id in order) == (set id | id in order[..n]) + {order[n]} by {
        assert order == order[..n] + [order[n]];
      }
    }
  }

  /** After a successful sync the store holds exactly the listed IDs. */
  lemma SyncStoreKeys(store: map<Id, BuildConfig>, items: seq<BuildConfig>, order: seq<Id>)
    requires Enumerates(order, Leftover(store, items))
    ensures SyncSpec(store, items, order).store.Keys == Ids(items)
  {
    AddItemsInvariant(store, items);
    DeleteIdsInvariant(AddItems(store, store.Keys, items).store, order);
  }

  /**
   * `BuildConfigDeleted` fires once for each ID that was stored and is no
   * longer listed, and for no other ID; each call comes after the removal.
   */
  lemma SyncDeletesVanished(store: map<Id, BuildConfig>, items: seq<BuildConfig>, order: seq<Id>)
    requires Enumerates(order, Leftover(store, items))
    ensures var r := SyncSpec(store, items, order);
      && |r.deleted| == |order|
      && (forall k :: 0 <= k < |r.deleted| ==> r.deleted[k].Deleted? && r.deleted[k].id !in r.deleted[k].storeIds)
      && (forall id :: (exists k :: 0 <= k < |r.deleted| && r.deleted[k].id == id) <==> id in store.Keys - Ids(items))
      && (forall j, k :: 0 <= j < k < |r.deleted| ==> r.deleted[j].id != r.deleted[k].id)
  {
    AddItemsInvariant(store, items);
    DeleteIdsInvariant(AddItems(store, store.Keys, items).store, order);
    var r := SyncSpec(store, items, order);
    forall id
      ensures (exists k :: 0 <= k < |r.deleted| && r.deleted[k].id == id) <==> id in store.Keys - Ids(items)
    {
      if id in store.Keys - Ids(items) {
        var k :| 0 <= k < |order| && order[k] == id;
        assert r.deleted[k].id == id;
      }
    }
  }

  /**
   * `BuildConfigAdded` fires for exactly the items of `Fires`, in list
   * order, each after the item was stored.
   */
  lemma SyncAddsFires(store: map<Id, BuildConfig>, items: seq<BuildConfig>, order: seq<Id>)
    ensures var r := SyncSpec(store, items, order);
      && |r.added| == |Fires(store.Keys, items)|
      && forall k :: 0 <= k < |r.added| ==>
           r.added[k].Added? && r.added[k].config == Fires(store.Keys, items)[k] && r.added[k].config.id in r.added[k].storeIds
  {
    AddItemsInvariant(store, items);
  }

  /** With distinct IDs, the items that fire are exactly the new ones. */
  lemma {:induction false} FiresDistinct(known: set<Id>, items: seq<BuildConfig>)
    requires DistinctIds(items)
    ensures Fires(known, items) == New(known, items)
  {
    if items != [] {
      var n := |items| - 1;
      assert DistinctIds(items[..n]);
      FiresDistinct(known, items[..n]);
      IdsMember(items[..n], items[n].id);
    }
  }

  /**
   * With distinct IDs, `BuildConfigAdded` fires once for each item whose ID
   * is new, in list order, and for no other item.
   */
  lemma SyncAddsNew(store: map<Id, BuildConfig>, items: seq<BuildConfig>, order: seq<Id>)
    requires DistinctIds(items)
    ensures var r := SyncSpec(store, items, order);
      && |r.added| == |New(store.Keys, items)|
      && forall k :: 0 <= k < |r.added| ==> r.added[k] == Added(New(store.Keys, items)[k], r.added[k].storeIds)
  {
    SyncAddsFires(store, items, order);
    FiresDistinct(store.Keys, items);
  }

  /** An item is new exactly when its ID was not stored. */
  lemma {:induction false} NewMember(known: set<Id>, items: seq<BuildConfig>, bc: BuildConfig)
    ensures bc in New(known, items) <==> bc in items && bc.id !in known
  {
    if items != [] {
      var n := |items| - 1;
      NewMember(known, items[..n], bc);
      assert items == items[..n] + [items[n]];
    }
  }

  /**
   * With distinct IDs, an ID both stored and listed fires no call and keeps
   * the object stored earlier: the newly listed object does not replace it.
   */
  lemma {:induction false} SyncKeepsKnown(store: map<Id, BuildConfig>, items: seq<BuildConfig>, order: seq<Id>, id: Id)
    requires DistinctIds(items)
    requires Enumerates(order, Leftover(store, items))
    requires id in store && id in Ids(items)
    ensures var r := SyncSpec(store, items, order);
      && id in r.store && r.store[id] == store[id]
      && (forall k :: 0 <= k < |r.added| ==> EventId(r.added[k]) != id)
      && (forall k :: 0 <= k < |r.deleted| ==> EventId(r.deleted[k]) != id)
  {
    var a := AddItems(store, store.Keys, items);
    KeepsKnownInAddPass(store, items, id);
    AddItemsInvariant(store, items);
    DeleteIdsInvariant(a.store, order);
    SyncAddsNew(store, items, order);
    var r := SyncSpec(store, items, order);
    forall k | 0 <= k < |r.added| ensures EventId(r.added[k]) != id {
      NewMember(store.Keys, items, New(store.Keys, items)[k]);
    }
  }

  /** With distinct IDs, the first loop never rewrites a stored ID that is listed. */
  lemma {:induction false} KeepsKnownInAddPass(store: map<Id, BuildConfig>, items: seq<BuildConfig>, id: Id)
    requires DistinctIds(items)
    requires id in store
    ensures var a := AddItems(store, store.Keys, items);
      id in a.store && a.store[id] == store[id]
  {
    if items != [] {
      var n := |items| - 1;
      assert DistinctIds(items[..n]);
      KeepsKnownInAddPass(store, items[..n], id);
      AddItemsInvariant(store, items[..n]);
      if items[n].id == id {
        IdsMember(items[..n], id);
      }
    }
  }

  /**
   * A repeated ID is not deduplicated. When the ID was stored, its first
   * occurrence only clears it from the pending set and the second takes the
   * add branch, replacing the stored object and firing; when it was not
   * stored, both occurrences fire.
   */
  lemma DuplicateReAdded(store: map<Id, BuildConfig>, first: BuildConfig, second: BuildConfig)
    requires first.id == second.id
    ensures var a := AddItems(store, store.Keys, [first, second]);
      && first.id in a.store && a.store[first.id] == second
      && (first.id in store ==> a.added == [Added(second, a.store.Keys)])
      && (first.id !in store ==> |a.added| == 2 && a.added[0].Added? && a.added[0].config == first && a.added[1] == Added(second, a.store.Keys))
  {
    var p0 := AddItems(store, store.Keys, []);
    assert [first, second][..1] == [first];
    assert [first][..0] == [];
    var p1 := AddItems(store, store.Keys, [first]);
    assert p1 == AddStep(p0, first);
    assert AddItems(store, store.Keys, [first, second]) == AddStep(p1, second);
  }

  // ---------------------------------------------------------------------
  // The watcher
  // ---------------------------------------------------------------------

  class BuildConfigWatcher {
    var store: map<Id, BuildConfig>
    var stop: bool
    ghost var events: seq<Event>

    /** `WatchBuildConfigs` with an empty store, without the ticking goroutine. */
    constructor ()
      ensures store == map[] && !stop && events == []
    {
      store := map[];
      stop := false;
      events := [];
    }

    /** What one call of `sync` does, for the list call's result `fetched`. */
    twostate predicate SyncDone(fetched: Option<seq<BuildConfig>>, new ok: bool, new order: seq<Id>)
      reads this
    {
      && stop == old(stop)
      && (ok <==> fetched.Some?)
      && (!ok ==> store == old(store) && events == old(events))
      && (ok ==>
            && Enumerates(order, Leftover(old(store), fetched.value))
            && var r := SyncSpec(old(store), fetched.value, order);
            && store == r.store
            && events == old(events) + r.added + r.deleted)
    }

    /**
     * One sync. The leftover IDs are visited in the order the store's ID
     * set lists them, which is returned as `order`.
     */
    method Sync(fetched: Option<seq<BuildConfig>>) returns (ok: bool, ghost order: seq<Id>)
      modifies this
      ensures SyncDone(fetched, ok, order)
    {
      order := [];
      if fetched.None? {
        return false, order;
      }
      var items := fetched.value;
      var ids := store.Keys;
      ghost var added: seq<Event> := [];
      for i := 0 to |items|
        invariant AddItems(old(store), old(store).Keys, items[..i]) == AddPass(store, ids, added)
        invariant events == old(events) + added
        invariant stop == old(stop)
      {
        assert items[..i + 1][..i] == items[..i];
        var bc := items[i];
        if bc.id in ids {
          ids := ids - {bc.id};
        } else {
          store := store[bc.id := bc];
          events := events + [Added(bc, store.Keys)];
          added := added + [Added(bc, store.Keys)];
        }
      }
      assert items[..|items|] == items;
      ghost var afterAdd := store;
      ghost var leftover := ids;
      ghost var deleted: seq<Event> := [];
      while ids != {}
        invariant DeleteIds(afterAdd, order) == DeletePass(store, deleted)
        invariant events == old(events) + added + deleted
        invariant forall id :: id in leftover <==> id in ids || id in order
        invariant forall id :: id in ids ==> id !in order
        invariant forall j, k :: 0 <= j < k < |order| ==> order[j] != order[k]
        invariant stop == old(stop)
        decreases ids
      {
        var id :| id in ids;
        store := store - {id};
        events := events + [Deleted(id, store.Keys)];
        deleted := deleted + [Deleted(id, store.Keys)];
        ids := ids - {id};
        order := order + [id];
      }
      ok := true;
    }

    /** Only raises the flag; the loop reads it at the start of each tick. */
    method Stop()
      modifies this
      ensures stop
      ensures store == old(store) && events == old(events)
    {
      stop := true;
    }

    /**
     * One iteration of the `Watch` loop: a tick that finds the flag raised
     * leaves without syncing; otherwise it syncs.
     */
    method Tick(fetched: Option<seq<BuildConfig>>) returns (running: bool, ok: bool, ghost order: seq<Id>)
      modifies this
      ensures running == !old(stop)
      ensures !running ==> !ok && store == old(store) && events == old(events) && stop == old(stop)
      ensures running ==> SyncDone(fetched, ok, order)
    {
      if stop {
        return false, false, [];
      }
      running := true;
      ok, order := Sync(fetched);
    }
  }

  // ---------------------------------------------------------------------
  // The range variable of the first loop, as written
  // ---------------------------------------------------------------------

  /**
   * The loop variable `buildConfig` of buildcfg.go:71. Under Go's loop
   * semantics before version 1.22 there is one such variable for the whole
   * loop, overwritten by every iteration; its address is what the listener
   * receives at buildcfg.go:76.
   */
  class RangeVariable {
    var value: BuildConfig

    constructor (value: BuildConfig)
      ensures this.value == value
    {
      this.value := value;
    }
  }

  /**
   * The first loop of `sync` as written, tracking the pointers handed to
   * `BuildConfigAdded`. There is one call per item of the specified add pass,
   * but every pointer is the same variable, so once the loop is over each
   * of them reads the last listed item, not the item it was handed for.
   */
  method HandedPointersAsWritten(store: map<Id, BuildConfig>, items: seq<BuildConfig>) returns (handed: seq<RangeVariable>)
    ensures |handed| == |AddItems(store, store.Keys, items).added|
    ensures |items| > 0 ==> forall k :: 0 <= k < |handed| ==> handed[k].value == items[|items| - 1]
  {
    var v := new RangeVariable(BuildConfig("", "", "", ""));
    var ids := store.Keys;
    var s := store;
    handed := [];
    for i := 0 to |items|
      invariant var a := AddItems(store, store.Keys, items[..i]);
        a.store == s && a.pending == ids && |a.added| == |handed|
      invariant forall k :: 0 <= k < |handed| ==> handed[k] == v
      invariant i > 0 ==> v.value == items[i - 1]
    {
      assert items[..i + 1][..i] == items[..i];
      v.value := items[i];
      var bc := v.value;
      if bc.id in ids {
        ids := ids - {bc.id};
      } else {
        s := s[bc.id := bc];
        handed := handed + [v];
      }
    }
    assert items[..|items|] == items;
  }
}
