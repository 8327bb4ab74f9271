/** Sequences of asset updates of one organization or service, committed, rolled back and failed
    ones: when every recorded URL still names an object. */
module AssetRuns {
  import opened ObjectUrls
  import opened AssetSync
  import opened AssetTheorems
  import opened Wrappers

  function HashMap(items: seq<Item>): map<string, Hashes> {
    if items == [] then map[]
    else
      var last := items[|items| - 1];
      HashMap(items[..|items| - 1])[last.assetType := last.hashes]
  }

  // Organizations store the hashes of their metadata. For services the factory looks for them under the
  // name of the column, which the metadata does not have, and stores none.
  function StoredHashes(e: Entity, items: seq<Item>): map<string, Hashes> {
    if e.service == "" then HashMap(items) else map[]
  }

  // The record an update leaves in the database if it is committed.
  function NewRecord(e: Entity, rec: Record, items: seq<Item>): Record {
    Record(StoredHashes(e, items), AddUrls(map[], e, rec, items))
  }

  predicate HasType(items: seq<Item>, t: string) {
    exists i | 0 <= i < |items| :: items[i].assetType == t
  }

  lemma {:induction false} HashMapAt(items: seq<Item>, t: string)
    requires forall i, j | 0 <= i < j < |items| :: items[i].assetType != items[j].assetType
    ensures t in HashMap(items) <==> HasType(items, t)
    ensures forall i | 0 <= i < |items| && items[i].assetType == t ::
              t in HashMap(items) && HashMap(items)[t] == items[i].hashes
  {
    if items != [] {
      var n := |items|;
      HashMapAt(items[..n - 1], t);
      if HasType(items[..n - 1], t) {
        var i :| 0 <= i < n - 1 && items[..n - 1][i].assetType == t;
        assert items[i].assetType == t;
      }
    }
  }

  lemma {:induction false} AddUrlsAt(m: map<string, Urls>, e: Entity, rec: Record, items: seq<Item>, t: string)
    requires forall i, j | 0 <= i < j < |items| :: items[i].assetType != items[j].assetType
    ensures var urls := AddUrls(m, e, rec, items);
            && (!HasType(items, t) ==> (t in urls <==> t in m) && (t in m ==> urls[t] == m[t]))
            && (forall i | 0 <= i < |items| && items[i].assetType == t ::
                  var u := UrlsFor(e, rec, items[i]);
                  if u.Some? then t in urls && urls[t] == u.value
                  else (t in urls <==> t in m) && (t in m ==> urls[t] == m[t]))
    decreases |items|
  {
    if items != [] {
      var item, rest := items[0], items[1..];
      var u := UrlsFor(e, rec, item);
      AddUrlsAt(if u.Some? then m[item.assetType := u.value] else m, e, rec, rest, t);
      assert forall i | 0 < i < |items| :: items[i] == rest[i - 1];
      if HasType(rest, t) {
        var i :| 0 <= i < |rest| && rest[i].assetType == t;
        assert items[i + 1].assetType == t;
      }
    }
  }

  // The URLs an admissible item adds are of its own type and shape.
  lemma UrlsForOwn(e: Entity, rec: Record, item: Item)
    requires WellRecorded(e, rec) && GoodItem(e, rec, item)
    ensures var u := UrlsFor(e, rec, item);
            && (u.Some? <==> !item.hashes.OtherShape?)
            && (u.Some? ==> SameShape(item.hashes, u.value))
            && (u.Some? ==> forall url | url in UrlSet(u.value) :: OwnUrl(e, item.assetType, url))
            && (u.Some? && !Retained(rec, item) ==>
                  forall url | url in UrlSet(u.value) :: ObjectOf(url) in Uploaded(e, rec, item))
  {
    var t := item.assetType;
    forall hash | hash in HashSet(item.hashes)
      ensures OwnUrl(e, t, PushedUrl(e, hash, t)) && ObjectOf(PushedUrl(e, hash, t)) == PushedObject(e, hash, t)
    {
      GoodHashOwns(e, hash, t);
    }
    if item.hashes.Many? {
      var urls := PushedUrls(e, item.hashes.hashes, t);
      forall url | url in urls
        ensures OwnUrl(e, t, url) && ObjectOf(url) in Uploaded(e, rec, item)
      {
        var i :| 0 <= i < |urls| && urls[i] == url;
        assert item.hashes.hashes[i] in HashSet(item.hashes);
      }
    }
  }

  lemma NewRecordIsWell(e: Entity, rec: Record, items: seq<Item>)
    requires WellRecorded(e, rec) && Admissible(e, rec, items)
    ensures WellRecorded(e, NewRecord(e, rec, items))
  {
    var newRec := NewRecord(e, rec, items);
    forall t | t in newRec.urls
      ensures t in newRec.hashes ==> SameShape(newRec.hashes[t], newRec.urls[t])
      ensures forall url | url in UrlSet(newRec.urls[t]) :: OwnUrl(e, t, url)
    {
      AddUrlsAt(map[], e, rec, items, t);
      HashMapAt(items, t);
      var i :| 0 <= i < |items| && items[i].assetType == t;
      UrlsForOwn(e, rec, items[i]);
    }
    forall t | t in newRec.hashes && !newRec.hashes[t].OtherShape?
      ensures t in newRec.urls
    {
      AddUrlsAt(map[], e, rec, items, t);
      HashMapAt(items, t);
      var i :| 0 <= i < |items| && items[i].assetType == t;
      UrlsForOwn(e, rec, items[i]);
    }
  }

  lemma {:induction false} DeletedBySome(rec: Record, items: seq<Item>, o: Object)
    ensures o in AllDeleted(rec, items) <==> exists i :: 0 <= i < |items| && o in Deleted(rec, items[i])
  {
    if items != [] {
      var rest := items[1..];
      DeletedBySome(rec, rest, o);
      assert forall i | 0 < i < |items| :: items[i] == rest[i - 1];
      if i :| 0 <= i < |rest| && o in Deleted(rec, rest[i]) {
        assert o in Deleted(rec, items[i + 1]);
      }
    }
  }

  lemma {:induction false} UploadedBySome(e: Entity, rec: Record, items: seq<Item>, o: Object)
    ensures o in AllUploaded(e, rec, items) <==> exists i :: 0 <= i < |items| && o in Uploaded(e, rec, items[i])
  {
    if items != [] {
      var rest := items[1..];
      UploadedBySome(e, rec, rest, o);
      assert forall i | 0 < i < |items| :: items[i] == rest[i - 1];
      if i :| 0 <= i < |rest| && o in Uploaded(e, rec, rest[i]) {
        assert o in Uploaded(e, rec, items[i + 1]);
      }
    }
  }

  // The turns of an update touch an object only at the turn of its own type.
  lemma {:induction false} RetainedIsSpared(e: Entity, rec: Record, items: seq<Item>, k: nat)
    requires WellRecorded(e, rec) && Admissible(e, rec, items) && k < |items| && Retained(rec, items[k])
    ensures items[k].assetType in rec.urls && rec.urls[items[k].assetType].OneUrl?
    ensures var o := ObjectOf(rec.urls[items[k].assetType].url);
            o !in AllDeleted(rec, items) && o !in AllUploaded(e, rec, items)
  {
    var t := items[k].assetType;
    var url := rec.urls[t].url;
    var o := ObjectOf(url);
    OwnUrlParses(e, t, url);
    DeletedBySome(rec, items, o);
    UploadedBySome(e, rec, items, o);
    forall i | 0 <= i < |items|
      ensures o !in Deleted(rec, items[i]) && o !in Uploaded(e, rec, items[i])
    {
      ItemTouchesOwn(e, rec, items[i]);
      if o in Deleted(rec, items[i]) || o in Uploaded(e, rec, items[i]) {
        OwnObjectsDiffer(e, t, items[i].assetType, o);
      }
    }
  }

  // The recorded objects of the types whose URL an update keeps are there.
  predicate RetainedLive(store: set<Object>, rec: Record, items: seq<Item>) {
    forall i | 0 <= i < |items| && Retained(rec, items[i]) && items[i].assetType in rec.urls ::
      forall url | url in UrlSet(rec.urls[items[i].assetType]) :: ObjectOf(url) in store
  }

  /** With the whole loop done, the new map's URLs all name objects exactly when those of the types
      it retains did so before. */
  lemma FinishedLoopLiveIff(e: Entity, w: World, rec: Record, items: seq<Item>)
    requires WellRecorded(e, rec) && Admissible(e, rec, items)
    requires |Plan(rec, items)| <= w.budget
    ensures var o := Run(e, w, Plan(rec, items));
            o.finished && (Live(o.world.store, NewRecord(e, rec, items)) <==> RetainedLive(w.store, rec, items))
  {
    UpdateEffect(e, w, rec, items);
    var after := Run(e, w, Plan(rec, items)).world.store;
    var urls := NewRecord(e, rec, items).urls;
    forall i | 0 <= i < |items| && Retained(rec, items[i])
      ensures var t := items[i].assetType; t in rec.urls && t in urls && urls[t] == rec.urls[t] && urls[t].OneUrl?
      ensures var o := ObjectOf(rec.urls[items[i].assetType].url); o in after <==> o in w.store
    {
      AddUrlsAt(map[], e, rec, items, items[i].assetType);
      RetainedIsSpared(e, rec, items, i);
    }
    forall t, url | t in urls && url in UrlSet(urls[t]) && RetainedLive(w.store, rec, items)
      ensures ObjectOf(url) in after
    {
      AddUrlsAt(map[], e, rec, items, t);
      var i :| 0 <= i < |items| && items[i].assetType == t;
      UrlsForOwn(e, rec, items[i]);
      UploadedBySome(e, rec, items, ObjectOf(url));
    }
  }

  // ---------- accounting by recorded URLs ----------

  function RecordedObjects(rec: Record): set<Object> {
    set t, url | t in rec.urls && url in UrlSet(rec.urls[t]) :: ObjectOf(url)
  }

  // The recorded objects of the list and string types of the new metadata.
  function ReplacedObjects(rec: Record, items: seq<Item>): set<Object> {
    set i, url | 0 <= i < |items| && !items[i].hashes.OtherShape? && items[i].assetType in rec.urls
              && url in UrlSet(rec.urls[items[i].assetType]) :: ObjectOf(url)
  }

  /** Main result on accounting: the whole loop leaves the store as it was, minus the recorded objects
      of every list or string type of the new metadata, plus the objects of the new URLs, exactly when
      the objects it retains are there. */
  lemma BucketAccounting(e: Entity, w: World, rec: Record, items: seq<Item>)
    requires WellRecorded(e, rec) && Admissible(e, rec, items)
    requires |Plan(rec, items)| <= w.budget
    ensures Run(e, w, Plan(rec, items)).world.store
         == w.store - ReplacedObjects(rec, items) + RecordedObjects(NewRecord(e, rec, items))
       <==> RetainedLive(w.store, rec, items)
  {
    UpdateEffect(e, w, rec, items);
    FinishedLoopLiveIff(e, w, rec, items);
    var after, newRec := Run(e, w, Plan(rec, items)).world.store, NewRecord(e, rec, items);
    var accounted := w.store - ReplacedObjects(rec, items) + RecordedObjects(newRec);
    if RetainedLive(w.store, rec, items) {
      forall o ensures o in after <==> o in accounted {
        Accounted(e, w.store, rec, items, o);
      }
    } else {
      RecordedInStoreIsLive(accounted, newRec);
    }
  }

  lemma RecordedInStoreIsLive(store: set<Object>, rec: Record)
    ensures RecordedObjects(rec) <= store ==> Live(store, rec)
  {
    if RecordedObjects(rec) <= store {
      forall t, url | t in rec.urls && url in UrlSet(rec.urls[t]) ensures ObjectOf(url) in store {
        assert ObjectOf(url) in RecordedObjects(rec);
      }
    }
  }

  lemma Accounted(e: Entity, store: set<Object>, rec: Record, items: seq<Item>, o: Object)
    requires WellRecorded(e, rec) && Admissible(e, rec, items) && RetainedLive(store, rec, items)
    ensures (o in store && o !in AllDeleted(rec, items)) || o in AllUploaded(e, rec, items)
       <==> (o in store && o !in ReplacedObjects(rec, items)) || o in RecordedObjects(NewRecord(e, rec, items))
  {
    var urls := NewRecord(e, rec, items).urls;
    DeletedBySome(rec, items, o);
    UploadedBySome(e, rec, items, o);
    if o in AllUploaded(e, rec, items) {
      var i :| 0 <= i < |items| && o in Uploaded(e, rec, items[i]);
      UploadedIsRecorded(e, rec, items, i, o);
    }
    if o in RecordedObjects(NewRecord(e, rec, items)) {
      RecordedIsThere(e, store, rec, items, o);
    }
    if o in store && o !in AllDeleted(rec, items) && o in ReplacedObjects(rec, items) {
      var i, url :| 0 <= i < |items| && !items[i].hashes.OtherShape? && items[i].assetType in rec.urls
                 && url in UrlSet(rec.urls[items[i].assetType]) && ObjectOf(url) == o;
      assert Retained(rec, items[i]);
      AddUrlsAt(map[], e, rec, items, items[i].assetType);
    }
  }

  lemma RecordedIsThere(e: Entity, store: set<Object>, rec: Record, items: seq<Item>, o: Object)
    requires WellRecorded(e, rec) && Admissible(e, rec, items) && RetainedLive(store, rec, items)
    requires o in RecordedObjects(NewRecord(e, rec, items))
    ensures (o in store && o !in AllDeleted(rec, items)) || o in AllUploaded(e, rec, items)
  {
    var urls := NewRecord(e, rec, items).urls;
    var t, url :| t in urls && url in UrlSet(urls[t]) && ObjectOf(url) == o;
    AddUrlsAt(map[], e, rec, items, t);
    var i :| 0 <= i < |items| && items[i].assetType == t;
    UrlsForOwn(e, rec, items[i]);
    if Retained(rec, items[i]) {
      RetainedIsSpared(e, rec, items, i);
    } else {
      UploadedBySome(e, rec, items, o);
    }
  }

  lemma {:induction false} UploadedIsRecorded(e: Entity, rec: Record, items: seq<Item>, i: nat, o: Object)
    requires WellRecorded(e, rec) && Admissible(e, rec, items) && i < |items| && o in Uploaded(e, rec, items[i])
    ensures o in RecordedObjects(NewRecord(e, rec, items))
  {
    var item, t := items[i], items[i].assetType;
    var hash :| hash in HashSet(item.hashes) && PushedObject(e, hash, t) == o;
    GoodHashOwns(e, hash, t);
    AddUrlsAt(map[], e, rec, items, t);
    PushedUrlIsAdded(e, rec, item, hash);
    var urls := NewRecord(e, rec, items).urls;
    assert PushedUrl(e, hash, t) in UrlSet(urls[t]);
  }

  lemma PushedUrlIsAdded(e: Entity, rec: Record, item: Item, hash: string)
    requires hash in HashSet(item.hashes) && !Retained(rec, item)
    ensures var u := UrlsFor(e, rec, item); u.Some? && PushedUrl(e, hash, item.assetType) in UrlSet(u.value)
  {
    if item.hashes.Many? {
      var j :| 0 <= j < |item.hashes.hashes| && item.hashes.hashes[j] == hash;
      assert PushedUrls(e, item.hashes.hashes, item.assetType)[j] == PushedUrl(e, hash, item.assetType);
    }
  }

  // ---------- loops cut short ----------

  // What the last action of a plan that touches an object does to it.
  datatype Fate = Untouched | Removed | Stored

  function FateOf(e: Entity, plan: seq<Action>, o: Object): Fate
    decreases |plan|
  {
    if plan == [] then Untouched
    else
      var later := FateOf(e, plan[1..], o);
      if later != Untouched then later
      else
        match plan[0]
        case Delete(url) => if GetBucketAndKeyFromUrl(url) == Some(o) then Removed else Untouched
        case Push(hash, t) => if PushedObject(e, hash, t) == o then Stored else Untouched
        case Raise => Untouched
  }

  // Nothing in the plan raises by itself.
  predicate Performable(plan: seq<Action>) {
    forall i | 0 <= i < |plan| :: !plan[i].Raise? && (plan[i].Delete? ==> GetBucketAndKeyFromUrl(plan[i].url).Some?)
  }

  // As much of a plan as the outside lasts for.
  function Done(plan: seq<Action>, budget: nat): seq<Action> {
    if budget < |plan| then plan[..budget] else plan
  }

  lemma {:induction false} CutShort(e: Entity, w: World, plan: seq<Action>, o: Object)
    requires Performable(plan)
    ensures var fate := FateOf(e, Done(plan, w.budget), o);
            o in Run(e, w, plan).world.store <==> fate == Stored || (fate == Untouched && o in w.store)
    decreases |plan|
  {
    if plan != [] && w.budget > 0 {
      var done := Done(plan, w.budget);
      assert plan == [plan[0]] + plan[1..] && done[1..] == Done(plan[1..], w.budget - 1);
      RunStep(e, w, plan[0], plan[1..]);
      CutShort(e, Perform(e, w, plan[0]).value, plan[1..], o);
    }
  }

  lemma {:induction false} DeletesPerformable(e: Entity, urls: seq<string>, t: string)
    requires GoodEntity(e) && forall url | url in urls :: OwnUrl(e, t, url)
    ensures Performable(DeleteAll(urls))
  {
    if urls != [] {
      OwnUrlParses(e, t, urls[0]);
      DeletesPerformable(e, urls[1..], t);
    }
  }

  lemma {:induction false} PushesPerformable(hashes: seq<string>, t: string)
    ensures Performable(PushAll(hashes, t))
  {
    if hashes != [] {
      PushesPerformable(hashes[1..], t);
    }
  }

  lemma {:induction false} PlanPerformable(e: Entity, rec: Record, items: seq<Item>)
    requires WellRecorded(e, rec) && Admissible(e, rec, items)
    ensures Performable(Plan(rec, items))
  {
    if items != [] {
      var item := items[0];
      var t := item.assetType;
      if item.hashes.Many? {
        PushesPerformable(item.hashes.hashes, t);
        if t in rec.urls {
          DeletesPerformable(e, rec.urls[t].urls, t);
        }
      } else if item.hashes.One? && t in rec.urls {
        OwnUrlParses(e, t, rec.urls[t].url);
      }
      PlanPerformable(e, rec, items[1..]);
    }
  }

  // ---------- one update ----------

  /** The new metadata of an update, how many calls to the outside succeed during its loop, and
      whether the transaction around the loop is committed if the loop is done. */
  datatype Update = Update(items: seq<Item>, budget: nat, committed: bool)

  datatype State = State(store: set<Object>, rec: Record)

  // Whatever becomes of the record, what was done to the store stays done.
  function After(e: Entity, s: State, u: Update): State {
    var o := Run(e, World(s.store, u.budget), Plan(s.rec, u.items));
    State(o.world.store, if o.finished && u.committed then NewRecord(e, s.rec, u.items) else s.rec)
  }

  predicate Commits(s: State, u: Update) {
    |Plan(s.rec, u.items)| <= u.budget && u.committed
  }

  /** Main result on a committed update: the new record is live exactly when the objects it retains
      were there before. */
  lemma CommittedUpdateLiveIff(e: Entity, s: State, u: Update)
    requires WellRecorded(e, s.rec) && Admissible(e, s.rec, u.items) && Commits(s, u)
    ensures After(e, s, u).rec == NewRecord(e, s.rec, u.items)
    ensures Live(After(e, s, u).store, After(e, s, u).rec) <==> RetainedLive(s.store, s.rec, u.items)
  {
    FinishedLoopLiveIff(e, World(s.store, u.budget), s.rec, u.items);
  }

  /** Main result on any other update, its loop cut short or done and rolled back: the record stays,
      and is live afterwards exactly when each of its objects was last stored, or was there and left
      alone, by the actions that were carried out. */
  lemma UncommittedUpdateLiveIff(e: Entity, s: State, u: Update)
    requires WellRecorded(e, s.rec) && Admissible(e, s.rec, u.items) && !Commits(s, u)
    ensures After(e, s, u).rec == s.rec
    ensures Live(After(e, s, u).store, s.rec) <==>
            forall t, url | t in s.rec.urls && url in UrlSet(s.rec.urls[t]) ::
              var fate := FateOf(e, Done(Plan(s.rec, u.items), u.budget), ObjectOf(url));
              fate == Stored || (fate == Untouched && ObjectOf(url) in s.store)
  {
    var w, plan := World(s.store, u.budget), Plan(s.rec, u.items);
    UpdateEffect(e, w, s.rec, u.items);
    PlanPerformable(e, s.rec, u.items);
    forall t, url | t in s.rec.urls && url in UrlSet(s.rec.urls[t])
      ensures var fate := FateOf(e, Done(plan, u.budget), ObjectOf(url));
              ObjectOf(url) in Run(e, w, plan).world.store <==>
              fate == Stored || (fate == Untouched && ObjectOf(url) in s.store)
    {
      CutShort(e, w, plan, ObjectOf(url));
    }
  }

  // ---------- runs ----------

  function AfterAll(e: Entity, s: State, updates: seq<Update>): State {
    if updates == [] then s
    else After(e, AfterAll(e, s, updates[..|updates| - 1]), updates[|updates| - 1])
  }

  predicate AllAdmissible(e: Entity, s: State, updates: seq<Update>) {
    updates == [] ||
    var prefix := updates[..|updates| - 1];
    AllAdmissible(e, s, prefix) && Admissible(e, AfterAll(e, s, prefix).rec, updates[|updates| - 1].items)
  }

  predicate AllCommit(e: Entity, s: State, updates: seq<Update>) {
    updates == [] ||
    var prefix := updates[..|updates| - 1];
    AllCommit(e, s, prefix) && Commits(AfterAll(e, s, prefix), updates[|updates| - 1])
  }

  const NO_RECORD := Record(map[], map[])

  lemma {:induction false} RunsStayWell(e: Entity, store: set<Object>, updates: seq<Update>)
    requires GoodEntity(e) && AllAdmissible(e, State(store, NO_RECORD), updates)
    ensures WellRecorded(e, AfterAll(e, State(store, NO_RECORD), updates).rec)
  {
    if updates != [] {
      var prefix := updates[..|updates| - 1];
      RunsStayWell(e, store, prefix);
      NewRecordIsWell(e, AfterAll(e, State(store, NO_RECORD), prefix).rec, updates[|updates| - 1].items);
    }
  }

  /** Main result on runs: while the updates commit, no recorded URL ever dangles. */
  lemma {:induction false} CommittedRunsNeverDangle(e: Entity, store: set<Object>, updates: seq<Update>)
    requires GoodEntity(e) && AllAdmissible(e, State(store, NO_RECORD), updates)
    requires AllCommit(e, State(store, NO_RECORD), updates)
    ensures var s := AfterAll(e, State(store, NO_RECORD), updates); Live(s.store, s.rec)
  {
    if updates != [] {
      var prefix, last := updates[..|updates| - 1], updates[|updates| - 1];
      var s := AfterAll(e, State(store, NO_RECORD), prefix);
      CommittedRunsNeverDangle(e, store, prefix);
      RunsStayWell(e, store, prefix);
      CommittedUpdateLiveIff(e, s, last);
    }
  }

  // ---------- services ----------

  lemma {:induction false} ServicesKeepNoHashes(e: Entity, store: set<Object>, updates: seq<Update>)
    requires e.service != ""
    ensures AfterAll(e, State(store, NO_RECORD), updates).rec.hashes == map[]
  {
    if updates != [] {
      ServicesKeepNoHashes(e, store, updates[..|updates| - 1]);
    }
  }

  /** Main result on services: with no hash to compare, nothing is retained, so after any updates,
      whatever they lost, one that commits leaves every URL naming an object, and the accounts right. */
  lemma CommittedServiceUpdateHeals(e: Entity, store: set<Object>, updates: seq<Update>, u: Update)
    requires GoodEntity(e) && e.service != ""
    requires AllAdmissible(e, State(store, NO_RECORD), updates + [u])
    requires Commits(AfterAll(e, State(store, NO_RECORD), updates), u)
    ensures var s := AfterAll(e, State(store, NO_RECORD), updates);
            var s' := AfterAll(e, State(store, NO_RECORD), updates + [u]);
            && Live(s'.store, s'.rec)
            && s'.store == s.store - ReplacedObjects(s.rec, u.items) + RecordedObjects(s'.rec)
  {
    assert (updates + [u])[..|updates|] == updates;
    var s := AfterAll(e, State(store, NO_RECORD), updates);
    RunsStayWell(e, store, updates);
    ServicesKeepNoHashes(e, store, updates);
    assert RetainedLive(s.store, s.rec, u.items);
    CommittedUpdateLiveIff(e, s, u);
    BucketAccounting(e, World(s.store, u.budget), s.rec, u.items);
  }

  // ---------- what a rollback loses ----------

  // The record of one single-hash type.
  function Single(e: Entity, t: string, hash: string): Record {
    Record(if e.service == "" then map[t := One(hash)] else map[], map[t := OneUrl(PushedUrl(e, hash, t))])
  }

  lemma FirstUpdate(e: Entity, t: string, hash: string)
    ensures After(e, State({}, NO_RECORD), Update([Item(t, One(hash))], 1, true))
         == State({PushedObject(e, hash, t)}, Single(e, t, hash))
  {
    var item := Item(t, One(hash));
    assert [item][1..] == [] && [item][..0] == [];
    assert Plan(NO_RECORD, [item]) == [Push(hash, t)] + [];
    RunStep(e, World({}, 1), Push(hash, t), []);
    assert AddUrls(map[], e, NO_RECORD, [item]) == AddUrls(map[t := OneUrl(PushedUrl(e, hash, t))], e, NO_RECORD, []);
    assert HashMap([item]) == map[t := One(hash)];
  }

  lemma DiesAfterDelete(e: Entity, t: string, hash: string, changed: string)
    requires GoodEntity(e) && GoodHash(e, hash, t) && hash != changed
    ensures After(e, State({PushedObject(e, hash, t)}, Single(e, t, hash)), Update([Item(t, One(changed))], 1, true))
         == State({}, Single(e, t, hash))
  {
    var item, url, o := Item(t, One(changed)), PushedUrl(e, hash, t), PushedObject(e, hash, t);
    GoodHashOwns(e, hash, t);
    OwnUrlParses(e, t, url);
    assert [item][1..] == [];
    var push := [Push(changed, t)] + [];
    assert Plan(Single(e, t, hash), [item]) == [Delete(url)] + push;
    RunStep(e, World({o}, 1), Delete(url), push);
    RunStep(e, World({}, 0), Push(changed, t), []);
  }

  lemma RevertRetains(e: Entity, t: string, hash: string, store: set<Object>, budget: nat)
    requires e.service == ""
    ensures After(e, State(store, Single(e, t, hash)), Update([Item(t, One(hash))], budget, true))
         == State(store, Single(e, t, hash))
  {
    var item, rec := Item(t, One(hash)), Single(e, t, hash);
    assert [item][1..] == [] && [item][..0] == [];
    assert Plan(rec, [item]) == [];
    assert AddUrls(map[], e, rec, [item]) == AddUrls(map[t := OneUrl(PushedUrl(e, hash, t))], e, rec, []);
    assert HashMap([item]) == map[t := One(hash)];
  }

  lemma RevertUploadsAgain(e: Entity, t: string, hash: string, budget: nat)
    requires GoodEntity(e) && GoodHash(e, hash, t) && e.service != ""
    ensures After(e, State({}, Single(e, t, hash)), Update([Item(t, One(hash))], budget, true))
         == State(if budget >= 2 then {PushedObject(e, hash, t)} else {}, Single(e, t, hash))
  {
    var item, rec, url := Item(t, One(hash)), Single(e, t, hash), PushedUrl(e, hash, t);
    var push := [Push(hash, t)] + [];
    GoodHashOwns(e, hash, t);
    OwnUrlParses(e, t, url);
    assert [item][1..] == [] && [item][..0] == [];
    assert Plan(rec, [item]) == [Delete(url)] + push;
    RunStep(e, World({}, budget), Delete(url), push);
    if budget > 0 {
      RunStep(e, World({}, budget - 1), Push(hash, t), []);
    }
    assert AddUrls(map[], e, rec, [item]) == AddUrls(map[t := OneUrl(url)], e, rec, []);
  }

  /** A change of a single hash that dies after its delete, followed by a return of the metadata to the
      recorded hash: for an organization the update that follows retains the URL of an object that is
      gone, and so does every further one; for a service it uploads the object again, if it gets that
      far. */
  lemma RevertAfterFailureDanglesIff(e: Entity, t: string, before: string, changed: string, budget: nat)
    requires GoodEntity(e) && GoodHash(e, before, t) && before != changed
    ensures var s0 := After(e, State({}, NO_RECORD), Update([Item(t, One(before))], 1, true));
            var s1 := After(e, s0, Update([Item(t, One(changed))], 1, true));
            var s2 := After(e, s1, Update([Item(t, One(before))], budget, true));
            && Live(s0.store, s0.rec) && s2.rec == s0.rec
            && (!Live(s2.store, s2.rec) <==> e.service == "" || budget < 2)
            && (e.service == "" ==> After(e, s2, Update([Item(t, One(before))], budget, true)) == s2)
  {
    GoodHashOwns(e, before, t);
    FirstUpdate(e, t, before);
    DiesAfterDelete(e, t, before, changed);
    SingleLiveIff(e, t, before, before);
    assert PushedUrl(e, before, t) in UrlSet(Single(e, t, before).urls[t]);
    if e.service == "" {
      RevertRetains(e, t, before, {}, budget);
    } else {
      RevertUploadsAgain(e, t, before, budget);
    }
  }

  // A change of a single hash whose loop is done and whose transaction is rolled back.
  function RolledBack(t: string, changed: string): Update {
    Update([Item(t, One(changed))], 2, false)
  }

  lemma {:induction false} RolledBackState(e: Entity, t: string, before: string, changed: string, us: seq<Update>)
    requires GoodEntity(e) && GoodHash(e, before, t) && before != changed && us != []
    requires forall i | 0 <= i < |us| :: us[i] == RolledBack(t, changed)
    ensures AfterAll(e, State({PushedObject(e, before, t)}, Single(e, t, before)), us)
         == State({PushedObject(e, changed, t)}, Single(e, t, before))
  {
    var n, s0 := |us| - 1, State({PushedObject(e, before, t)}, Single(e, t, before));
    assert AfterAll(e, s0, us) == After(e, AfterAll(e, s0, us[..n]), RolledBack(t, changed));
    if n == 0 {
      assert AfterAll(e, s0, us[..n]) == s0;
      ReplacedAndRolledBack(e, t, before, changed, s0.store);
    } else {
      RolledBackState(e, t, before, changed, us[..n]);
      ReplacedAndRolledBack(e, t, before, changed, {PushedObject(e, changed, t)});
    }
  }

  lemma SingleLiveIff(e: Entity, t: string, hash: string, stored: string)
    requires GoodEntity(e) && GoodHash(e, hash, t) && GoodHash(e, stored, t)
    ensures Live({PushedObject(e, stored, t)}, Single(e, t, hash)) <==> FileName(hash) == FileName(stored)
  {
    var url, rec := PushedUrl(e, hash, t), Single(e, t, hash);
    GoodHashOwns(e, hash, t);
    assert ObjectOf(url) == PushedObject(e, hash, t);
    assert t in rec.urls && url in UrlSet(rec.urls[t]);
    if PushedObject(e, hash, t) == PushedObject(e, stored, t) {
      KeysAreInjective(e, FileName(hash), t, FileName(stored), t);
    }
  }

  /** A finished loop is not enough, for organizations and services alike: if the transaction around it
      is rolled back, as when an organization's metadata lists a group twice, a replaced object is gone
      while its URL stays recorded, unless the new hash makes the same file name; and so it is after
      every further delivery. */
  lemma {:induction false} RolledBackDanglesIff(e: Entity, t: string, before: string, changed: string, us: seq<Update>)
    requires GoodEntity(e) && GoodHash(e, before, t) && GoodHash(e, changed, t) && before != changed
    requires us != [] && forall i | 0 <= i < |us| :: us[i] == RolledBack(t, changed)
    ensures var s := AfterAll(e, State({PushedObject(e, before, t)}, Single(e, t, before)), us);
            Live(s.store, s.rec) <==> FileName(before) == FileName(changed)
  {
    RolledBackState(e, t, before, changed, us);
    SingleLiveIff(e, t, before, changed);
  }

  lemma ReplacedAndRolledBack(e: Entity, t: string, before: string, changed: string, store: set<Object>)
    requires GoodEntity(e) && GoodHash(e, before, t) && before != changed
    requires store <= {PushedObject(e, before, t), PushedObject(e, changed, t)}
    ensures After(e, State(store, Single(e, t, before)), RolledBack(t, changed))
         == State({PushedObject(e, changed, t)}, Single(e, t, before))
  {
    var item, url := Item(t, One(changed)), PushedUrl(e, before, t);
    var push := [Push(changed, t)] + [];
    GoodHashOwns(e, before, t);
    OwnUrlParses(e, t, url);
    assert [item][1..] == [];
    assert Plan(Single(e, t, before), [item]) == [Delete(url)] + push;
    RunStep(e, World(store, 2), Delete(url), push);
    RunStep(e, World(store - {PushedObject(e, before, t)}, 1), Push(changed, t), []);
  }
}
