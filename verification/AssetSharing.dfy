/** Many organizations and services over one object store: none ever touches an object of another, so
    each fares as if it were alone. */
module AssetSharing {
  import opened ObjectUrls
  import opened AssetSync
  import opened AssetTheorems
  import opened AssetRuns
  import opened Wrappers

  // ---------- keys of different entities never meet ----------

  // An organization or a service whose names make one path segment each.
  predicate Segments(e: Entity) {
    '/' !in e.org && '/' !in e.service
  }

  lemma KeyParts(e: Entity, name: string, t: string)
    ensures KeyNamed(e, name, t)[|e.prefix| + 1..] ==
            e.org + ("/" + ((if e.service == "" then "" else e.service + "/") + (name + ("_" + t))))
    ensures |KeyNamed(e, name, t)| > |e.prefix|
  {
  }

  lemma FirstSegment(a: string, b: string)
    requires '/' !in a
    ensures Before(a + ("/" + b), {'/'}) == a && (a + ("/" + b))[|a| + 1..] == b
  {
    BeforeStop(a, "/" + b, {'/'});
  }

  /** In one bucket and under one prefix, equal keys are of the same organization and service. */
  lemma KeysOfEntities(e: Entity, n1: string, t1: string, f: Entity, n2: string, t2: string)
    requires Segments(e) && Segments(f) && e.prefix == f.prefix
    requires '/' !in n1 && '/' !in t1 && '/' !in n2 && '/' !in t2
    requires KeyNamed(e, n1, t1) == KeyNamed(f, n2, t2)
    ensures e.org == f.org && e.service == f.service
  {
    var file1, file2 := n1 + ("_" + t1), n2 + ("_" + t2);
    var tail1 := (if e.service == "" then "" else e.service + "/") + file1;
    var tail2 := (if f.service == "" then "" else f.service + "/") + file2;
    KeyParts(e, n1, t1);
    KeyParts(f, n2, t2);
    FirstSegment(e.org, tail1);
    FirstSegment(f.org, tail2);
    assert e.org == f.org && tail1 == tail2;
    TailService(e.service, file1, tail1);
    TailService(f.service, file2, tail2);
  }

  lemma TailService(service: string, file: string, tail: string)
    requires '/' !in service && '/' !in file
    requires tail == (if service == "" then "" else service + "/") + file
    ensures service == if '/' in tail then Before(tail, {'/'}) else ""
  {
    if service == "" {
      assert tail == file;
    } else {
      assert tail == service + ("/" + file) && tail[|service|] == '/';
      FirstSegment(service, file);
    }
  }

  /** The condition on names is needed: an organization whose name joins those of another organization
      and its service by a slash has the same keys as that service. */
  lemma SlashInNameCollides(bucket: string, prefix: string, org: string, service: string, name: string, t: string)
    requires service != ""
    ensures KeyNamed(Entity(bucket, prefix, org + "/" + service, ""), name, t)
         == KeyNamed(Entity(bucket, prefix, org, service), name, t)
  {
    assert Folder(Entity(bucket, prefix, org + "/" + service, "")) == Folder(Entity(bucket, prefix, org, service));
  }

  // Two entities that keep their assets apart.
  predicate Apart(e: Entity, f: Entity) {
    || e.bucket != f.bucket
    || (e.prefix == f.prefix && Segments(e) && Segments(f) && (e.org != f.org || e.service != f.service))
  }

  lemma OwnObjectsApart(e: Entity, t: string, f: Entity, u: string, o: Object)
    requires Apart(e, f) && '/' !in t && '/' !in u && OwnObject(e, t, o)
    ensures !OwnObject(f, u, o)
  {
    if OwnObject(f, u, o) {
      var n1: string :| '_' !in n1 && '/' !in n1 && o == (e.bucket, KeyNamed(e, n1, t));
      var n2: string :| '_' !in n2 && '/' !in n2 && o == (f.bucket, KeyNamed(f, n2, u));
      KeysOfEntities(e, n1, t, f, n2, u);
    }
  }

  // ---------- what an update spares ----------

  // No action of the plan touches the object.
  predicate Spares(e: Entity, plan: seq<Action>, o: Object) {
    forall i | 0 <= i < |plan| ::
      && (plan[i].Delete? ==> GetBucketAndKeyFromUrl(plan[i].url) != Some(o))
      && (plan[i].Push? ==> PushedObject(e, plan[i].hash, plan[i].assetType) != o)
  }

  lemma {:induction false} SparedStays(e: Entity, w: World, plan: seq<Action>, o: Object)
    requires Spares(e, plan, o)
    ensures o in Run(e, w, plan).world.store <==> o in w.store
    decreases |plan|
  {
    if plan != [] {
      var next := Perform(e, w, plan[0]);
      assert next.Some? ==> (o in next.value.store <==> o in w.store);
      if next.Some? {
        SparedStays(e, next.value, plan[1..], o);
      }
    }
  }

  lemma {:induction false} DeletesSpare(e: Entity, urls: seq<string>, o: Object)
    requires forall url | url in urls :: GetBucketAndKeyFromUrl(url) != Some(o)
    ensures Spares(e, DeleteAll(urls), o)
  {
    if urls != [] {
      DeletesSpare(e, urls[1..], o);
    }
  }

  lemma {:induction false} PushesSpare(e: Entity, hashes: seq<string>, t: string, o: Object)
    requires forall hash | hash in hashes :: PushedObject(e, hash, t) != o
    ensures Spares(e, PushAll(hashes, t), o)
  {
    if hashes != [] {
      PushesSpare(e, hashes[1..], t, o);
    }
  }

  // Asset types make no path segment of their own.
  predicate PlainTypes(rec: Record, items: seq<Item>) {
    (forall t | t in rec.urls :: '/' !in t) && forall i | 0 <= i < |items| :: '/' !in items[i].assetType
  }

  // An object that is none of the entity's, whatever its type.
  ghost predicate Foreign(e: Entity, o: Object) {
    forall t: string | '/' !in t :: !OwnObject(e, t, o)
  }

  lemma TurnSpares(e: Entity, rec: Record, item: Item, o: Object)
    requires WellRecorded(e, rec) && GoodItem(e, rec, item) && '/' !in item.assetType && Foreign(e, o)
    ensures Spares(e, PlanFor(rec, item), o)
  {
    var t := item.assetType;
    forall url | t in rec.urls && url in UrlSet(rec.urls[t])
      ensures GetBucketAndKeyFromUrl(url) != Some(o)
    {
      OwnUrlParses(e, t, url);
    }
    forall hash | hash in HashSet(item.hashes)
      ensures PushedObject(e, hash, t) != o
    {
      GoodHashOwns(e, hash, t);
    }
    if item.hashes.Many? {
      var urls := if t in rec.urls then rec.urls[t].urls else [];
      DeletesSpare(e, urls, o);
      PushesSpare(e, item.hashes.hashes, t, o);
      assert PlanFor(rec, item) == DeleteAll(urls) + PushAll(item.hashes.hashes, t);
    }
  }

  lemma {:induction false} UpdateSpares(e: Entity, rec: Record, items: seq<Item>, o: Object)
    requires WellRecorded(e, rec) && Admissible(e, rec, items) && PlainTypes(rec, items) && Foreign(e, o)
    ensures Spares(e, Plan(rec, items), o)
  {
    if items != [] {
      assert GoodItem(e, rec, items[0]);
      TurnSpares(e, rec, items[0], o);
      UpdateSpares(e, rec, items[1..], o);
    }
  }

  /** Main result on one update: finished or cut short anywhere, it leaves every object of another
      organization or service in the store exactly as it was. */
  lemma OthersUntouched(e: Entity, w: World, rec: Record, items: seq<Item>, f: Entity, t: string, o: Object)
    requires WellRecorded(e, rec) && Admissible(e, rec, items) && PlainTypes(rec, items)
    requires Apart(e, f) && OwnObject(f, t, o) && '/' !in t
    ensures o in Run(e, w, Plan(rec, items)).world.store <==> o in w.store
  {
    forall u: string | '/' !in u ensures !OwnObject(e, u, o) {
      if OwnObject(e, u, o) {
        OwnObjectsApart(e, u, f, t, o);
      }
    }
    UpdateSpares(e, rec, items, o);
    SparedStays(e, w, Plan(rec, items), o);
  }

  // ---------- updates of many entities ----------

  datatype Event = Event(entity: Entity, update: Update)

  datatype Shared = Shared(store: set<Object>, records: map<Entity, Record>)

  function RecordOf(s: Shared, e: Entity): Record {
    if e in s.records then s.records[e] else NO_RECORD
  }

  // Each update is its own entity's, on the store of all.
  function SharedAfter(s: Shared, event: Event): Shared {
    var after := After(event.entity, State(s.store, RecordOf(s, event.entity)), event.update);
    Shared(after.store, s.records[event.entity := after.rec])
  }

  function SharedOver(store: set<Object>, events: seq<Event>): Shared {
    if events == [] then Shared(store, map[])
    else SharedAfter(SharedOver(store, events[..|events| - 1]), events[|events| - 1])
  }

  function UpdatesOf(events: seq<Event>, e: Entity): seq<Update> {
    if events == [] then []
    else
      var last := events[|events| - 1];
      UpdatesOf(events[..|events| - 1], e) + if last.entity == e then [last.update] else []
  }

  // What becomes of the entity if its updates are all there is.
  function Alone(store: set<Object>, events: seq<Event>, e: Entity): State {
    AfterAll(e, State(store, NO_RECORD), UpdatesOf(events, e))
  }

  lemma AloneStep(store: set<Object>, events: seq<Event>, e: Entity)
    requires events != []
    ensures var n := |events| - 1;
            var earlier := Alone(store, events[..n], e);
            Alone(store, events, e) == if events[n].entity == e then After(e, earlier, events[n].update) else earlier
  {
    var n := |events| - 1;
    var earlier := UpdatesOf(events[..n], e);
    if events[n].entity == e {
      assert (earlier + [events[n].update])[..|earlier|] == earlier;
    } else {
      assert UpdatesOf(events, e) == earlier;
    }
  }

  // Two stores that agree on an object still agree after the same plan, and it finishes on both or on none.
  lemma {:induction false} RunLocal(e: Entity, a: World, b: World, plan: seq<Action>, o: Object)
    requires a.budget == b.budget && (o in a.store <==> o in b.store)
    ensures var x, y := Run(e, a, plan), Run(e, b, plan);
            x.finished == y.finished && (o in x.world.store <==> o in y.world.store)
    decreases |plan|
  {
    if plan != [] {
      var x, y := Perform(e, a, plan[0]), Perform(e, b, plan[0]);
      if x.Some? {
        RunLocal(e, x.value, y.value, plan[1..], o);
      }
    }
  }

  lemma {:induction false} FinishesAlike(e: Entity, a: World, b: World, plan: seq<Action>)
    requires a.budget == b.budget
    ensures Run(e, a, plan).finished == Run(e, b, plan).finished
    decreases |plan|
  {
    if plan != [] {
      var x, y := Perform(e, a, plan[0]), Perform(e, b, plan[0]);
      if x.Some? {
        FinishesAlike(e, x.value, y.value, plan[1..]);
      }
    }
  }

  // The records never depend on what others do to the store.
  lemma {:induction false} RecordsAreAlone(store: set<Object>, events: seq<Event>, e: Entity)
    ensures RecordOf(SharedOver(store, events), e) == Alone(store, events, e).rec
  {
    if events != [] {
      var n := |events| - 1;
      RecordsAreAlone(store, events[..n], e);
      AloneStep(store, events, e);
      if events[n].entity == e {
        var s, alone := SharedOver(store, events[..n]), Alone(store, events[..n], e);
        var u := events[n].update;
        FinishesAlike(e, World(s.store, u.budget), World(alone.store, u.budget), Plan(alone.rec, u.items));
      }
    }
  }

  /** The organizations and services of one deployment: each with names that make segments, and the
      asset types of all their updates too. */
  ghost predicate Deployment(entities: set<Entity>, store: set<Object>, events: seq<Event>) {
    && (forall e | e in entities :: GoodEntity(e))
    && (forall e, f | e in entities && f in entities && e != f :: Apart(e, f))
    && Admitted(entities, store, events)
  }

  // Every update is admissible for the record it meets.
  ghost predicate Admitted(entities: set<Entity>, store: set<Object>, events: seq<Event>) {
    events == [] ||
    var n := |events| - 1;
    && Admitted(entities, store, events[..n])
    && events[n].entity in entities
    && Admissible(events[n].entity, Alone(store, events[..n], events[n].entity).rec, events[n].update.items)
    && forall i | 0 <= i < |events[n].update.items| :: '/' !in events[n].update.items[i].assetType
  }

  lemma {:induction false} AdmittedAlone(entities: set<Entity>, store: set<Object>, events: seq<Event>, e: Entity)
    requires Admitted(entities, store, events)
    ensures AllAdmissible(e, State(store, NO_RECORD), UpdatesOf(events, e))
  {
    if events != [] {
      var n := |events| - 1;
      var earlier := UpdatesOf(events[..n], e);
      AdmittedAlone(entities, store, events[..n], e);
      if events[n].entity == e {
        assert (earlier + [events[n].update])[..|earlier|] == earlier;
      } else {
        assert UpdatesOf(events, e) == earlier;
      }
    }
  }

  lemma NewTypesPlain(e: Entity, rec: Record, items: seq<Item>)
    requires Admissible(e, rec, items) && PlainTypes(rec, items)
    ensures PlainTypes(NewRecord(e, rec, items), [])
  {
    forall t | t in NewRecord(e, rec, items).urls ensures '/' !in t {
      AddUrlsAt(map[], e, rec, items, t);
    }
  }

  lemma {:induction false} RecordedTypesPlain(entities: set<Entity>, store: set<Object>, events: seq<Event>, e: Entity)
    requires Admitted(entities, store, events)
    ensures PlainTypes(Alone(store, events, e).rec, [])
  {
    if events != [] {
      var n := |events| - 1;
      RecordedTypesPlain(entities, store, events[..n], e);
      AloneStep(store, events, e);
      if events[n].entity == e {
        NewTypesPlain(e, Alone(store, events[..n], e).rec, events[n].update.items);
      }
    }
  }

  // One event, seen from the object's entity.
  lemma {:induction false} EventIsOwn(entities: set<Entity>, store: set<Object>, events: seq<Event>,
                                      e: Entity, t: string, o: Object)
    requires Deployment(entities, store, events) && events != [] && e in entities
    requires OwnObject(e, t, o) && '/' !in t
    requires var n := |events| - 1;
             o in SharedOver(store, events[..n]).store <==> o in Alone(store, events[..n], e).store
    ensures o in SharedOver(store, events).store <==> o in Alone(store, events, e).store
  {
    var n := |events| - 1;
    var f, u := events[n].entity, events[n].update;
    var s, alone := SharedOver(store, events[..n]), Alone(store, events[..n], f);
    RecordsAreAlone(store, events[..n], f);
    AloneStep(store, events, e);
    if f == e {
      RunLocal(e, World(s.store, u.budget), World(alone.store, u.budget), Plan(alone.rec, u.items), o);
    } else {
      AdmittedAlone(entities, store, events[..n], f);
      RunsStayWell(f, store, UpdatesOf(events[..n], f));
      RecordedTypesPlain(entities, store, events[..n], f);
      OthersUntouched(f, World(s.store, u.budget), alone.rec, u.items, e, t, o);
    }
  }

  /** Main result on the shared store: whatever updates of others come in between, finished, cut short or
      rolled back, an organization or service has the record, and its own objects in the store, that its
      own updates alone would have left. */
  lemma {:induction false} OthersDoNotMatter(entities: set<Entity>, store: set<Object>, events: seq<Event>,
                                             e: Entity, t: string, o: Object)
    requires Deployment(entities, store, events) && e in entities && OwnObject(e, t, o) && '/' !in t
    ensures RecordOf(SharedOver(store, events), e) == Alone(store, events, e).rec
    ensures o in SharedOver(store, events).store <==> o in Alone(store, events, e).store
  {
    RecordsAreAlone(store, events, e);
    if events != [] {
      OthersDoNotMatter(entities, store, events[..|events| - 1], e, t, o);
      EventIsOwn(entities, store, events, e, t, o);
    }
  }

  /** So while an entity's own updates commit, none of its recorded URLs dangles, however many updates of
      others fail. */
  lemma OwnCommitsSuffice(entities: set<Entity>, store: set<Object>, events: seq<Event>, e: Entity)
    requires Deployment(entities, store, events) && e in entities
    requires AllCommit(e, State(store, NO_RECORD), UpdatesOf(events, e))
    ensures var s := SharedOver(store, events); Live(s.store, RecordOf(s, e))
  {
    var s, alone := SharedOver(store, events), Alone(store, events, e);
    RecordsAreAlone(store, events, e);
    AdmittedAlone(entities, store, events, e);
    RunsStayWell(e, store, UpdatesOf(events, e));
    RecordedTypesPlain(entities, store, events, e);
    CommittedRunsNeverDangle(e, store, UpdatesOf(events, e));
    forall t, url | t in alone.rec.urls && url in UrlSet(alone.rec.urls[t]) ensures ObjectOf(url) in s.store {
      OwnUrlParses(e, t, url);
      OthersDoNotMatter(entities, store, events, e, t, ObjectOf(url));
    }
  }
}
