/** What updates do to the object store: accounting, and which recorded URLs still name an object. */
module AssetTheorems {
  import opened ObjectUrls
  import opened AssetSync
  import opened Wrappers

  // ---------- file names ----------

  lemma {:induction false} BeforeIsFree(s: string, c: char)
    ensures c !in Before(s, {c})
  {
    if s != [] && s[0] != c {
      BeforeIsFree(s[1..], c);
    }
  }

  lemma {:induction false} LastSegmentIsFree(s: string)
    ensures '/' !in LastSegment(s)
  {
    if '/' in s {
      LastSegmentIsFree(s[1..]);
    }
  }

  lemma FileNameHasNoSlash(hash: string)
    ensures '/' !in FileName(hash)
  {
    BeforeIsFree(AfterSlashes(hash), '/');
    LastSegmentIsFree(hash);
  }

  predicate SchemeAt(uri: string, i: nat) {
    i + 3 <= |uri| && uri[i] == ':' && uri[i + 1] == '/' && uri[i + 2] == '/'
  }

  lemma {:induction false} HasSchemeIff(uri: string)
    ensures HasScheme(uri) <==> exists i: nat :: SchemeAt(uri, i)
  {
    if |uri| >= 3 {
      var rest := uri[1..];
      HasSchemeIff(rest);
      assert uri[..3] == "://" <==> SchemeAt(uri, 0);
      if i: nat :| SchemeAt(rest, i) {
        assert SchemeAt(uri, i + 1);
      }
      if i: nat :| SchemeAt(uri, i) {
        assert i == 0 || SchemeAt(rest, i - 1);
      }
    }
  }

  lemma {:induction false} AfterFirstSlashes(scheme: string, rest: string)
    requires '/' !in scheme
    ensures AfterSlashes(scheme + "//" + rest) == rest
  {
    var uri := scheme + "//" + rest;
    if scheme == "" {
      assert uri[..2] == "//" && uri[2..] == rest;
    } else {
      assert uri[0] == scheme[0] && uri[1..] == scheme[1..] + "//" + rest;
      AfterFirstSlashes(scheme[1..], rest);
    }
  }

  lemma {:induction false} LastSegmentOf(folder: string, name: string)
    requires '/' !in name && (folder == "" || folder[|folder| - 1] == '/')
    ensures LastSegment(folder + name) == name
  {
    if folder == "" {
      assert folder + name == name;
    } else {
      assert (folder + name)[|folder| - 1] == '/';
      assert (folder + name)[1..] == folder[1..] + name;
      LastSegmentOf(folder[1..], name);
    }
  }

  /** Of a URI with a scheme the file name is the segment after it, whatever path follows. */
  lemma FileNameOfUri(scheme: string, name: string, path: string)
    requires '/' !in scheme && '/' !in name && (path == "" || path[0] == '/')
    ensures FileName(scheme + "://" + name + path) == name
  {
    var uri := scheme + "://" + name + path;
    assert SchemeAt(uri, |scheme|);
    HasSchemeIff(uri);
    assert uri == (scheme + ":") + "//" + (name + path);
    AfterFirstSlashes(scheme + ":", name + path);
    if path == "" {
      assert name + path == name;
      BeforeIsWhole(name, {'/'});
    } else {
      BeforeStop(name, path, {'/'});
    }
  }

  /** Of any other path it is the last segment. */
  lemma FileNameOfPath(folder: string, name: string)
    requires '/' !in name && (folder == "" || folder[|folder| - 1] == '/')
    requires forall i: nat :: !SchemeAt(folder + name, i)
    ensures FileName(folder + name) == name
  {
    HasSchemeIff(folder + name);
    LastSegmentOf(folder, name);
  }

  // ---------- names of different asset types never meet ----------

  lemma KeysAreInjective(e: Entity, n1: string, t1: string, n2: string, t2: string)
    requires '_' !in n1 && '_' !in n2 && KeyNamed(e, n1, t1) == KeyNamed(e, n2, t2)
    ensures n1 == n2 && t1 == t2
  {
    var a, b := n1 + ("_" + t1), n2 + ("_" + t2);
    var f := |Folder(e)|;
    assert KeyNamed(e, n1, t1)[f..] == a && KeyNamed(e, n2, t2)[f..] == b;
    BeforeStop(n1, "_" + t1, {'_'});
    BeforeStop(n2, "_" + t2, {'_'});
    assert a[|n1| + 1..] == t1 && b[|n2| + 1..] == t2;
  }

  ghost predicate OwnObject(e: Entity, t: string, o: Object) {
    exists name: string :: '_' !in name && '/' !in name && o == (e.bucket, KeyNamed(e, name, t))
  }

  ghost predicate OwnUrl(e: Entity, t: string, url: string) {
    exists name: string ::
      && '_' !in name && '/' !in name
      && PlainKey(KeyNamed(e, name, t)) && url == UrlOf(e.bucket, KeyNamed(e, name, t))
  }

  predicate GoodEntity(e: Entity) {
    BucketChars(e.bucket) && PlainBucket(e.bucket)
  }

  function ObjectOf(url: string): Object {
    var o := GetBucketAndKeyFromUrl(url);
    if o.None? then ("", "") else o.value
  }

  lemma OwnUrlParses(e: Entity, t: string, url: string)
    requires GoodEntity(e) && OwnUrl(e, t, url)
    ensures GetBucketAndKeyFromUrl(url) == Some(ObjectOf(url)) && OwnObject(e, t, ObjectOf(url))
  {
    var name: string :| '_' !in name && '/' !in name
                        && PlainKey(KeyNamed(e, name, t)) && url == UrlOf(e.bucket, KeyNamed(e, name, t));
    UrlRoundTripIff(e.bucket, KeyNamed(e, name, t));
  }

  lemma OwnObjectsDiffer(e: Entity, t1: string, t2: string, o: Object)
    requires OwnObject(e, t1, o) && OwnObject(e, t2, o)
    ensures t1 == t2
  {
    var n1: string :| '_' !in n1 && '/' !in n1 && o == (e.bucket, KeyNamed(e, n1, t1));
    var n2: string :| '_' !in n2 && '/' !in n2 && o == (e.bucket, KeyNamed(e, n2, t2));
    KeysAreInjective(e, n1, t1, n2, t2);
  }

  predicate GoodHash(e: Entity, hash: string, t: string) {
    '_' !in FileName(hash) && PlainKey(KeyFor(e, hash, t))
  }

  lemma GoodHashOwns(e: Entity, hash: string, t: string)
    requires GoodEntity(e) && GoodHash(e, hash, t)
    ensures OwnUrl(e, t, PushedUrl(e, hash, t)) && OwnObject(e, t, PushedObject(e, hash, t))
    ensures ObjectOf(PushedUrl(e, hash, t)) == PushedObject(e, hash, t)
  {
    FileNameHasNoSlash(hash);
    assert PushedUrl(e, hash, t) == UrlOf(e.bucket, KeyNamed(e, FileName(hash), t));
    UrlRoundTripIff(e.bucket, KeyFor(e, hash, t));
  }

  // ---------- records ----------

  function UrlSet(u: Urls): set<string> {
    match u
    case OneUrl(url) => {url}
    case ManyUrls(urls) => set url | url in urls
  }

  function HashSet(h: Hashes): set<string> {
    match h
    case One(hash) => {hash}
    case Many(hashes) => set hash | hash in hashes
    case OtherShape => {}
  }

  predicate SameShape(h: Hashes, u: Urls) {
    (h.One? && u.OneUrl?) || (h.Many? && u.ManyUrls?)
  }

  /** A record the synchroniser wrote: each type's URLs are of its own objects and, if its hashes are
      stored beside them, of their shape. */
  ghost predicate WellRecorded(e: Entity, rec: Record) {
    && GoodEntity(e)
    && (forall t | t in rec.urls ::
          && (t in rec.hashes ==> SameShape(rec.hashes[t], rec.urls[t]))
          && forall url | url in UrlSet(rec.urls[t]) :: OwnUrl(e, t, url))
    && (forall t | t in rec.hashes && !rec.hashes[t].OtherShape? :: t in rec.urls)
  }

  // Metadata whose hash names hold no underscore and whose keys survive as URLs; a type keeps its shape.
  predicate GoodItem(e: Entity, rec: Record, item: Item) {
    && (forall hash | hash in HashSet(item.hashes) :: GoodHash(e, hash, item.assetType))
    && (item.assetType in rec.urls && !item.hashes.OtherShape? ==> SameShape(item.hashes, rec.urls[item.assetType]))
  }

  predicate Admissible(e: Entity, rec: Record, items: seq<Item>) {
    && (forall i | 0 <= i < |items| :: GoodItem(e, rec, items[i]))
    && (forall i, j | 0 <= i < j < |items| :: items[i].assetType != items[j].assetType)
  }

  // Every recorded URL names an object that is there.
  predicate Live(store: set<Object>, rec: Record) {
    forall t, url | t in rec.urls && url in UrlSet(rec.urls[t]) :: ObjectOf(url) in store
  }

  // ---------- one update, action by action ----------

  lemma {:induction false} RunConcat(e: Entity, w: World, p: seq<Action>, q: seq<Action>)
    ensures Run(e, w, p + q) == var o := Run(e, w, p); if o.finished then Run(e, o.world, q) else o
    decreases |p|
  {
    if p == [] {
      assert p + q == q;
    } else {
      assert p + q == [p[0]] + (p[1..] + q) && p == [p[0]] + p[1..];
      RunStep(e, w, p[0], p[1..] + q);
      var next := Perform(e, w, p[0]);
      if next.Some? {
        RunConcat(e, next.value, p[1..], q);
      }
    }
  }

  // The objects an item's turn deletes, and those it uploads.
  function Deleted(rec: Record, item: Item): set<Object> {
    if item.hashes.OtherShape? || Retained(rec, item) || item.assetType !in rec.urls then {}
    else set url | url in UrlSet(rec.urls[item.assetType]) :: ObjectOf(url)
  }

  function Uploaded(e: Entity, rec: Record, item: Item): set<Object> {
    if Retained(rec, item) then {}
    else set hash | hash in HashSet(item.hashes) :: PushedObject(e, hash, item.assetType)
  }

  function ObjectsOf(urls: seq<string>): set<Object> {
    set url | url in urls :: ObjectOf(url)
  }

  function ObjectsPushed(e: Entity, hashes: seq<string>, t: string): set<Object> {
    set hash | hash in hashes :: PushedObject(e, hash, t)
  }

  lemma ObjectsOfCons(urls: seq<string>)
    requires urls != []
    ensures ObjectsOf(urls) == {ObjectOf(urls[0])} + ObjectsOf(urls[1..])
  {
    assert urls == [urls[0]] + urls[1..];
  }

  lemma ObjectsPushedCons(e: Entity, hashes: seq<string>, t: string)
    requires hashes != []
    ensures ObjectsPushed(e, hashes, t) == {PushedObject(e, hashes[0], t)} + ObjectsPushed(e, hashes[1..], t)
  {
    assert hashes == [hashes[0]] + hashes[1..];
  }

  // The plan finishes if the outside lasts, and then has this effect on the store.
  predicate Does(e: Entity, w: World, plan: seq<Action>, removed: set<Object>, added: set<Object>) {
    var o := Run(e, w, plan);
    && (o.finished <==> |plan| <= w.budget)
    && (o.finished ==> o.world == World(w.store - removed + added, w.budget - |plan|))
  }

  lemma {:induction false} RunDeletes(e: Entity, w: World, urls: seq<string>, t: string)
    requires GoodEntity(e) && forall url | url in urls :: OwnUrl(e, t, url)
    ensures Does(e, w, DeleteAll(urls), ObjectsOf(urls), {})
    decreases |urls|
  {
    if urls != [] {
      OwnUrlParses(e, t, urls[0]);
      ObjectsOfCons(urls);
      RunStep(e, w, Delete(urls[0]), DeleteAll(urls[1..]));
      var next := Perform(e, w, Delete(urls[0]));
      if next.Some? {
        RunDeletes(e, next.value, urls[1..], t);
        Apart(w.store, ObjectOf(urls[0]), ObjectsOf(urls[1..]));
      }
    }
  }

  lemma Apart(store: set<Object>, o: Object, rest: set<Object>)
    ensures store - {o} - rest + {} == store - ({o} + rest) + {}
    ensures store + {o} - {} + rest == store - {} + ({o} + rest)
  {
  }

  lemma {:induction false} RunPushes(e: Entity, w: World, hashes: seq<string>, t: string)
    ensures Does(e, w, PushAll(hashes, t), {}, ObjectsPushed(e, hashes, t))
    decreases |hashes|
  {
    if hashes != [] {
      ObjectsPushedCons(e, hashes, t);
      RunStep(e, w, Push(hashes[0], t), PushAll(hashes[1..], t));
      var next := Perform(e, w, Push(hashes[0], t));
      if next.Some? {
        RunPushes(e, next.value, hashes[1..], t);
        Apart(w.store, PushedObject(e, hashes[0], t), ObjectsPushed(e, hashes[1..], t));
      }
    }
  }

  lemma DoesBoth(e: Entity, w: World, p: seq<Action>, q: seq<Action>,
                 r1: set<Object>, a1: set<Object>, r2: set<Object>, a2: set<Object>)
    requires Does(e, w, p, r1, a1)
    requires Run(e, w, p).finished ==> Does(e, Run(e, w, p).world, q, r2, a2)
    requires a1 !! r2
    ensures Does(e, w, p + q, r1 + r2, a1 + a2)
  {
    RunConcat(e, w, p, q);
    assert w.store - r1 + a1 - r2 + a2 == w.store - (r1 + r2) + (a1 + a2);
  }

  lemma ItemEffect(e: Entity, w: World, rec: Record, item: Item)
    requires WellRecorded(e, rec) && GoodItem(e, rec, item)
    ensures Does(e, w, PlanFor(rec, item), Deleted(rec, item), Uploaded(e, rec, item))
  {
    var t := item.assetType;
    var plan := PlanFor(rec, item);
    match item.hashes
    case OtherShape =>
    case Many(hashes) =>
      var urls := if t in rec.urls then rec.urls[t].urls else [];
      assert plan == DeleteAll(urls) + PushAll(hashes, t);
      RunDeletes(e, w, urls, t);
      var mid := Run(e, w, DeleteAll(urls)).world;
      RunPushes(e, mid, hashes, t);
      DoesBoth(e, w, DeleteAll(urls), PushAll(hashes, t), ObjectsOf(urls), {}, {}, ObjectsPushed(e, hashes, t));
      assert Deleted(rec, item) == ObjectsOf(urls) + {};
      assert Uploaded(e, rec, item) == {} + ObjectsPushed(e, hashes, t);
    case One(hash) =>
      if !Retained(rec, item) {
        var urls := if t in rec.urls then [rec.urls[t].url] else [];
        assert PushAll([hash], t) == [Push(hash, t)];
        assert plan == DeleteAll(urls) + PushAll([hash], t);
        RunDeletes(e, w, urls, t);
        var mid := Run(e, w, DeleteAll(urls)).world;
        RunPushes(e, mid, [hash], t);
        DoesBoth(e, w, DeleteAll(urls), PushAll([hash], t), ObjectsOf(urls), {}, {}, ObjectsPushed(e, [hash], t));
        assert Deleted(rec, item) == ObjectsOf(urls) + {};
        assert Uploaded(e, rec, item) == {} + ObjectsPushed(e, [hash], t);
      } else {
        assert w.store - {} + {} == w.store;
      }
  }

  /** A type whose recorded URLs have the wrong shape raises at its turn, before anything is done to the
      store: a list type recorded with one URL, a changed string type recorded with a list, and an
      unchanged one recorded with none. */
  lemma WrongShapeRaises(e: Entity, w: World, rec: Record, item: Item)
    requires var t := item.assetType;
             match item.hashes
             case Many(_) => t in rec.urls && rec.urls[t].OneUrl? && rec.urls[t].url != ""
             case One(hash) =>
               if t in rec.hashes && rec.hashes[t] == One(hash) then t !in rec.urls
               else t in rec.urls && rec.urls[t].ManyUrls?
             case OtherShape => false
    ensures Run(e, w, PlanFor(rec, item)) == Outcome(w, false)
  {
    assert PlanFor(rec, item)[0] == Raise;
  }

  // ---------- a whole update ----------

  function AllDeleted(rec: Record, items: seq<Item>): set<Object> {
    if items == [] then {} else Deleted(rec, items[0]) + AllDeleted(rec, items[1..])
  }

  function AllUploaded(e: Entity, rec: Record, items: seq<Item>): set<Object> {
    if items == [] then {} else Uploaded(e, rec, items[0]) + AllUploaded(e, rec, items[1..])
  }

  // What an item's turn touches is of its own type.
  lemma ItemTouchesOwn(e: Entity, rec: Record, item: Item)
    requires WellRecorded(e, rec) && GoodItem(e, rec, item)
    ensures forall o | o in Deleted(rec, item) :: OwnObject(e, item.assetType, o)
    ensures forall o | o in Uploaded(e, rec, item) :: OwnObject(e, item.assetType, o)
  {
    var t := item.assetType;
    forall url | t in rec.urls && url in UrlSet(rec.urls[t])
      ensures OwnObject(e, t, ObjectOf(url))
    {
      OwnUrlParses(e, t, url);
    }
    forall hash | hash in HashSet(item.hashes)
      ensures OwnObject(e, t, PushedObject(e, hash, t))
    {
      GoodHashOwns(e, hash, t);
    }
  }

  lemma {:induction false} LaterTurnsSpare(e: Entity, rec: Record, items: seq<Item>, t: string, o: Object)
    requires WellRecorded(e, rec) && Admissible(e, rec, items) && OwnObject(e, t, o)
    requires forall i | 0 <= i < |items| :: items[i].assetType != t
    ensures o !in AllDeleted(rec, items) && o !in AllUploaded(e, rec, items)
  {
    if items != [] {
      ItemTouchesOwn(e, rec, items[0]);
      if o in Deleted(rec, items[0]) || o in Uploaded(e, rec, items[0]) {
        OwnObjectsDiffer(e, t, items[0].assetType, o);
      }
      LaterTurnsSpare(e, rec, items[1..], t, o);
    }
  }

  /** Accounting: an update finishes exactly when the outside lasts for its whole plan, and then
      the store has lost what was deleted and gained what was uploaded: no turn undoes another. */
  lemma {:induction false} UpdateEffect(e: Entity, w: World, rec: Record, items: seq<Item>)
    requires WellRecorded(e, rec) && Admissible(e, rec, items)
    ensures Does(e, w, Plan(rec, items), AllDeleted(rec, items), AllUploaded(e, rec, items))
    decreases |items|
  {
    if items == [] {
      assert w.store - {} + {} == w.store;
    } else {
      var item, rest := items[0], items[1..];
      ItemEffect(e, w, rec, item);
      ItemTouchesOwn(e, rec, item);
      assert Admissible(e, rec, rest);
      UpdateEffect(e, Run(e, w, PlanFor(rec, item)).world, rec, rest);
      forall o | o in Uploaded(e, rec, item)
        ensures o !in AllDeleted(rec, rest)
      {
        LaterTurnsSpare(e, rec, rest, item.assetType, o);
      }
      DoesBoth(e, w, PlanFor(rec, item), Plan(rec, rest), Deleted(rec, item), Uploaded(e, rec, item),
               AllDeleted(rec, rest), AllUploaded(e, rec, rest));
    }
  }
}
