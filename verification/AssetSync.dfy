/** The asset synchroniser (contract_api/application/consumers/event_consumer.py): one loop that
    deletes from and uploads to the object store while it builds the new map of URLs. */
module AssetSync {
  import opened ObjectUrls
  import opened Wrappers

  // ---------- names ----------

  // Where the assets of one organization, or of one service, are kept.
  datatype Entity = Entity(bucket: string, prefix: string, org: string, service: string)

  predicate HasScheme(uri: string) {
    |uri| >= 3 && (uri[..3] == "://" || HasScheme(uri[1..]))
  }

  function AfterSlashes(uri: string): string {
    if |uri| < 2 then "" else if uri[..2] == "//" then uri[2..] else AfterSlashes(uri[1..])
  }

  function FileName(hashUri: string): string {
    if HasScheme(hashUri) then Before(AfterSlashes(hashUri), {'/'}) else LastSegment(hashUri)
  }

  function Folder(e: Entity): string {
    e.prefix + "/" + e.org + "/" + if e.service != "" then e.service + "/" else ""
  }

  function KeyNamed(e: Entity, name: string, assetType: string): string {
    Folder(e) + (name + ("_" + assetType))
  }

  function KeyFor(e: Entity, hashUri: string, assetType: string): string {
    KeyNamed(e, FileName(hashUri), assetType)
  }

  lemma KeyIsLiteral(e: Entity, name: string, assetType: string)
    ensures var folder := e.prefix + "/" + e.org + "/" + if e.service == "" then "" else e.service + "/";
            var key := folder + name + "_" + assetType;
            && KeyNamed(e, name, assetType) == key
            && UrlOf(e.bucket, key) == "https://" + e.bucket + ".s3.amazonaws.com/" + key
  {
    var folder := e.prefix + "/" + e.org + "/" + if e.service == "" then "" else e.service + "/";
    assert KeyNamed(e, name, assetType) == folder + name + "_" + assetType;
    UrlIsLiteral(e.bucket, folder + name + "_" + assetType);
  }

  // ---------- metadata, records and the outside world ----------

  datatype Hashes = One(hash: string) | Many(hashes: seq<string>) | OtherShape
  datatype Urls = OneUrl(url: string) | ManyUrls(urls: seq<string>)

  // The entries of the metadata's asset dictionary, in its order.
  datatype Item = Item(assetType: string, hashes: Hashes)

  // What the database holds: the hashes and the URLs by asset type.
  datatype Record = Record(hashes: map<string, Hashes>, urls: map<string, Urls>)

  type Object = (string, string) // bucket and key

  // The object store, and how many calls to the outside succeed before one raises.
  datatype World = World(store: set<Object>, budget: nat)

  datatype Action = Delete(url: string) | Push(hash: string, assetType: string) | Raise

  datatype Outcome = Outcome(world: World, finished: bool)

  function PushedObject(e: Entity, hash: string, assetType: string): Object {
    (e.bucket, KeyFor(e, hash, assetType))
  }

  function PushedUrl(e: Entity, hash: string, assetType: string): string {
    UrlOf(e.bucket, KeyFor(e, hash, assetType))
  }

  function Perform(e: Entity, w: World, a: Action): Option<World> {
    if w.budget == 0 then None
    else
      match a
      case Delete(url) =>
        var o := GetBucketAndKeyFromUrl(url);
        if o.None? then None else Some(World(w.store - {o.value}, w.budget - 1))
      case Push(hash, t) => Some(World(w.store + {PushedObject(e, hash, t)}, w.budget - 1))
      case Raise => None
  }

  function Run(e: Entity, w: World, plan: seq<Action>): Outcome
    decreases |plan|
  {
    if plan == [] then Outcome(w, true)
    else
      var next := Perform(e, w, plan[0]);
      if next.None? then Outcome(w, false) else Run(e, next.value, plan[1..])
  }

  lemma RunStep(e: Entity, w: World, a: Action, rest: seq<Action>)
    ensures Run(e, w, [a] + rest) ==
            var next := Perform(e, w, a);
            if next.None? then Outcome(w, false) else Run(e, next.value, rest)
  {
    assert ([a] + rest)[1..] == rest;
  }

  // ---------- the plan of an update ----------

  function DeleteAll(urls: seq<string>): (plan: seq<Action>)
    ensures |plan| == |urls|
  {
    if urls == [] then [] else [Delete(urls[0])] + DeleteAll(urls[1..])
  }

  function PushAll(hashes: seq<string>, t: string): (plan: seq<Action>)
    ensures |plan| == |hashes|
  {
    if hashes == [] then [] else [Push(hashes[0], t)] + PushAll(hashes[1..], t)
  }

  predicate Retained(rec: Record, item: Item) {
    item.hashes.One? && item.assetType in rec.hashes && rec.hashes[item.assetType] == item.hashes
  }

  /** What one turn of the loop asks of the outside. A list type recorded with one URL is deleted
      character by character, and a string type recorded with a list is not a URL: both raise, as
      does a retained type without a recorded URL. */
  function PlanFor(rec: Record, item: Item): seq<Action> {
    var t := item.assetType;
    match item.hashes
    case OtherShape => []
    case Many(hashes) =>
      (if t !in rec.urls then []
       else match rec.urls[t]
            case ManyUrls(urls) => DeleteAll(urls)
            case OneUrl(url) => if url == "" then [] else [Raise])
      + PushAll(hashes, t)
    case One(hash) =>
      if Retained(rec, item) then (if t in rec.urls then [] else [Raise])
      else
        (if t !in rec.urls then []
         else match rec.urls[t]
              case OneUrl(url) => [Delete(url)]
              case ManyUrls(_) => [Raise])
        + [Push(hash, t)]
  }

  function Plan(rec: Record, items: seq<Item>): seq<Action> {
    if items == [] then [] else PlanFor(rec, items[0]) + Plan(rec, items[1..])
  }

  lemma DeleteStep(e: Entity, w: World, urls: seq<string>, i: nat, rest: seq<Action>)
    requires i < |urls|
    ensures Run(e, w, DeleteAll(urls[i..]) + rest) ==
            var next := Perform(e, w, Delete(urls[i]));
            if next.None? then Outcome(w, false) else Run(e, next.value, DeleteAll(urls[i + 1..]) + rest)
  {
    var later := DeleteAll(urls[i + 1..]) + rest;
    assert urls[i..][1..] == urls[i + 1..];
    assert DeleteAll(urls[i..]) + rest == [Delete(urls[i])] + later;
    RunStep(e, w, Delete(urls[i]), later);
  }

  lemma PushStep(e: Entity, w: World, hashes: seq<string>, t: string, i: nat, rest: seq<Action>)
    requires i < |hashes|
    ensures Run(e, w, PushAll(hashes[i..], t) + rest) ==
            var next := Perform(e, w, Push(hashes[i], t));
            if next.None? then Outcome(w, false) else Run(e, next.value, PushAll(hashes[i + 1..], t) + rest)
  {
    var later := PushAll(hashes[i + 1..], t) + rest;
    assert hashes[i..][1..] == hashes[i + 1..];
    assert PushAll(hashes[i..], t) + rest == [Push(hashes[i], t)] + later;
    RunStep(e, w, Push(hashes[i], t), later);
  }

  function PushedUrls(e: Entity, hashes: seq<string>, t: string): (urls: seq<string>)
    ensures |urls| == |hashes|
    ensures forall i | 0 <= i < |hashes| :: urls[i] == PushedUrl(e, hashes[i], t)
  {
    if hashes == [] then [] else [PushedUrl(e, hashes[0], t)] + PushedUrls(e, hashes[1..], t)
  }

  // The entry a turn adds to the new map.
  function UrlsFor(e: Entity, rec: Record, item: Item): Option<Urls> {
    match item.hashes
    case OtherShape => None
    case Many(hashes) => Some(ManyUrls(PushedUrls(e, hashes, item.assetType)))
    case One(hash) =>
      if Retained(rec, item) then
        if item.assetType in rec.urls then Some(rec.urls[item.assetType]) else None
      else Some(OneUrl(PushedUrl(e, hash, item.assetType)))
  }

  function AddUrls(m: map<string, Urls>, e: Entity, rec: Record, items: seq<Item>): map<string, Urls>
    decreases |items|
  {
    if items == [] then m
    else
      var u := UrlsFor(e, rec, items[0]);
      AddUrls(if u.Some? then m[items[0].assetType := u.value] else m, e, rec, items[1..])
  }

  // ---------- the code ----------

  class EventConsumer {
    const entity: Entity
    var store: set<Object>
    var budget: nat

    constructor (entity: Entity, store: set<Object>, budget: nat)
      ensures this.entity == entity && View() == World(store, budget)
    {
      this.entity := entity;
      this.store := store;
      this.budget := budget;
    }

    function View(): World
      reads this
    {
      World(store, budget)
    }

    method DeleteFileFromS3(url: string) returns (ok: bool)
      modifies this
      ensures var next := Perform(entity, old(View()), Delete(url));
              ok == next.Some? && View() == if ok then next.value else old(View())
    {
      var o := GetBucketAndKeyFromUrl(url);
      if budget == 0 || o.None? {
        return false;
      }
      store := store - {o.value};
      budget := budget - 1;
      return true;
    }

    method PushAssetToS3UsingHash(hash: string, t: string) returns (ok: bool, url: string)
      modifies this
      ensures var next := Perform(entity, old(View()), Push(hash, t));
              ok == next.Some? && View() == if ok then next.value else old(View())
      ensures ok ==> url == PushedUrl(entity, hash, t)
      ensures var folder := entity.prefix + "/" + entity.org + "/" +
                            if entity.service == "" then "" else entity.service + "/";
              var key := folder + FileName(hash) + "_" + t;
              ok ==> store == old(store) + {(entity.bucket, key)}
                     && url == "https://" + entity.bucket + ".s3.amazonaws.com/" + key
    {
      if budget == 0 {
        return false, "";
      }
      KeyIsLiteral(entity, FileName(hash), t);
      var key := KeyFor(entity, hash, t);
      store := store + {(entity.bucket, key)};
      budget := budget - 1;
      return true, UrlOf(entity.bucket, key);
    }

    method DeleteEach(urls: seq<string>, ghost rest: seq<Action>) returns (ok: bool)
      modifies this
      ensures Run(entity, old(View()), DeleteAll(urls) + rest)
           == if ok then Run(entity, View(), rest) else Outcome(View(), false)
    {
      var i := 0;
      assert urls[0..] == urls;
      while i < |urls|
        invariant 0 <= i <= |urls|
        invariant Run(entity, old(View()), DeleteAll(urls) + rest) == Run(entity, View(), DeleteAll(urls[i..]) + rest)
      {
        DeleteStep(entity, View(), urls, i, rest);
        ok := DeleteFileFromS3(urls[i]);
        if !ok {
          return false;
        }
        i := i + 1;
      }
      assert DeleteAll(urls[|urls|..]) + rest == rest;
      return true;
    }

    method PushEach(hashes: seq<string>, t: string, ghost rest: seq<Action>) returns (ok: bool, urls: seq<string>)
      modifies this
      ensures Run(entity, old(View()), PushAll(hashes, t) + rest)
           == if ok then Run(entity, View(), rest) else Outcome(View(), false)
      ensures ok ==> urls == PushedUrls(entity, hashes, t)
    {
      var i := 0;
      urls := [];
      assert hashes[0..] == hashes;
      while i < |hashes|
        invariant 0 <= i <= |hashes|
        invariant urls == PushedUrls(entity, hashes, t)[..i]
        invariant Run(entity, old(View()), PushAll(hashes, t) + rest)
               == Run(entity, View(), PushAll(hashes[i..], t) + rest)
      {
        PushStep(entity, View(), hashes, t, i, rest);
        var url;
        ok, url := PushAssetToS3UsingHash(hashes[i], t);
        if !ok {
          return false, [];
        }
        urls := urls + [url];
        i := i + 1;
      }
      assert PushAll(hashes[|hashes|..], t) + rest == rest;
      return true, urls;
    }

    /** An asset type with a list: everything recorded goes, everything new comes. */
    method SyncList(rec: Record, t: string, hashes: seq<string>, ghost rest: seq<Action>)
      returns (ok: bool, urls: seq<string>)
      modifies this
      ensures Run(entity, old(View()), PlanFor(rec, Item(t, Many(hashes))) + rest)
           == if ok then Run(entity, View(), rest) else Outcome(View(), false)
      ensures ok ==> urls == PushedUrls(entity, hashes, t)
    {
      ghost var plan, pushes := PlanFor(rec, Item(t, Many(hashes))), PushAll(hashes, t) + rest;
      if t in rec.urls && rec.urls[t].OneUrl? && rec.urls[t].url != "" {
        assert plan + rest == [Raise] + pushes;
        RunStep(entity, View(), Raise, pushes);
        return false, [];
      }
      var recorded := if t in rec.urls && rec.urls[t].ManyUrls? then rec.urls[t].urls else [];
      assert plan + rest == DeleteAll(recorded) + pushes;
      ok := DeleteEach(recorded, pushes);
      if !ok {
        return false, [];
      }
      ok, urls := PushEach(hashes, t, rest);
    }

    /** An asset type with a single hash: retained if the hash is unchanged, replaced otherwise. */
    method SyncString(rec: Record, t: string, hash: string, ghost rest: seq<Action>)
      returns (ok: bool, urls: Option<Urls>)
      modifies this
      ensures Run(entity, old(View()), PlanFor(rec, Item(t, One(hash))) + rest)
           == if ok then Run(entity, View(), rest) else Outcome(View(), false)
      ensures ok ==> urls == UrlsFor(entity, rec, Item(t, One(hash)))
    {
      ghost var plan := PlanFor(rec, Item(t, One(hash))) + rest;
      if t in rec.hashes && rec.hashes[t] == One(hash) {
        if t !in rec.urls {
          assert plan == [Raise] + rest;
          RunStep(entity, View(), Raise, rest);
          return false, None;
        }
        assert plan == rest;
        return true, Some(rec.urls[t]);
      }
      ghost var push := [Push(hash, t)] + rest;
      if t in rec.urls {
        if rec.urls[t].ManyUrls? {
          assert plan == [Raise] + push;
          RunStep(entity, View(), Raise, push);
          return false, None;
        }
        assert plan == [Delete(rec.urls[t].url)] + push;
        RunStep(entity, View(), Delete(rec.urls[t].url), push);
        ok := DeleteFileFromS3(rec.urls[t].url);
        if !ok {
          return false, None;
        }
      } else {
        assert plan == push;
      }
      RunStep(entity, View(), Push(hash, t), rest);
      var url;
      ok, url := PushAssetToS3UsingHash(hash, t);
      return ok, Some(OneUrl(url));
    }

    /** The update: None when something raised on the way, and then what was done stays done. */
    method CompareAssetsAndPushToS3(rec: Record, items: seq<Item>) returns (mapping: Option<map<string, Urls>>)
      modifies this
      ensures Outcome(View(), mapping.Some?) == Run(entity, old(View()), Plan(rec, items))
      ensures mapping.Some? ==> mapping.value == AddUrls(map[], entity, rec, items)
    {
      var urls: map<string, Urls> := map[];
      var i := 0;
      assert items[0..] == items;
      while i < |items|
        invariant 0 <= i <= |items|
        invariant Run(entity, old(View()), Plan(rec, items)) == Run(entity, View(), Plan(rec, items[i..]))
        invariant AddUrls(map[], entity, rec, items) == AddUrls(urls, entity, rec, items[i..])
      {
        var t := items[i].assetType;
        ghost var rest := Plan(rec, items[i + 1..]);
        assert items[i..][1..] == items[i + 1..];
        match items[i].hashes {
          case Many(hashes) =>
            var ok, many := SyncList(rec, t, hashes, rest);
            if !ok {
              return None;
            }
            urls := urls[t := ManyUrls(many)];
          case One(hash) =>
            var ok, u := SyncString(rec, t, hash, rest);
            if !ok {
              return None;
            }
            if u.Some? {
              urls := urls[t := u.value];
            }
          case OtherShape =>
            assert PlanFor(rec, items[i]) + rest == rest;
        }
        i := i + 1;
      }
      return Some(urls);
    }
  }
}
