/** What the catalogue's tables keep over any sequence of registry events, stops included. */
module CatalogueTheorems {
  import opened Catalogue
  import opened Wrappers

  // ---------- integrity ----------

  /** The foreign keys hold, row ids are unique and not reused, and every dependent row names the
      organization and service of the very row it points to. */
  ghost predicate Sound(db: Db) {
    && (forall s | s in db.services :: s.org in db.orgs && db.services[s].id < db.nextRow)
    && (forall s, t | s in db.services && t in db.services && s != t :: db.services[s].id != db.services[t].id)
    && (forall k | k in db.dependents :: OwnRow(db, k))
    && (forall g | g in db.orgGroups :: g.org in db.orgs)
  }

  predicate OwnRow(db: Db, k: DependentKey)
    requires k in db.dependents
  {
    k.owner in db.services && db.services[k.owner].id == db.dependents[k].serviceRow
  }

  lemma DropKeepsSound(db: Db, keys: set<ServiceKey>)
    requires Sound(db)
    ensures Sound(DropServices(db, keys))
    ensures forall k :: k in DropServices(db, keys).dependents <==> k in db.dependents && k.owner !in keys
  {
    var ids := set s | s in keys && s in db.services :: db.services[s].id;
    forall k | k in db.dependents ensures db.dependents[k].serviceRow in ids <==> k.owner in keys {
      assert OwnRow(db, k);
    }
  }

  lemma DeleteOrgKeepsSound(db: Db, org: OrgId)
    requires Sound(db)
    ensures Sound(DeleteOrg(db, org))
  {
    DropKeepsSound(db, ServicesOf(db, org));
    var dropped := DropServices(db, ServicesOf(db, org));
    forall k | k in dropped.dependents ensures OwnRow(DeleteOrg(db, org), k) {
      assert OwnRow(dropped, k);
    }
  }

  lemma {:induction false} AddedGroupsAreOfOrg(groups: OrgGroups, org: OrgId, added: seq<OrgGroup>)
    ensures var result := AddOrgGroups(groups, org, added);
            result.Some? ==> forall g | g in result.value :: g in groups || g.org == org
    decreases |added|
  {
    if added != [] {
      AddedGroupsAreOfOrg(groups[GroupKey(org, added[0].id) := added[0].value], org, added[1..]);
    }
  }

  lemma UpsertOrgKeepsSound(db: Db, org: OrgId, chain: OnChain)
    requires Sound(db) && UpsertOrg(db, org, chain).Some?
    ensures Sound(UpsertOrg(db, org, chain).value)
  {
    if chain.Registered? {
      AddedGroupsAreOfOrg(WithoutGroupsOf(db.orgGroups, org), org, chain.metadata.groups);
      var db' := UpsertOrg(db, org, chain).value;
      forall k | k in db'.dependents ensures OwnRow(db', k) {
        assert OwnRow(db, k);
      }
    }
  }

  lemma DeleteDependentsKeepsSound(db: Db, s: ServiceKey)
    requires Sound(db)
    ensures Sound(DeleteDependents(db, s))
  {
    var db' := DeleteDependents(db, s);
    forall k | k in db'.dependents ensures OwnRow(db', k) {
      assert OwnRow(db, k);
    }
  }

  lemma NewServiceKeepsSound(db: Db, s: ServiceKey, hash: string)
    requires Sound(db) && s !in db.services && s.org in db.orgs
    ensures Sound(db.(services := db.services[s := ServiceRow(db.nextRow, hash)], nextRow := db.nextRow + 1))
  {
    var db' := db.(services := db.services[s := ServiceRow(db.nextRow, hash)], nextRow := db.nextRow + 1);
    forall k | k in db'.dependents ensures OwnRow(db', k) {
      assert OwnRow(db, k);
    }
  }

  lemma NewHashKeepsSound(db: Db, s: ServiceKey, hash: string)
    requires Sound(db) && s in db.services
    ensures Sound(db.(services := db.services[s := db.services[s].(hash := hash)]))
  {
    var db' := db.(services := db.services[s := db.services[s].(hash := hash)]);
    assert forall t | t in db.services :: db'.services[t].id == db.services[t].id;
    forall k | k in db'.dependents ensures OwnRow(db', k) {
      assert OwnRow(db, k);
    }
  }

  lemma UpsertServiceKeepsSound(db: Db, s: ServiceKey, hash: string)
    requires Sound(db) && UpsertService(db, s, hash).Some?
    ensures var db' := UpsertService(db, s, hash).value; Sound(db') && s in db'.services
  {
    if s in db.services {
      NewHashKeepsSound(db, s, hash);
    } else {
      NewServiceKeepsSound(db, s, hash);
    }
  }

  // ---------- filling a service ----------

  // All rows of the service's point to this row.
  predicate AllAt(deps: Dependents, s: ServiceKey, row: nat) {
    forall k | k in deps && k.owner == s :: deps[k].serviceRow == row
  }

  // The same rows for every other service.
  ghost predicate SameElsewhere(a: Dependents, b: Dependents, s: ServiceKey) {
    forall k: DependentKey | k.owner != s :: (k in a <==> k in b) && (k in a ==> a[k] == b[k])
  }

  /** One write of a fill, and what a sequence of them leaves under a key: the last one. */
  datatype Write = Write(kind: Kind, name: string, value: string)

  function LastWrite(ws: seq<Write>, kind: Kind, name: string): Option<string>
    decreases |ws|
  {
    if ws == [] then None
    else
      var later := LastWrite(ws[1..], kind, name);
      if later.Some? then later else if ws[0].kind == kind && ws[0].name == name then Some(ws[0].value) else None
  }

  function EndpointWrites(group: string, endpoints: seq<string>): seq<Write> {
    seq(|endpoints|, i requires 0 <= i < |endpoints| => Write(Endpoint, group, endpoints[i]))
  }

  function GroupWrites(groups: seq<ServiceGroup>): seq<Write>
    decreases |groups|
  {
    if groups == [] then []
    else
      var g := groups[0];
      [Write(Group, g.id, g.value)] + EndpointWrites(g.id, g.endpoints) + GroupWrites(groups[1..])
  }

  function TagWrites(tags: seq<string>): seq<Write> {
    seq(|tags|, i requires 0 <= i < |tags| => Write(Tag, tags[i], ""))
  }

  function MediaWrites(media: seq<MediaItem>): seq<Write>
    decreases |media|
  {
    if media == [] then []
    else
      var m := media[0];
      (if m.fileType.OtherFile? then []
       else [Write(Media, if m.heroImage then "hero_image" else "media_gallery", m.value)]) + MediaWrites(media[1..])
  }

  function Writes(m: ServiceMetadata): seq<Write> {
    [Write(Metadata, "", m.value)] + GroupWrites(m.groups) + TagWrites(m.tags) + MediaWrites(m.media)
  }

  /** What the rows look like once these writes have been carried out. */
  ghost predicate Written(before: Dependents, after: Dependents, s: ServiceKey, row: nat, ws: seq<Write>) {
    forall k: DependentKey ::
      var w := if k.owner == s then LastWrite(ws, k.kind, k.name) else None;
      if w.Some? then k in after && after[k] == Dependent(row, w.value)
      else (k in after <==> k in before) && (k in before ==> after[k] == before[k])
  }

  lemma {:induction false} LastOfTwo(a: seq<Write>, b: seq<Write>, kind: Kind, name: string)
    ensures LastWrite(a + b, kind, name) ==
            if LastWrite(b, kind, name).Some? then LastWrite(b, kind, name) else LastWrite(a, kind, name)
    decreases |a|
  {
    if a == [] {
      assert a + b == b;
    } else {
      assert (a + b)[1..] == a[1..] + b;
      LastOfTwo(a[1..], b, kind, name);
    }
  }

  lemma WrittenOneAfterOther(d0: Dependents, d1: Dependents, d2: Dependents, s: ServiceKey, row: nat,
                             a: seq<Write>, b: seq<Write>)
    requires Written(d0, d1, s, row, a) && Written(d1, d2, s, row, b)
    ensures Written(d0, d2, s, row, a + b)
  {
    forall k: DependentKey
      ensures var w := if k.owner == s then LastWrite(a + b, k.kind, k.name) else None;
              if w.Some? then k in d2 && d2[k] == Dependent(row, w.value)
              else (k in d2 <==> k in d0) && (k in d0 ==> d2[k] == d0[k])
    {
      LastOfTwo(a, b, k.kind, k.name);
    }
  }

  lemma PutIsWritten(d: Dependents, s: ServiceKey, row: nat, w: Write)
    ensures Written(d, Put(d, s, row, w.kind, w.name, w.value), s, row, [w])
  {
    assert [w][1..] == [];
  }

  lemma NothingWritten(d: Dependents, s: ServiceKey, row: nat)
    ensures Written(d, d, s, row, [])
  {
  }

  lemma {:induction false} EndpointsWritten(d: Dependents, s: ServiceKey, row: nat, group: string,
                                            endpoints: seq<string>)
    ensures Written(d, PutEndpoints(d, s, row, group, endpoints), s, row, EndpointWrites(group, endpoints))
    decreases |endpoints|
  {
    if endpoints == [] {
      NothingWritten(d, s, row);
      assert EndpointWrites(group, endpoints) == [];
    } else {
      var w, rest := Write(Endpoint, group, endpoints[0]), EndpointWrites(group, endpoints[1..]);
      var d1 := Put(d, s, row, Endpoint, group, endpoints[0]);
      PutIsWritten(d, s, row, w);
      EndpointsWritten(d1, s, row, group, endpoints[1..]);
      assert EndpointWrites(group, endpoints) == [w] + rest;
      WrittenOneAfterOther(d, d1, PutEndpoints(d, s, row, group, endpoints), s, row, [w], rest);
    }
  }

  lemma {:induction false} GroupsWritten(d: Dependents, s: ServiceKey, row: nat, groups: seq<ServiceGroup>)
    ensures Written(d, PutGroups(d, s, row, groups), s, row, GroupWrites(groups))
    decreases |groups|
  {
    if groups == [] {
      NothingWritten(d, s, row);
    } else {
      var g, w := groups[0], Write(Group, groups[0].id, groups[0].value);
      var d1 := Put(d, s, row, Group, g.id, g.value);
      var d2 := PutEndpoints(d1, s, row, g.id, g.endpoints);
      PutIsWritten(d, s, row, w);
      EndpointsWritten(d1, s, row, g.id, g.endpoints);
      WrittenOneAfterOther(d, d1, d2, s, row, [w], EndpointWrites(g.id, g.endpoints));
      GroupsWritten(d2, s, row, groups[1..]);
      WrittenOneAfterOther(d, d2, PutGroups(d, s, row, groups), s, row,
        [w] + EndpointWrites(g.id, g.endpoints), GroupWrites(groups[1..]));
    }
  }

  /** Tags never clash: nothing of the service's points elsewhere. */
  lemma {:induction false} TagsWritten(d: Dependents, s: ServiceKey, row: nat, tags: seq<string>)
    requires AllAt(d, s, row) && forall k | k in d && k.owner == s && k.kind == Tag :: d[k].value == ""
    ensures var result := PutTags(d, s, row, tags); result.Some? && Written(d, result.value, s, row, TagWrites(tags))
    decreases |tags|
  {
    if tags == [] {
      NothingWritten(d, s, row);
      assert TagWrites(tags) == [];
    } else {
      var w := Write(Tag, tags[0], "");
      var d1 := Put(d, s, row, Tag, tags[0], "");
      PutIsWritten(d, s, row, w);
      if DependentKey(s, Tag, tags[0]) in d {
        assert d1 == d;
      }
      TagsWritten(d1, s, row, tags[1..]);
      assert TagWrites(tags) == [w] + TagWrites(tags[1..]);
      WrittenOneAfterOther(d, d1, PutTags(d1, s, row, tags[1..]).value, s, row, [w], TagWrites(tags[1..]));
    }
  }

  lemma {:induction false} MediaWritten(d: Dependents, s: ServiceKey, row: nat, media: seq<MediaItem>)
    ensures Written(d, PutMedia(d, s, row, media), s, row, MediaWrites(media))
    decreases |media|
  {
    if media == [] {
      NothingWritten(d, s, row);
    } else {
      var m := media[0];
      if m.fileType.OtherFile? {
        MediaWritten(d, s, row, media[1..]);
        assert MediaWrites(media) == MediaWrites(media[1..]);
      } else {
        var w := Write(Media, MediaName(m), m.value);
        var d1 := Put(d, s, row, Media, MediaName(m), m.value);
        PutIsWritten(d, s, row, w);
        MediaWritten(d1, s, row, media[1..]);
        WrittenOneAfterOther(d, d1, PutMedia(d, s, row, media), s, row, [w], MediaWrites(media[1..]));
      }
    }
  }

  lemma {:induction false} GroupWritesKinds(groups: seq<ServiceGroup>, name: string)
    ensures LastWrite(GroupWrites(groups), Tag, name).None?
    decreases |groups|
  {
    if groups != [] {
      var g := groups[0];
      GroupWritesKinds(groups[1..], name);
      EndpointWritesKinds(g.id, g.endpoints, name);
      LastOfTwo([Write(Group, g.id, g.value)], EndpointWrites(g.id, g.endpoints), Tag, name);
      LastOfTwo([Write(Group, g.id, g.value)] + EndpointWrites(g.id, g.endpoints), GroupWrites(groups[1..]), Tag, name);
    }
  }

  lemma {:induction false} EndpointWritesKinds(group: string, endpoints: seq<string>, name: string)
    ensures LastWrite(EndpointWrites(group, endpoints), Tag, name).None?
    decreases |endpoints|
  {
    if endpoints != [] {
      EndpointWritesKinds(group, endpoints[1..], name);
      assert EndpointWrites(group, endpoints)[1..] == EndpointWrites(group, endpoints[1..]);
    }
  }

  /** A fill over a service whose tags were removed and whose other rows point to its own row
      succeeds, and leaves the last write under every key. */
  lemma FillWrites(d: Dependents, s: ServiceKey, row: nat, m: ServiceMetadata)
    requires AllAt(d, s, row) && forall k | k in d && k.owner == s :: k.kind != Tag
    ensures var result := Fill(d, s, row, m); result.Some? && Written(d, result.value, s, row, Writes(m))
  {
    var w := Write(Metadata, "", m.value);
    var d1 := Put(d, s, row, Metadata, "", m.value);
    var d2 := PutGroups(d1, s, row, m.groups);
    PutIsWritten(d, s, row, w);
    GroupsWritten(d1, s, row, m.groups);
    WrittenOneAfterOther(d, d1, d2, s, row, [w], GroupWrites(m.groups));
    forall k | k in d2 && k.owner == s ensures d2[k].serviceRow == row && k.kind != Tag {
      LastOfTwo([w], GroupWrites(m.groups), k.kind, k.name);
      GroupWritesKinds(m.groups, k.name);
    }
    TagsWritten(d2, s, row, m.tags);
    var d3 := PutTags(d2, s, row, m.tags).value;
    WrittenOneAfterOther(d, d2, d3, s, row, [w] + GroupWrites(m.groups), TagWrites(m.tags));
    MediaWritten(d3, s, row, m.media);
    WrittenOneAfterOther(d, d3, PutMedia(d3, s, row, m.media), s, row,
      [w] + GroupWrites(m.groups) + TagWrites(m.tags), MediaWrites(m.media));
  }

  lemma WrittenStaysAt(d: Dependents, d': Dependents, s: ServiceKey, row: nat, ws: seq<Write>)
    requires Written(d, d', s, row, ws) && AllAt(d, s, row)
    ensures AllAt(d', s, row) && SameElsewhere(d, d', s)
  {
  }

  // ---------- one event ----------

  // The three committed stages of an update.
  lemma StagesAreSound(db: Db, s: ServiceKey, hash: string)
    requires Sound(db) && (s in db.services || s.org in db.orgs)
    ensures var db1 := DeleteDependents(db, s);
            var db2 := UpsertService(db1, s, hash);
            && Sound(db1) && db2.Some? && Sound(db2.value) && s in db2.value.services
            && AllAt(db2.value.dependents, s, db2.value.services[s].id) && db2.value.services[s].hash == hash
            && forall k | k in db2.value.dependents && k.owner == s :: !Renewed(k.kind)
  {
    DeleteDependentsKeepsSound(db, s);
    var db1 := DeleteDependents(db, s);
    UpsertServiceKeepsSound(db1, s, hash);
    var db2 := UpsertService(db1, s, hash).value;
    forall k | k in db2.dependents && k.owner == s
      ensures db2.dependents[k].serviceRow == db2.services[s].id && !Renewed(k.kind)
    {
      assert OwnRow(db2, k);
    }
  }

  lemma FilledIsSound(db: Db, s: ServiceKey, deps: Dependents)
    requires Sound(db) && s in db.services
    requires AllAt(deps, s, db.services[s].id) && SameElsewhere(db.dependents, deps, s)
    ensures Sound(db.(dependents := deps))
  {
    forall k | k in deps ensures OwnRow(db.(dependents := deps), k) {
      if k.owner != s {
        assert OwnRow(db, k);
      }
    }
  }

  lemma FillKeepsSound(db: Db, s: ServiceKey, m: ServiceMetadata)
    requires Sound(db) && s in db.services
    requires AllAt(db.dependents, s, db.services[s].id)
    requires forall k | k in db.dependents && k.owner == s :: k.kind != Tag
    ensures var deps := Fill(db.dependents, s, db.services[s].id, m); deps.Some? && Sound(db.(dependents := deps.value))
  {
    var row := db.services[s].id;
    FillWrites(db.dependents, s, row, m);
    var deps := Fill(db.dependents, s, row, m).value;
    WrittenStaysAt(db.dependents, deps, s, row, Writes(m));
    FilledIsSound(db, s, deps);
  }

  // The four states processing can leave behind.
  lemma ProcessLeaves(db: Db, s: ServiceKey, hash: string, m: ServiceMetadata, stop: Stop)
    ensures var left, db1 := ProcessServiceData(db, s, hash, m, stop).db, DeleteDependents(db, s);
            var db2 := UpsertService(db1, s, hash);
            || left == db || left == db1
            || (db2.Some? && left == db2.value)
            || (db2.Some? && s in db2.value.services
                && var deps := Fill(db2.value.dependents, s, db2.value.services[s].id, m);
                   deps.Some? && left == db2.value.(dependents := deps.value))
  {
  }

  lemma ProcessKeepsSound(db: Db, s: ServiceKey, hash: string, m: ServiceMetadata, stop: Stop)
    requires Sound(db)
    ensures Sound(ProcessServiceData(db, s, hash, m, stop).db)
  {
    DeleteDependentsKeepsSound(db, s);
    ProcessLeaves(db, s, hash, m, stop);
    var db2 := UpsertService(DeleteDependents(db, s), s, hash);
    if db2.Some? {
      StagesAreSound(db, s, hash);
      FillKeepsSound(db2.value, s, m);
    }
  }

  lemma HandleKeepsSound(db: Db, e: Event)
    requires Sound(db)
    ensures Sound(Handle(db, e).db)
  {
    match e {
      case ServiceCreatedOrModified(s, hash, m, mpeMatches, chain, stop) =>
        if !mpeMatches {
          DropKeepsSound(db, {s});
          DeleteOrgKeepsSound(DropServices(db, {s}), s.org);
        } else if s.org in db.orgs {
          ProcessKeepsSound(db, s, hash, m, stop);
        } else if UpsertOrg(db, s.org, chain).Some? {
          UpsertOrgKeepsSound(db, s.org, chain);
          ProcessKeepsSound(UpsertOrg(db, s.org, chain).value, s, hash, m, stop);
        }
      case ServiceDeleted(s) => DropKeepsSound(db, {s});
      case OrganizationCreatedOrModified(org, chain) =>
        if UpsertOrg(db, org, chain).Some? {
          UpsertOrgKeepsSound(db, org, chain);
        }
      case OrganizationDeleted(org) => DeleteOrgKeepsSound(db, org);
    }
  }

  function Over(db: Db, events: seq<Event>): Db {
    if events == [] then db else Handle(Over(db, events[..|events| - 1]), events[|events| - 1]).db
  }

  /** Main result on integrity: after any events, in any order, repeated or stopped half-way, every
      service has its organization, and every dependent row's organization and service are those of
      the row it points to. */
  lemma {:induction false} SoundOverRuns(events: seq<Event>)
    ensures Sound(Over(EMPTY_DB, events))
  {
    if events != [] {
      SoundOverRuns(events[..|events| - 1]);
      HandleKeepsSound(Over(EMPTY_DB, events[..|events| - 1]), events[|events| - 1]);
    }
  }

  /** Main result on inserts: a service event that does not stop by itself goes through unless its
      organization is neither stored nor, as the chain and its metadata have it, storable. */
  lemma ServiceEventSucceedsIff(db: Db, s: ServiceKey, hash: string, m: ServiceMetadata, chain: OnChain)
    requires Sound(db)
    ensures Handle(db, ServiceCreatedOrModified(s, hash, m, true, chain, Completes)).ok <==>
            || s.org in db.orgs
            || (chain.Registered?
                && AddOrgGroups(WithoutGroupsOf(db.orgGroups, s.org), s.org, chain.metadata.groups).Some?)
  {
    if s.org in db.orgs {
      ProcessSucceedsIff(db, s, hash, m);
    } else if UpsertOrg(db, s.org, chain).Some? {
      UpsertOrgKeepsSound(db, s.org, chain);
      ProcessSucceedsIff(UpsertOrg(db, s.org, chain).value, s, hash, m);
    }
  }

  lemma ProcessSucceedsIff(db: Db, s: ServiceKey, hash: string, m: ServiceMetadata)
    requires Sound(db)
    ensures ProcessServiceData(db, s, hash, m, Completes).ok <==> s.org in db.orgs
  {
    if s.org in db.orgs {
      StagesAreSound(db, s, hash);
      FillKeepsSound(UpsertService(DeleteDependents(db, s), s, hash).value, s, m);
    }
  }

  lemma {:induction false} GroupsStorableIff(groups: OrgGroups, org: OrgId, added: seq<OrgGroup>)
    ensures AddOrgGroups(groups, org, added).Some? <==>
            (forall i | 0 <= i < |added| :: GroupKey(org, added[i].id) !in groups)
            && (forall i, j | 0 <= i < j < |added| :: added[i].id != added[j].id)
    decreases |added|
  {
    if added != [] {
      var key, rest := GroupKey(org, added[0].id), added[1..];
      GroupsStorableIff(groups[key := added[0].value], org, rest);
      assert forall i | 0 < i < |added| :: added[i] == rest[i - 1];
      assert forall i | 0 <= i < |rest| :: rest[i] == added[i + 1];
    }
  }

  /** For an organization registered on chain, no service event ever meets a missing parent: it can
      only fail on a group listed twice in the organization's metadata. */
  lemma RegisteredOrgNeverMissing(events: seq<Event>, s: ServiceKey, hash: string, m: ServiceMetadata, org: OrgMetadata)
    ensures var db := Over(EMPTY_DB, events);
            Handle(db, ServiceCreatedOrModified(s, hash, m, true, Registered(org), Completes)).ok <==>
            s.org in db.orgs || forall i, j | 0 <= i < j < |org.groups| :: org.groups[i].id != org.groups[j].id
  {
    var db := Over(EMPTY_DB, events);
    SoundOverRuns(events);
    ServiceEventSucceedsIff(db, s, hash, m, Registered(org));
    GroupsStorableIff(WithoutGroupsOf(db.orgGroups, s.org), s.org, org.groups);
  }

  // ---------- the content ----------

  /** Main result on content: after a completed update the service's rows all point to its row and
      hold exactly the new metadata: the last write under each key and no group, endpoint or tag
      from before; only media of a type not mentioned anew are left over. Other services' rows are
      as they were. */
  lemma ContentAfterUpdate(db: Db, s: ServiceKey, hash: string, m: ServiceMetadata, chain: OnChain, k: DependentKey)
    requires Sound(db) && Handle(db, ServiceCreatedOrModified(s, hash, m, true, chain, Completes)).ok
    ensures var db' := Handle(db, ServiceCreatedOrModified(s, hash, m, true, chain, Completes)).db;
            var w := LastWrite(Writes(m), k.kind, k.name);
            && s in db'.services && db'.services[s].hash == hash
            && if k.owner == s && w.Some?
               then k in db'.dependents && db'.dependents[k] == Dependent(db'.services[s].id, w.value)
               else (k in db'.dependents <==> k in db.dependents && !(k.owner == s && k.kind in {Group, Tag, Endpoint}))
                    && (k in db'.dependents ==> db'.dependents[k] == db.dependents[k])
    decreases s.org !in db.orgs
  {
    ServiceEventSucceedsIff(db, s, hash, m, chain);
    if s.org in db.orgs {
      CompletedUpdate(db, s, hash, m, chain);
      var db1 := DeleteDependents(db, s);
      assert UpsertService(db1, s, hash).value.dependents == db1.dependents;
    } else {
      // The organization comes first, which touches no dependent row.
      var db0 := UpsertOrg(db, s.org, chain).value;
      UpsertOrgKeepsSound(db, s.org, chain);
      ContentAfterUpdate(db0, s, hash, m, chain, k);
    }
  }

  lemma CompletedUpdate(db: Db, s: ServiceKey, hash: string, m: ServiceMetadata, chain: OnChain)
    requires Sound(db) && s.org in db.orgs
    ensures var db2 := UpsertService(DeleteDependents(db, s), s, hash).value;
            var deps := Fill(db2.dependents, s, db2.services[s].id, m);
            && deps.Some? && Written(db2.dependents, deps.value, s, db2.services[s].id, Writes(m))
            && Handle(db, ServiceCreatedOrModified(s, hash, m, true, chain, Completes)).db
               == db2.(dependents := deps.value)
  {
    StagesAreSound(db, s, hash);
    var db2 := UpsertService(DeleteDependents(db, s), s, hash).value;
    FillWrites(db2.dependents, s, db2.services[s].id, m);
  }

  lemma {:induction false} LastEndpointWrite(group: string, endpoints: seq<string>)
    requires endpoints != []
    ensures LastWrite(EndpointWrites(group, endpoints), Endpoint, group) == Some(endpoints[|endpoints| - 1])
    decreases |endpoints|
  {
    var ws := EndpointWrites(group, endpoints);
    assert ws[1..] == EndpointWrites(group, endpoints[1..]);
    if |endpoints| == 1 {
      assert ws[1..] == [];
    } else {
      LastEndpointWrite(group, endpoints[1..]);
    }
  }

  /** Endpoints are found again by group alone, so of all endpoints listed for a group only the last
      one is stored. */
  lemma OnlyLastEndpointIsStored(d: Dependents, s: ServiceKey, row: nat, group: string, endpoints: seq<string>)
    requires endpoints != []
    ensures var d' := PutEndpoints(d, s, row, group, endpoints);
            d' == d[DependentKey(s, Endpoint, group) := Dependent(row, endpoints[|endpoints| - 1])]
  {
    EndpointsWritten(d, s, row, group, endpoints);
    LastEndpointWrite(group, endpoints);
    var d' := PutEndpoints(d, s, row, group, endpoints);
    forall k: DependentKey | k != DependentKey(s, Endpoint, group)
      ensures (k in d' <==> k in d) && (k in d ==> d'[k] == d[k])
    {
      OtherEndpointWrite(group, endpoints, k.kind, k.name);
    }
  }

  lemma {:induction false} OtherEndpointWrite(group: string, endpoints: seq<string>, kind: Kind, name: string)
    ensures kind != Endpoint || name != group ==> LastWrite(EndpointWrites(group, endpoints), kind, name).None?
    decreases |endpoints|
  {
    if endpoints != [] {
      assert EndpointWrites(group, endpoints)[1..] == EndpointWrites(group, endpoints[1..]);
      OtherEndpointWrite(group, endpoints[1..], kind, name);
    }
  }

  /** What each stop leaves of an update whose organization is stored: nothing, the service without its
      groups, tags and endpoints, or besides that its row with the new hash. */
  lemma StopLeaves(db: Db, s: ServiceKey, hash: string, m: ServiceMetadata, chain: OnChain, stop: Stop)
    requires s.org in db.orgs && !stop.Completes?
    ensures var o := Handle(db, ServiceCreatedOrModified(s, hash, m, true, chain, stop));
            var kept := map k | k in db.dependents && !(k.owner == s && k.kind in {Group, Tag, Endpoint}) ::
                          db.dependents[k];
            && !o.ok
            && (stop.AtAssets? ==> o.db == db)
            && (stop.AfterDependents? ==> o.db == db.(dependents := kept))
            && (stop.AfterService? && s in db.services ==>
                  o.db == db.(dependents := kept, services := db.services[s := ServiceRow(db.services[s].id, hash)]))
            && (stop.AfterService? && s !in db.services ==>
                  o.db == db.(dependents := kept, services := db.services[s := ServiceRow(db.nextRow, hash)],
                              nextRow := db.nextRow + 1))
  {
    var kept := map k | k in db.dependents && !(k.owner == s && k.kind in {Group, Tag, Endpoint}) :: db.dependents[k];
    assert DeleteDependents(db, s).dependents == kept;
  }

  // ---------- organizations ----------

  // The organization's groups are those listed, with their values.
  ghost predicate GroupsAre(groups: OrgGroups, org: OrgId, listed: seq<OrgGroup>) {
    && (forall i | 0 <= i < |listed| ::
          var key := GroupKey(org, listed[i].id); key in groups && groups[key] == listed[i].value)
    && (forall g | g in groups && g.org == org :: exists i | 0 <= i < |listed| :: listed[i].id == g.group)
  }

  // The same groups of every other organization.
  ghost predicate SameOtherGroups(a: OrgGroups, b: OrgGroups, org: OrgId) {
    forall g: GroupKey | g.org != org :: (g in a <==> g in b) && (g in a ==> a[g] == b[g])
  }

  lemma {:induction false} GroupsAdded(groups: OrgGroups, org: OrgId, added: seq<OrgGroup>)
    requires AddOrgGroups(groups, org, added).Some?
    ensures var result := AddOrgGroups(groups, org, added).value;
            && (forall g | g in groups :: g in result && result[g] == groups[g])
            && (forall i | 0 <= i < |added| ::
                  var key := GroupKey(org, added[i].id); key in result && result[key] == added[i].value)
            && (forall g | g in result && g !in groups ::
                  g.org == org && exists i | 0 <= i < |added| :: added[i].id == g.group)
    decreases |added|
  {
    if added != [] {
      var key, rest := GroupKey(org, added[0].id), added[1..];
      GroupsAdded(groups[key := added[0].value], org, rest);
      assert forall i | 0 < i < |added| :: added[i] == rest[i - 1];
      assert forall i | 0 <= i < |rest| :: rest[i] == added[i + 1];
    }
  }

  predicate ListedOnce(groups: seq<OrgGroup>) {
    forall i, j | 0 <= i < j < |groups| :: groups[i].id != groups[j].id
  }

  lemma UpsertOrgStores(db: Db, org: OrgId, m: OrgMetadata)
    ensures UpsertOrg(db, org, Registered(m)).Some? <==> ListedOnce(m.groups)
    ensures ListedOnce(m.groups) ==>
              var db' := UpsertOrg(db, org, Registered(m)).value;
              && db' == db.(orgs := db.orgs[org := m.value], orgGroups := db'.orgGroups)
              && GroupsAre(db'.orgGroups, org, m.groups) && SameOtherGroups(db'.orgGroups, db.orgGroups, org)
  {
    var cleared := WithoutGroupsOf(db.orgGroups, org);
    GroupsStorableIff(cleared, org, m.groups);
    if ListedOnce(m.groups) {
      GroupsAdded(cleared, org, m.groups);
    }
  }

  /** Main result on an organization event: the chain's metadata is stored, new or not, unless it lists
      a group twice; the organization's groups are then exactly those listed; and nothing else changes. */
  lemma OrganizationStored(db: Db, org: OrgId, chain: OnChain)
    ensures var o := Handle(db, OrganizationCreatedOrModified(org, chain));
            && (o.ok <==> chain.NotRegistered? || (chain.Registered? && ListedOnce(chain.metadata.groups)))
            && (!o.ok || chain.NotRegistered? ==> o.db == db)
            && (o.ok && chain.Registered? ==>
                  && o.db == db.(orgs := db.orgs[org := chain.metadata.value], orgGroups := o.db.orgGroups)
                  && GroupsAre(o.db.orgGroups, org, chain.metadata.groups)
                  && SameOtherGroups(o.db.orgGroups, db.orgGroups, org))
  {
    if chain.Registered? {
      UpsertOrgStores(db, org, chain.metadata);
    }
  }

  // What an event writes of an organization; None where it does not write.
  ghost function WrittenBy(db: Db, e: Event, org: OrgId): Option<OrgMetadata> {
    match e
    case OrganizationCreatedOrModified(o, Registered(m)) => if o == org && ListedOnce(m.groups) then Some(m) else None
    case ServiceCreatedOrModified(s, _, _, true, Registered(m), _) =>
      if s.org == org && org !in db.orgs && ListedOnce(m.groups) then Some(m) else None
    case _ => None
  }

  ghost predicate RemovedBy(db: Db, e: Event, org: OrgId) {
    || e == OrganizationDeleted(org)
    || (e.ServiceCreatedOrModified? && !e.mpeMatches && e.service.org == org
        && forall t | t in db.services && t.org == org :: t == e.service)
  }

  // The metadata an organization was last stored with, if it has not been removed since.
  ghost function LastStored(events: seq<Event>, org: OrgId): Option<OrgMetadata> {
    if events == [] then None
    else
      var n := |events| - 1;
      var before, e := Over(EMPTY_DB, events[..n]), events[n];
      var m := WrittenBy(before, e, org);
      if m.Some? then m else if RemovedBy(before, e, org) then None else LastStored(events[..n], org)
  }

  // The organization is stored with this metadata, or not at all.
  ghost predicate StoredAs(db: Db, org: OrgId, m: Option<OrgMetadata>) {
    match m
    case None => org !in db.orgs && forall g | g in db.orgGroups :: g.org != org
    case Some(m) => org in db.orgs && db.orgs[org] == m.value && GroupsAre(db.orgGroups, org, m.groups)
  }

  // Neither the organization nor its groups differ.
  ghost predicate SameOrganization(a: Db, b: Db, org: OrgId) {
    && (org in a.orgs <==> org in b.orgs) && (org in a.orgs ==> a.orgs[org] == b.orgs[org])
    && forall g: GroupKey | g.org == org :: (g in a.orgGroups <==> g in b.orgGroups)
                                            && (g in a.orgGroups ==> a.orgGroups[g] == b.orgGroups[g])
  }

  lemma SameStoredAs(a: Db, b: Db, org: OrgId, m: Option<OrgMetadata>)
    requires SameOrganization(a, b, org) && StoredAs(a, org, m)
    ensures StoredAs(b, org, m)
  {
  }

  lemma UpsertOrgIs(db: Db, o: OrgId, chain: OnChain, org: OrgId)
    requires UpsertOrg(db, o, chain).Some?
    ensures var db' := UpsertOrg(db, o, chain).value;
            if o == org && chain.Registered?
            then ListedOnce(chain.metadata.groups) && StoredAs(db', org, Some(chain.metadata))
            else SameOrganization(db, db', org)
  {
    if chain.Registered? {
      UpsertOrgStores(db, o, chain.metadata);
    }
  }

  lemma EventWrites(db: Db, e: Event, org: OrgId)
    requires Sound(db)
    ensures var db', m := Handle(db, e).db, WrittenBy(db, e, org);
            && (m.Some? ==> StoredAs(db', org, m))
            && (m.None? && RemovedBy(db, e, org) ==> StoredAs(db', org, None))
            && (m.None? && !RemovedBy(db, e, org) ==> SameOrganization(db, db', org))
  {
    match e {
      case ServiceCreatedOrModified(s, hash, m, mpeMatches, chain, stop) =>
        if !mpeMatches {
          MismatchTakesService(db, e);
        } else {
          var db1 := if s.org in db.orgs then Some(db) else UpsertOrg(db, s.org, chain);
          if chain.Registered? {
            UpsertOrgStores(db, s.org, chain.metadata);
          }
          if s.org !in db.orgs && db1.Some? {
            UpsertOrgIs(db, s.org, chain, org);
          }
          if db1.Some? {
            ProcessKeepsOrganizations(db1.value, s, hash, m, stop);
          }
        }
      case ServiceDeleted(s) =>
      case OrganizationCreatedOrModified(o, chain) =>
        OrganizationStored(db, o, chain);
        if UpsertOrg(db, o, chain).Some? {
          UpsertOrgIs(db, o, chain, org);
        }
      case OrganizationDeleted(o) =>
    }
  }

  lemma ProcessKeepsOrganizations(db: Db, s: ServiceKey, hash: string, m: ServiceMetadata, stop: Stop)
    ensures var db' := ProcessServiceData(db, s, hash, m, stop).db;
            db'.orgs == db.orgs && db'.orgGroups == db.orgGroups
  {
  }

  /** Main result on organizations: after any events, whatever failed or stopped, an organization has the
      metadata and exactly the groups of its last successful write, by its own event or by the service
      event that first brought it in; and neither if it was removed since, or never written. */
  lemma {:induction false} OrganizationIsLastStored(events: seq<Event>, org: OrgId)
    ensures StoredAs(Over(EMPTY_DB, events), org, LastStored(events, org))
  {
    if events != [] {
      var n := |events| - 1;
      var before, e := Over(EMPTY_DB, events[..n]), events[n];
      SoundOverRuns(events[..n]);
      OrganizationIsLastStored(events[..n], org);
      EventWrites(before, e, org);
      if WrittenBy(before, e, org).None? && !RemovedBy(before, e, org) {
        SameStoredAs(before, Handle(before, e).db, org, LastStored(events[..n], org));
      }
    }
  }

  // ---------- redelivery ----------

  // The same rows apart from those the writes settle.
  ghost predicate AgreeButFor(d: Dependents, d': Dependents, s: ServiceKey, ws: seq<Write>) {
    forall k: DependentKey | !(k.owner == s && LastWrite(ws, k.kind, k.name).Some?) ::
      (k in d <==> k in d') && (k in d ==> d[k] == d'[k])
  }

  lemma SameFill(d: Dependents, d': Dependents, f: Dependents, f': Dependents, s: ServiceKey, row: nat, ws: seq<Write>)
    requires Written(d, f, s, row, ws) && Written(d', f', s, row, ws) && AgreeButFor(d, d', s, ws)
    ensures f == f'
  {
    forall k: DependentKey
      ensures (k in f <==> k in f') && (k in f ==> f[k] == f'[k])
    {
      assert k.owner == s && LastWrite(ws, k.kind, k.name).Some? ==> f[k] == f'[k];
    }
  }

  lemma DeletedOnce(db: Db, s: ServiceKey)
    requires forall k | k in db.dependents && k.owner == s :: !Renewed(k.kind)
    ensures DeleteDependents(db, s) == db
  {
    assert DeleteDependents(db, s).dependents == db.dependents;
  }

  lemma UpsertedOnce(db: Db, s: ServiceKey, hash: string)
    requires UpsertService(db, s, hash).Some?
    ensures UpsertService(UpsertService(db, s, hash).value, s, hash) == UpsertService(db, s, hash)
  {
    var db' := UpsertService(db, s, hash).value;
    assert db'.services[s := db'.services[s].(hash := hash)] == db'.services;
  }

  // Deleting the dependents again undoes a fill, but for what the same fill will write.
  lemma DeletedAfterFill(d: Dependents, f: Dependents, db: Db, s: ServiceKey, row: nat, ws: seq<Write>)
    requires Written(d, f, s, row, ws) && forall k | k in d && k.owner == s :: !Renewed(k.kind)
    ensures AgreeButFor(d, DeleteDependents(db.(dependents := f), s).dependents, s, ws)
  {
  }

  lemma FilledAgain(db: Db, s: ServiceKey, hash: string, m: ServiceMetadata)
    requires Sound(db) && s in db.services && db.services[s].hash == hash
    requires AllAt(db.dependents, s, db.services[s].id)
    requires forall k | k in db.dependents && k.owner == s :: !Renewed(k.kind)
    ensures var deps := Fill(db.dependents, s, db.services[s].id, m);
            && deps.Some?
            && ProcessServiceData(db.(dependents := deps.value), s, hash, m, Completes)
               == Outcome(db.(dependents := deps.value), true)
  {
    var row := db.services[s].id;
    FillWrites(db.dependents, s, row, m);
    var deps := Fill(db.dependents, s, row, m).value;
    WrittenStaysAt(db.dependents, deps, s, row, Writes(m));
    var left := db.(dependents := deps);
    var left1 := DeleteDependents(left, s);
    DeletedAfterFill(db.dependents, deps, db, s, row, Writes(m));
    assert left1.services[s := left1.services[s].(hash := hash)] == left1.services;
    assert UpsertService(left1, s, hash) == Some(left1);
    FillWrites(left1.dependents, s, row, m);
    SameFill(db.dependents, left1.dependents, deps, Fill(left1.dependents, s, row, m).value, s, row, Writes(m));
  }

  // Completing depends only on what the second commit makes of the tables.
  lemma SameSecondStage(a: Db, b: Db, s: ServiceKey, hash: string, m: ServiceMetadata)
    requires UpsertService(DeleteDependents(a, s), s, hash) == UpsertService(DeleteDependents(b, s), s, hash)
    requires UpsertService(DeleteDependents(a, s), s, hash).Some?
    ensures ProcessServiceData(a, s, hash, m, Completes) == ProcessServiceData(b, s, hash, m, Completes)
  {
  }

  // What a stop leaves is continued from, not added to.
  lemma StoppedProcessIsContinued(db: Db, s: ServiceKey, hash: string, m: ServiceMetadata, stop: Stop)
    requires Sound(db) && s.org in db.orgs
    ensures ProcessServiceData(ProcessServiceData(db, s, hash, m, stop).db, s, hash, m, Completes)
         == ProcessServiceData(db, s, hash, m, Completes)
  {
    var left, db1 := ProcessServiceData(db, s, hash, m, stop).db, DeleteDependents(db, s);
    ProcessLeaves(db, s, hash, m, stop);
    StagesAreSound(db, s, hash);
    var db2 := UpsertService(db1, s, hash).value;
    DeletedOnce(db1, s);
    DeletedOnce(db2, s);
    if left == db1 {
      SameSecondStage(db1, db, s, hash, m);
    } else if left == db2 {
      UpsertedOnce(db1, s, hash);
      SameSecondStage(db2, db, s, hash, m);
    } else if left != db {
      FilledAgain(db2, s, hash, m);
    }
  }

  /** Main result on redelivery: an update that stopped anywhere and is delivered again with the same
      answers from the chain ends as if it had completed at once; so one that did complete changes
      nothing when repeated. */
  lemma RedeliveryCompletes(db: Db, s: ServiceKey, hash: string, m: ServiceMetadata, chain: OnChain, stop: Stop)
    requires Sound(db)
    ensures var stopped := Handle(db, ServiceCreatedOrModified(s, hash, m, true, chain, stop)).db;
            var e := ServiceCreatedOrModified(s, hash, m, true, chain, Completes);
            Handle(db, e).ok ==> Handle(stopped, e) == Handle(db, e)
  {
    if s.org in db.orgs {
      StoppedProcessIsContinued(db, s, hash, m, stop);
      ProcessLeaves(db, s, hash, m, stop);
    } else if UpsertOrg(db, s.org, chain).Some? {
      var db1 := UpsertOrg(db, s.org, chain).value;
      UpsertOrgKeepsSound(db, s.org, chain);
      ProcessSucceedsIff(db1, s, hash, m);
      if s.org in db1.orgs {
        StoppedProcessIsContinued(db1, s, hash, m, stop);
        ProcessLeaves(db1, s, hash, m, stop);
      }
    }
  }

  // ---------- deletions ----------

  // What processing a service event does to the service table.
  lemma ServicesAfterProcess(db: Db, s: ServiceKey, hash: string, m: ServiceMetadata, stop: Stop)
    ensures var db', up := ProcessServiceData(db, s, hash, m, stop).db, UpsertService(db, s, hash);
            && db'.orgs == db.orgs
            && ((db'.services == db.services && db'.nextRow == db.nextRow)
                || (up.Some? && db'.services == up.value.services && db'.nextRow == up.value.nextRow))
  {
  }

  /** Main result on deletion: a service row disappears exactly through its own delete event, its own
      MPE mismatch, or its organization's delete event; no other service's event removes it, and what
      stays keeps its row id. */
  lemma ServiceDisappearsIff(db: Db, e: Event, s: ServiceKey)
    requires Sound(db) && s in db.services
    ensures s !in Handle(db, e).db.services <==>
            || e == ServiceDeleted(s)
            || (e.ServiceCreatedOrModified? && e.service == s && !e.mpeMatches)
            || e == OrganizationDeleted(s.org)
    ensures s in Handle(db, e).db.services ==> Handle(db, e).db.services[s].id == db.services[s].id
  {
    if e.ServiceCreatedOrModified? && !e.mpeMatches && e.service.org == s.org && e.service != s {
      assert s in ServicesOf(DropServices(db, {e.service}), s.org);
    }
    if e.ServiceCreatedOrModified? && e.mpeMatches {
      var db1 := if e.service.org in db.orgs then Some(db) else UpsertOrg(db, e.service.org, e.chain);
      if db1.Some? {
        ServicesAfterProcess(db1.value, e.service, e.hash, e.metadata, e.stop);
      }
    }
  }

  /** An organization disappears exactly through its own delete event, or through an MPE mismatch of a
      service of its that leaves it without any; so that deletion takes no service along. */
  lemma OrganizationDisappearsIff(db: Db, e: Event, org: OrgId)
    requires Sound(db) && org in db.orgs
    ensures org !in Handle(db, e).db.orgs <==>
            || e == OrganizationDeleted(org)
            || (e.ServiceCreatedOrModified? && !e.mpeMatches && e.service.org == org
                && forall t | t in db.services && t.org == org :: t == e.service)
  {
    if e.ServiceCreatedOrModified? && !e.mpeMatches && e.service.org == org {
      var rest := ServicesOf(DropServices(db, {e.service}), org);
      if forall t | t in db.services && t.org == org :: t == e.service {
        assert rest == {};
      } else {
        var t :| t in db.services && t.org == org && t != e.service;
        assert t in rest;
      }
    }
  }

  /** With its service go all rows that point to it, and nothing else. */
  lemma DependentsGoWithService(db: Db, s: ServiceKey)
    requires Sound(db)
    ensures Handle(db, ServiceDeleted(s))
         == Outcome(db.(services := db.services - {s},
                        dependents := map k | k in db.dependents && k.owner != s :: db.dependents[k]), true)
  {
    DroppedDependents(db, s);
  }

  lemma DroppedDependents(db: Db, s: ServiceKey)
    requires Sound(db)
    ensures DropServices(db, {s}).dependents == map k | k in db.dependents && k.owner != s :: db.dependents[k]
  {
    DropKeepsSound(db, {s});
    Filtered(db.dependents, DropServices(db, {s}).dependents, s);
  }

  lemma Filtered(d: Dependents, d': Dependents, s: ServiceKey)
    requires forall k :: k in d' <==> k in d && k.owner != s
    requires forall k | k in d' :: d'[k] == d[k]
    ensures d' == map k | k in d && k.owner != s :: d[k]
  {
  }

  /** A mismatch takes its service like a deletion, and then its organization if that has no other. */
  lemma MismatchTakesService(db: Db, e: Event)
    requires Sound(db) && e.ServiceCreatedOrModified? && !e.mpeMatches
    ensures var s, org := e.service, e.service.org;
            var dropped := Handle(db, ServiceDeleted(s)).db;
            Handle(db, e) ==
              if org in db.orgs && forall t | t in db.services && t.org == org :: t == s
              then Handle(dropped, OrganizationDeleted(org)) else Outcome(dropped, true)
  {
    var s, org := e.service, e.service.org;
    var rest := ServicesOf(DropServices(db, {s}), org);
    if forall t | t in db.services && t.org == org :: t == s {
      assert rest == {};
    } else {
      var t :| t in db.services && t.org == org && t != s;
      assert t in rest;
    }
  }

  // The service's row and all that bears its names.
  ghost predicate SameService(a: Db, b: Db, s: ServiceKey) {
    && (s in a.services <==> s in b.services) && (s in a.services ==> a.services[s] == b.services[s])
    && forall k: DependentKey | k.owner == s :: (k in a.dependents <==> k in b.dependents)
                                                && (k in a.dependents ==> a.dependents[k] == b.dependents[k])
  }

  lemma ProcessLeavesOthers(db: Db, t: ServiceKey, hash: string, m: ServiceMetadata, stop: Stop, s: ServiceKey)
    requires Sound(db) && s != t
    ensures SameService(db, ProcessServiceData(db, t, hash, m, stop).db, s)
  {
    ProcessLeaves(db, t, hash, m, stop);
    var db2 := UpsertService(DeleteDependents(db, t), t, hash);
    if db2.Some? {
      StagesAreSound(db, t, hash);
      var row := db2.value.services[t].id;
      FillWrites(db2.value.dependents, t, row, m);
      var deps := Fill(db2.value.dependents, t, row, m).value;
      WrittenStaysAt(db2.value.dependents, deps, t, row, Writes(m));
    }
  }

  /** Main result on separation: an event of another service, of any organization, or of another
      organization, completed or stopped, leaves a stored service's row and everything under it as it was. */
  lemma OthersLeaveService(db: Db, e: Event, s: ServiceKey)
    requires Sound(db) && s in db.services
    requires e != ServiceDeleted(s) && e != OrganizationDeleted(s.org)
    requires e.ServiceCreatedOrModified? ==> e.service != s
    ensures SameService(db, Handle(db, e).db, s)
  {
    match e {
      case ServiceCreatedOrModified(t, hash, m, mpeMatches, chain, stop) =>
        if !mpeMatches {
          MismatchTakesService(db, e);
          DependentsGoWithService(db, t);
          DropKeepsSound(db, {t});
          OrganizationTakesItsOwn(DropServices(db, {t}), t.org);
        } else {
          var db1 := if t.org in db.orgs then Some(db) else UpsertOrg(db, t.org, chain);
          if db1.Some? {
            if t.org !in db.orgs {
              UpsertOrgKeepsSound(db, t.org, chain);
            }
            ProcessLeavesOthers(db1.value, t, hash, m, stop, s);
          }
        }
      case ServiceDeleted(t) => DependentsGoWithService(db, t);
      case OrganizationCreatedOrModified(o, chain) =>
      case OrganizationDeleted(o) => OrganizationTakesItsOwn(db, o);
    }
  }

  // A row that appears takes the counter's value.
  lemma NewRowIsNext(db: Db, e: Event, s: ServiceKey)
    ensures var db' := Handle(db, e).db;
            db.nextRow <= db'.nextRow && (s !in db.services && s in db'.services ==> db'.services[s].id == db.nextRow)
  {
    if e.ServiceCreatedOrModified? && e.mpeMatches {
      var db1 := if e.service.org in db.orgs then Some(db) else UpsertOrg(db, e.service.org, e.chain);
      if db1.Some? {
        ServicesAfterProcess(db1.value, e.service, e.hash, e.metadata, e.stop);
      }
    }
  }

  /** With an organization go its groups, its services and all rows that point to these, and nothing
      of any other organization. */
  lemma OrganizationTakesItsOwn(db: Db, org: OrgId)
    requires Sound(db)
    ensures var db' := Handle(db, OrganizationDeleted(org)).db;
            && db'.orgs == db.orgs - {org}
            && db'.orgGroups == (map g | g in db.orgGroups && g.org != org :: db.orgGroups[g])
            && db'.services == (map s | s in db.services && s.org != org :: db.services[s])
            && db'.dependents == (map k | k in db.dependents && k.owner.org != org :: db.dependents[k])
  {
    var services := ServicesOf(db, org);
    DropKeepsSound(db, services);
    var dropped := DropServices(db, services);
    assert dropped.services == map s | s in db.services && s.org != org :: db.services[s];
    forall k | k in db.dependents ensures k.owner in services <==> k.owner.org == org {
      assert OwnRow(db, k);
    }
  }

  lemma {:induction false} RowIdsGrow(db: Db, events: seq<Event>, s: ServiceKey)
    ensures db.nextRow <= Over(db, events).nextRow
  {
    if events != [] {
      RowIdsGrow(db, events[..|events| - 1], s);
      NewRowIsNext(Over(db, events[..|events| - 1]), events[|events| - 1], s);
    }
  }

  /** A service created again after a deletion gets a row id no service has had before. */
  lemma RecreatedServiceGetsNewRow(before: seq<Event>, between: seq<Event>, s: ServiceKey, e: Event)
    requires var db := Over(EMPTY_DB, before); s in db.services
    requires var db := Over(Over(EMPTY_DB, before), between); s !in db.services && s in Handle(db, e).db.services
    ensures forall t | t in Over(EMPTY_DB, before).services ::
              Over(EMPTY_DB, before).services[t].id < Handle(Over(Over(EMPTY_DB, before), between), e).db.services[s].id
  {
    var db := Over(EMPTY_DB, before);
    SoundOverRuns(before);
    assert forall t | t in db.services :: db.services[t].id < db.nextRow;
    RowIdsGrow(db, between, s);
    NewRowIsNext(Over(db, between), e, s);
  }
}
