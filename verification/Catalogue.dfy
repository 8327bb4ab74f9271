/** The catalogue of organizations and services as registry events rewrite it
    (contract_api/application/consumers/service_event_consumers.py and
    organization_event_consumers.py with their repositories), on the tables, keys and cascades of
    contract_api/infrastructure/models.py. */
module Catalogue {
  import opened Wrappers

  type OrgId = string

  datatype ServiceKey = ServiceKey(org: OrgId, service: string)

  /** A row of service: its row id and its other columns; (org_id, service_id) is unique. */
  datatype ServiceRow = ServiceRow(id: nat, hash: string)

  // The five tables whose rows point to a service row.
  datatype Kind = Metadata | Group | Endpoint | Tag | Media

  /** A dependent row repeats the names of its organization and service, by which the code finds it
      again together with the group, the tag or the asset type. */
  datatype DependentKey = DependentKey(owner: ServiceKey, kind: Kind, name: string)
  datatype Dependent = Dependent(serviceRow: nat, value: string)
  type Dependents = map<DependentKey, Dependent>

  datatype GroupKey = GroupKey(org: OrgId, group: string)
  type OrgGroups = map<GroupKey, string>

  /** `nextRow` is the auto-increment counter of the service table. */
  datatype Db = Db(orgs: map<OrgId, string>, orgGroups: OrgGroups,
                   services: map<ServiceKey, ServiceRow>, dependents: Dependents, nextRow: nat)

  const EMPTY_DB := Db(map[], map[], map[], map[], 1)

  // ---------- what events carry ----------

  datatype OrgGroup = OrgGroup(id: string, value: string)
  datatype OrgMetadata = OrgMetadata(value: string, groups: seq<OrgGroup>)

  /** The chain's answer about an organization: reading it may also fail. */
  datatype OnChain = ChainFails | NotRegistered | Registered(metadata: OrgMetadata)

  datatype ServiceGroup = ServiceGroup(id: string, value: string, endpoints: seq<string>)
  datatype FileType = Image | Video | OtherFile
  datatype MediaItem = MediaItem(fileType: FileType, heroImage: bool, value: string)
  datatype ServiceMetadata = ServiceMetadata(value: string, groups: seq<ServiceGroup>, tags: seq<string>,
                                             media: seq<MediaItem>)

  /** Where processing stops: at the assets, after either of the two commits on the way, because
      something raises or the process dies, or not before the end. */
  datatype Stop = AtAssets | AfterDependents | AfterService | Completes

  datatype Event =
    | ServiceCreatedOrModified(service: ServiceKey, hash: string, metadata: ServiceMetadata,
                               mpeMatches: bool, chain: OnChain, stop: Stop)
    | ServiceDeleted(service: ServiceKey)
    | OrganizationCreatedOrModified(org: OrgId, chain: OnChain)
    | OrganizationDeleted(org: OrgId)

  // ---------- specification ----------

  // Deleting service rows takes along what points to them.
  function DropServices(db: Db, keys: set<ServiceKey>): Db {
    var ids := set s | s in keys && s in db.services :: db.services[s].id;
    db.(services := db.services - keys,
        dependents := map k | k in db.dependents && db.dependents[k].serviceRow !in ids :: db.dependents[k])
  }

  function ServicesOf(db: Db, org: OrgId): set<ServiceKey> {
    set s | s in db.services && s.org == org
  }

  function WithoutGroupsOf(groups: OrgGroups, org: OrgId): OrgGroups {
    map g | g in groups && g.org != org :: groups[g]
  }

  function DeleteOrg(db: Db, org: OrgId): Db {
    DropServices(db, ServicesOf(db, org)).(orgs := db.orgs - {org}, orgGroups := WithoutGroupsOf(db.orgGroups, org))
  }

  // Inserting group rows fails on the unique (org_id, group_id).
  function AddOrgGroups(groups: OrgGroups, org: OrgId, added: seq<OrgGroup>): Option<OrgGroups>
    decreases |added|
  {
    if added == [] then Some(groups)
    else
      var key := GroupKey(org, added[0].id);
      if key in groups then None else AddOrgGroups(groups[key := added[0].value], org, added[1..])
  }

  // An organization event, done or rolled back.
  function UpsertOrg(db: Db, org: OrgId, chain: OnChain): Option<Db> {
    match chain
    case ChainFails => None
    case NotRegistered => Some(db)
    case Registered(m) =>
      var groups := AddOrgGroups(WithoutGroupsOf(db.orgGroups, org), org, m.groups);
      if groups.None? then None else Some(db.(orgs := db.orgs[org := m.value], orgGroups := groups.value))
  }

  // The tables cleared before a service is filled anew.
  predicate Renewed(kind: Kind) {
    kind == Group || kind == Tag || kind == Endpoint
  }

  function DeleteDependents(db: Db, s: ServiceKey): Db {
    db.(dependents := map k | k in db.dependents && !(k.owner == s && Renewed(k.kind)) :: db.dependents[k])
  }

  // None when the organization's row is missing.
  function UpsertService(db: Db, s: ServiceKey, hash: string): Option<Db> {
    if s in db.services then Some(db.(services := db.services[s := db.services[s].(hash := hash)]))
    else if s.org !in db.orgs then None
    else Some(db.(services := db.services[s := ServiceRow(db.nextRow, hash)], nextRow := db.nextRow + 1))
  }

  function Put(deps: Dependents, s: ServiceKey, row: nat, kind: Kind, name: string, value: string): Dependents {
    deps[DependentKey(s, kind, name) := Dependent(row, value)]
  }

  function PutEndpoints(deps: Dependents, s: ServiceKey, row: nat, group: string, endpoints: seq<string>): Dependents
    decreases |endpoints|
  {
    if endpoints == [] then deps
    else PutEndpoints(Put(deps, s, row, Endpoint, group, endpoints[0]), s, row, group, endpoints[1..])
  }

  function PutGroups(deps: Dependents, s: ServiceKey, row: nat, groups: seq<ServiceGroup>): Dependents
    decreases |groups|
  {
    if groups == [] then deps
    else
      var g := groups[0];
      PutGroups(PutEndpoints(Put(deps, s, row, Group, g.id, g.value), s, row, g.id, g.endpoints), s, row, groups[1..])
  }

  // A tag found under the same row is left alone; under another row its insertion fails.
  function PutTags(deps: Dependents, s: ServiceKey, row: nat, tags: seq<string>): Option<Dependents>
    decreases |tags|
  {
    if tags == [] then Some(deps)
    else
      var key := DependentKey(s, Tag, tags[0]);
      if key !in deps then PutTags(deps[key := Dependent(row, "")], s, row, tags[1..])
      else if deps[key].serviceRow == row then PutTags(deps, s, row, tags[1..])
      else None
  }

  function MediaName(item: MediaItem): string {
    if item.heroImage then "hero_image" else "media_gallery"
  }

  function PutMedia(deps: Dependents, s: ServiceKey, row: nat, media: seq<MediaItem>): Dependents
    decreases |media|
  {
    if media == [] then deps
    else
      var m := media[0];
      var deps' := if m.fileType.OtherFile? then deps else Put(deps, s, row, Media, MediaName(m), m.value);
      PutMedia(deps', s, row, media[1..])
  }

  function Fill(deps: Dependents, s: ServiceKey, row: nat, m: ServiceMetadata): Option<Dependents> {
    var tagged := PutTags(PutGroups(Put(deps, s, row, Metadata, "", m.value), s, row, m.groups), s, row, m.tags);
    if tagged.None? then None else Some(PutMedia(tagged.value, s, row, m.media))
  }

  datatype Outcome = Outcome(db: Db, ok: bool)

  function ProcessServiceData(db: Db, s: ServiceKey, hash: string, m: ServiceMetadata, stop: Stop): Outcome {
    if stop.AtAssets? then Outcome(db, false)
    else
      var db1 := DeleteDependents(db, s);
      var db2 := UpsertService(db1, s, hash);
      if stop.AfterDependents? || db2.None? then Outcome(db1, false)
      else
        var deps := Fill(db2.value.dependents, s, db2.value.services[s].id, m);
        if stop.AfterService? || deps.None? then Outcome(db2.value, false)
        else Outcome(db2.value.(dependents := deps.value), true)
  }

  function Handle(db: Db, e: Event): Outcome {
    match e
    case ServiceCreatedOrModified(s, hash, m, mpeMatches, chain, stop) =>
      if !mpeMatches then
        var db1 := DropServices(db, {s});
        Outcome(if s.org in db1.orgs && ServicesOf(db1, s.org) == {} then DeleteOrg(db1, s.org) else db1, true)
      else
        var db1 := if s.org in db.orgs then Some(db) else UpsertOrg(db, s.org, chain);
        if db1.None? then Outcome(db, false) else ProcessServiceData(db1.value, s, hash, m, stop)
    case ServiceDeleted(s) => Outcome(DropServices(db, {s}), true)
    case OrganizationCreatedOrModified(org, chain) =>
      var db1 := UpsertOrg(db, org, chain);
      if db1.None? then Outcome(db, false) else Outcome(db1.value, true)
    case OrganizationDeleted(org) => Outcome(DeleteOrg(db, org), true)
  }

  // ---------- the code ----------

  /** The consumers over one database; `committed` is what a rollback returns to. */
  class EventConsumers {
    var db: Db
    var committed: Db

    constructor ()
      ensures db == committed == EMPTY_DB
    {
      db, committed := EMPTY_DB, EMPTY_DB;
    }

    method Commit()
      modifies this
      ensures db == committed == old(db)
    {
      committed := db;
    }

    method Rollback()
      modifies this
      ensures db == committed == old(committed)
    {
      db := committed;
    }

    method DeleteOrganization(org: OrgId)
      modifies this
      ensures db == committed == DeleteOrg(old(db), org)
    {
      db := DropServices(db, ServicesOf(db, org));
      db := db.(orgs := db.orgs - {org}, orgGroups := WithoutGroupsOf(db.orgGroups, org));
      Commit();
    }

    method CreateOrgGroups(org: OrgId, groups: seq<OrgGroup>) returns (ok: bool)
      modifies this
      ensures committed == old(committed)
      ensures var added := AddOrgGroups(old(db).orgGroups, org, groups);
              ok == added.Some? && (ok ==> db == old(db).(orgGroups := added.value))
    {
      var i := 0;
      assert groups[0..] == groups;
      while i < |groups|
        invariant 0 <= i <= |groups| && committed == old(committed)
        invariant db == old(db).(orgGroups := db.orgGroups)
        invariant AddOrgGroups(old(db).orgGroups, org, groups) == AddOrgGroups(db.orgGroups, org, groups[i..])
      {
        assert groups[i..][1..] == groups[i + 1..];
        var key := GroupKey(org, groups[i].id);
        if key in db.orgGroups {
          return false;
        }
        db := db.(orgGroups := db.orgGroups[key := groups[i].value]);
        i := i + 1;
      }
      return true;
    }

    method OnOrganizationCreated(org: OrgId, chain: OnChain) returns (ok: bool)
      requires db == committed
      modifies this
      ensures var result := UpsertOrg(old(db), org, chain);
              ok == result.Some? && db == committed == if ok then result.value else old(db)
    {
      match chain {
        case ChainFails => return false;
        case NotRegistered => return true;
        case Registered(m) =>
          db := db.(orgs := db.orgs[org := m.value]);
          db := db.(orgGroups := WithoutGroupsOf(db.orgGroups, org));
          ok := CreateOrgGroups(org, m.groups);
          if ok {
            Commit();
          } else {
            Rollback();
          }
      }
    }

    method DeleteService(s: ServiceKey)
      modifies this
      ensures db == committed == DropServices(old(db), {s})
    {
      db := DropServices(db, {s});
      Commit();
    }

    method DeleteServiceDependents(s: ServiceKey)
      modifies this
      ensures db == committed == DeleteDependents(old(db), s)
    {
      DeleteKind(s, Group);
      DeleteKind(s, Tag);
      DeleteKind(s, Endpoint);
      assert db.dependents == DeleteDependents(old(db), s).dependents;
      Commit();
    }

    method DeleteKind(s: ServiceKey, kind: Kind)
      modifies this
      ensures committed == old(committed)
      ensures db == old(db).(dependents := map k | k in old(db).dependents && !(k.owner == s && k.kind == kind) ::
                                             old(db).dependents[k])
    {
      db := db.(dependents := map k | k in db.dependents && !(k.owner == s && k.kind == kind) :: db.dependents[k]);
    }

    method UpsertServiceRow(s: ServiceKey, hash: string) returns (row: Option<nat>)
      modifies this
      ensures var result := UpsertService(old(db), s, hash);
              && row.Some? == result.Some?
              && (row.None? ==> db == old(db) && committed == old(committed))
              && (row.Some? ==> db == committed == result.value && row.value == db.services[s].id)
    {
      if s in db.services {
        db := db.(services := db.services[s := db.services[s].(hash := hash)]);
      } else {
        if s.org !in db.orgs {
          return None;
        }
        db := db.(services := db.services[s := ServiceRow(db.nextRow, hash)], nextRow := db.nextRow + 1);
      }
      Commit();
      return Some(db.services[s].id);
    }

    method UpsertDependent(s: ServiceKey, row: nat, kind: Kind, name: string, value: string)
      modifies this`db
      ensures db == old(db).(dependents := Put(old(db).dependents, s, row, kind, name, value))
    {
      var key := DependentKey(s, kind, name);
      if key in db.dependents {
        var found := db.dependents[key];
        db := db.(dependents := db.dependents[key := found.(serviceRow := row, value := value)]);
      } else {
        db := db.(dependents := db.dependents[key := Dependent(row, value)]);
      }
    }

    method StoreGroups(s: ServiceKey, row: nat, groups: seq<ServiceGroup>)
      modifies this`db
      ensures db == old(db).(dependents := PutGroups(old(db).dependents, s, row, groups))
    {
      var i := 0;
      assert groups[0..] == groups;
      while i < |groups|
        invariant 0 <= i <= |groups| && db == old(db).(dependents := db.dependents)
        invariant PutGroups(old(db).dependents, s, row, groups) == PutGroups(db.dependents, s, row, groups[i..])
      {
        assert groups[i..][1..] == groups[i + 1..];
        var g := groups[i];
        UpsertDependent(s, row, Group, g.id, g.value);
        StoreEndpoints(s, row, g.id, g.endpoints);
        i := i + 1;
      }
    }

    method StoreEndpoints(s: ServiceKey, row: nat, group: string, endpoints: seq<string>)
      modifies this`db
      ensures db == old(db).(dependents := PutEndpoints(old(db).dependents, s, row, group, endpoints))
    {
      var i := 0;
      assert endpoints[0..] == endpoints;
      while i < |endpoints|
        invariant 0 <= i <= |endpoints| && db == old(db).(dependents := db.dependents)
        invariant PutEndpoints(old(db).dependents, s, row, group, endpoints)
               == PutEndpoints(db.dependents, s, row, group, endpoints[i..])
      {
        assert endpoints[i..][1..] == endpoints[i + 1..];
        UpsertDependent(s, row, Endpoint, group, endpoints[i]);
        i := i + 1;
      }
    }

    method StoreTags(s: ServiceKey, row: nat, tags: seq<string>) returns (ok: bool)
      modifies this`db
      ensures var result := PutTags(old(db).dependents, s, row, tags);
              ok == result.Some? && (ok ==> db == old(db).(dependents := result.value))
    {
      var i := 0;
      assert tags[0..] == tags;
      while i < |tags|
        invariant 0 <= i <= |tags| && db == old(db).(dependents := db.dependents)
        invariant PutTags(old(db).dependents, s, row, tags) == PutTags(db.dependents, s, row, tags[i..])
      {
        assert tags[i..][1..] == tags[i + 1..];
        var key := DependentKey(s, Tag, tags[i]);
        if key !in db.dependents {
          db := db.(dependents := db.dependents[key := Dependent(row, "")]);
        } else if db.dependents[key].serviceRow != row {
          return false;
        }
        i := i + 1;
      }
      return true;
    }

    method StoreMedia(s: ServiceKey, row: nat, media: seq<MediaItem>)
      modifies this`db
      ensures db == old(db).(dependents := PutMedia(old(db).dependents, s, row, media))
    {
      var i := 0;
      assert media[0..] == media;
      while i < |media|
        invariant 0 <= i <= |media| && db == old(db).(dependents := db.dependents)
        invariant PutMedia(old(db).dependents, s, row, media) == PutMedia(db.dependents, s, row, media[i..])
      {
        assert media[i..][1..] == media[i + 1..];
        if !media[i].fileType.OtherFile? {
          UpsertDependent(s, row, Media, MediaName(media[i]), media[i].value);
        }
        i := i + 1;
      }
    }

    method StoreServiceData(s: ServiceKey, hash: string, m: ServiceMetadata, stop: Stop) returns (ok: bool)
      requires db == committed
      modifies this
      ensures Outcome(db, ok) == ProcessServiceData(old(db), s, hash, m, stop) && committed == db
    {
      if stop.AtAssets? {
        return false;
      }
      DeleteServiceDependents(s);
      if stop.AfterDependents? {
        return false;
      }
      var row := UpsertServiceRow(s, hash);
      if row.None? {
        return false;
      }
      if stop.AfterService? {
        return false;
      }
      UpsertDependent(s, row.value, Metadata, "", m.value);
      StoreGroups(s, row.value, m.groups);
      ok := StoreTags(s, row.value, m.tags);
      if !ok {
        Rollback();
        return;
      }
      StoreMedia(s, row.value, m.media);
      Commit();
    }

    method OnEvent(e: Event) returns (ok: bool)
      requires db == committed
      modifies this
      ensures Outcome(db, ok) == Handle(old(db), e) && committed == db
    {
      match e {
        case ServiceCreatedOrModified(s, hash, m, mpeMatches, chain, stop) =>
          if !mpeMatches {
            DeleteService(s);
            if s.org in db.orgs && ServicesOf(db, s.org) == {} {
              DeleteOrganization(s.org);
            }
            return true;
          }
          if s.org !in db.orgs {
            var created := OnOrganizationCreated(s.org, chain);
            if !created {
              return false;
            }
          }
          ok := StoreServiceData(s, hash, m, stop);
        case ServiceDeleted(s) =>
          DeleteService(s);
          ok := true;
        case OrganizationCreatedOrModified(org, chain) =>
          ok := OnOrganizationCreated(org, chain);
        case OrganizationDeleted(org) =>
          DeleteOrganization(org);
          ok := true;
      }
    }
  }
}
