/** Reconciliation of an organization's stored members with its owner and members on chain
    (registry/consumer/organization_event_consumer.py and the org_member repository methods). */
module Membership {
  import opened Wrappers

  type Address = string
  datatype Role = Owner | Member
  datatype Status = Published | Pending | PublishInProgress | Accepted

  // The repository finds a row of an organization by username and role.
  datatype Key = Key(username: string, role: Role)

  /** A row of org_member; `invite` stands for the invite code, the invitation date and the
      transaction hash, which always travel together. */
  datatype Row = Row(status: Status, address: Option<Address>, invite: string)

  // The rows of one organization.
  type Table = map<Key, Row>

  // The value of a domain object.
  datatype View = View(username: string, role: Role, status: Status, address: Option<Address>, invite: string)
  type Views = map<Address, View>

  /** The domain object. */
  class OrganizationMember {
    const username: string
    const address: Option<Address>
    const invite: string
    var role: Role
    var status: Status

    constructor (v: View)
      ensures Value() == v
    {
      username, role, status, address, invite := v.username, v.role, v.status, v.address, v.invite;
    }

    function Value(): View
      reads this
    {
      View(username, role, status, address, invite)
    }

    method SetStatus(status: Status)
      modifies this
      ensures Value() == old(Value()).(status := status)
    {
      this.status := status;
    }

    method SetRole(role: Role)
      modifies this
      ensures Value() == old(Value()).(role := role)
    {
      this.role := role;
    }
  }

  // ---------- specification ----------

  function KeyOf(v: View): Key {
    Key(v.username, v.role)
  }

  function RowOf(v: View): Row {
    Row(v.status, v.address, v.invite)
  }

  function Upsert(t: Table, v: View): Table {
    t[KeyOf(v) := RowOf(v)]
  }

  function Delete(t: Table, v: View): Table {
    if KeyOf(v) in t && t[KeyOf(v)].status == v.status then t - {KeyOf(v)} else t
  }

  // A member known from the chain only has no username.
  function FromChain(a: Address, role: Role): View {
    View("", role, Published, Some(a), "")
  }

  function OwnerView(views: Views, o: Address): View {
    if o in views then views[o].(status := Published, role := Owner) else FromChain(o, Owner)
  }

  // The keys the "delete other owners" loop deletes for these addresses.
  function DoomedKeys(t: Table, views: Views, o: Address, addresses: set<Address>): set<Key> {
    set a | a in addresses && a in views && a != o && views[a].role == Owner
         && KeyOf(views[a]) in t && t[KeyOf(views[a])].status == views[a].status :: KeyOf(views[a])
  }

  function OwnerPhase(t: Table, views: Views, o: Address): Table {
    var t1 := Upsert(t, OwnerView(views, o));
    t1 - DoomedKeys(t1, views, o, views.Keys)
  }

  function MemberView(views: Views, m: Address): View {
    if m in views then views[m].(status := Published, role := Member) else FromChain(m, Member)
  }

  function MembersPhase(t: Table, views: Views, members: seq<Address>): Table
    decreases |members|
  {
    if members == [] then t
    else
      var v := MemberView(views, members[0]);
      MembersPhase(Upsert(t, v), if members[0] in views then views[members[0] := v] else views, members[1..])
  }

  function Update(t: Table, views: Views, o: Address, members: seq<Address>): Table {
    MembersPhase(OwnerPhase(t, views, o), views[o := OwnerView(views, o)], members)
  }

  /** The rows the database is left with: only an upsert commits, so the first pass's deletions are
      committed together with the first member, and stay pending if there is none. */
  function Committed(t: Table, views: Views, o: Address, members: seq<Address>): Table {
    if members == [] then Upsert(t, OwnerView(views, o)) else Update(t, views, o, members)
  }

  function ViewAt(t: Table, k: Key): View
    requires k in t
  {
    View(k.username, k.role, t[k].status, t[k].address, t[k].invite)
  }

  /** The members by address, from the rows in the order the database returned them: of several
      rows with one address the last counts, and rows without an address are left out. */
  function CurrentMembers(t: Table, order: seq<Key>): Views
    requires forall k | k in order :: k in t
  {
    if order == [] then map[]
    else
      var n := |order| - 1;
      var views, v := CurrentMembers(t, order[..n]), ViewAt(t, order[n]);
      if v.address.Some? then views[v.address.value := v] else views
  }

  // ---------- the code ----------

  type Members = map<Address, OrganizationMember>

  ghost predicate Separate(current: Members) {
    forall a, b | a in current && b in current && a != b :: current[a] != current[b]
  }

  ghost function Values(current: Members): Views
    reads current.Values
  {
    map a | a in current :: current[a].Value()
  }

  function RemoveOwnerFromMembers(members: seq<Address>, owner: Address): seq<Address> {
    if members == [] then []
    else if members[0] == owner then members[1..]
    else [members[0]] + RemoveOwnerFromMembers(members[1..], owner)
  }

  /** The consumer and its repository on one session: `table` holds the organization's rows as the
      session sees them, `committed` as the database does. */
  class OrganizationEventConsumer {
    var table: Table
    var committed: Table

    constructor (table: Table)
      ensures this.table == committed == table
    {
      this.table, committed := table, table;
    }

    method Rollback()
      modifies this
      ensures table == committed == old(committed)
    {
      table := committed;
    }

    method UpsertOrgMember(member: OrganizationMember)
      modifies this
      ensures table == committed == Upsert(old(table), member.Value())
           == old(table)[Key(member.username, member.role) := Row(member.status, member.address, member.invite)]
    {
      var key := Key(member.username, member.role);
      if key in table {
        table := table[key := table[key].(status := member.status, address := member.address, invite := member.invite)];
      } else {
        table := table[key := Row(member.status, member.address, member.invite)];
      }
      committed := table;
    }

    // There is no commit here.
    method DeleteOrgMember(member: OrganizationMember)
      modifies this`table
      ensures table == Delete(old(table), member.Value())
      ensures var key := Key(member.username, member.role);
              table == if key in old(table) && old(table)[key].status == member.status then old(table) - {key}
                       else old(table)
    {
      var key := Key(member.username, member.role);
      if key in table && table[key].status == member.status {
        table := table - {key};
      }
    }

    /** The first pass; `raises` if its upsert does. */
    method ProcessOwner(o: Address, current: Members, raises: bool) returns (ok: bool, current': Members)
      requires Separate(current) && this !in (set a | a in current :: current[a] as object)
      modifies this, current.Values
      ensures ok == !raises
      ensures !ok ==> table == committed == old(committed)
      ensures ok ==> table == OwnerPhase(old(table), old(Values(current)), o)
      ensures ok ==> committed == Upsert(old(table), OwnerView(old(Values(current)), o))
      ensures Separate(current') && fresh(current'.Values - current.Values)
      ensures ok ==> Values(current') == old(Values(current))[o := OwnerView(old(Values(current)), o)]
    {
      ghost var views := Values(current);
      var owner;
      if o !in current {
        owner := new OrganizationMember(FromChain(o, Owner));
      } else {
        owner := current[o];
        owner.SetStatus(Published);
        owner.SetRole(Owner);
      }
      if raises {
        Rollback();
        return false, current;
      }
      UpsertOrgMember(owner);
      current' := current[o := owner];
      assert Values(current') == views[o := OwnerView(views, o)];
      DeleteOtherOwners(o, owner, current');
      DoomedSpareOwner(Upsert(old(table), OwnerView(views, o)), views, OwnerView(views, o), o);
      assert current'.Keys == views.Keys + {o};
      return true, current';
    }

    method DeleteOtherOwners(o: Address, owner: OrganizationMember, current: Members)
      requires o in current && current[o] == owner && owner.status == Published
      modifies this`table
      ensures table == old(table) - DoomedKeys(old(table), Values(current), o, current.Keys)
    {
      var todo := current.Keys;
      while todo != {}
        invariant todo <= current.Keys
        invariant table == old(table) - DoomedKeys(old(table), Values(current), o, current.Keys - todo)
        decreases todo
      {
        var address :| address in todo;
        var member := current[address];
        ghost var done := current.Keys - todo;
        if member.role == Owner
          && (address != o || member.status != Published || member.username != owner.username) {
          DeleteOrgMember(member);
        }
        todo := todo - {address};
        assert current.Keys - todo == done + {address};
        DoomedStep(old(table), Values(current), o, done, address);
      }
      assert current.Keys - {} == current.Keys;
    }

    method ProcessMember(address: Address, current: Members)
      requires Separate(current) && this !in (set a | a in current :: current[a] as object)
      modifies this, current.Values
      ensures var views, v := old(Values(current)), MemberView(old(Values(current)), address);
              && table == committed == Upsert(old(table), v)
              && Values(current) == if address in views then views[address := v] else views
    {
      ghost var views := Values(current);
      var member;
      if address !in current {
        member := new OrganizationMember(FromChain(address, Member));
        assert Values(current) == views;
      } else {
        member := current[address];
        member.SetStatus(Published);
        member.SetRole(Member);
        assert Values(current) == views[address := MemberView(views, address)];
      }
      UpsertOrgMember(member);
    }

    /** The second pass; the upsert of member number `failing` raises, if there is one. */
    method ProcessMembers(members: seq<Address>, current: Members, failing: nat) returns (ok: bool)
      requires Separate(current) && this !in (set a | a in current :: current[a] as object)
      modifies this, current.Values
      ensures ok == (failing >= |members|)
      ensures ok ==> table == MembersPhase(old(table), old(Values(current)), members)
      ensures ok ==> committed == if members == [] then old(committed) else table
      ensures !ok ==> table == committed
                   == if failing == 0 then old(committed)
                      else MembersPhase(old(table), old(Values(current)), members[..failing])
    {
      ghost var t0, views := table, Values(current);
      var i := 0;
      assert members[..0] == [];
      while i < |members|
        invariant 0 <= i <= |members| && i <= failing
        invariant table == MembersPhase(t0, views, members[..i])
        invariant Values(current) == ViewsAfter(views, members[..i])
        invariant committed == if i == 0 then old(committed) else table
      {
        if i == failing {
          Rollback();
          return false;
        }
        MembersPhaseStep(t0, views, members, i);
        ProcessMember(members[i], current);
        i := i + 1;
      }
      assert members[..|members|] == members;
      return true;
    }

    method GetOrgMembers(order: seq<Key>) returns (current: Members)
      requires forall k | k in order :: k in table
      ensures Separate(current) && fresh(current.Values)
      ensures Values(current) == CurrentMembers(table, order)
    {
      current := map[];
      var i := 0;
      while i < |order|
        invariant 0 <= i <= |order| && Separate(current) && fresh(current.Values)
        invariant forall k | k in order[..i] :: k in table
        invariant Values(current) == CurrentMembers(table, order[..i])
      {
        var v := ViewAt(table, order[i]);
        var member := new OrganizationMember(v);
        assert order[..i + 1][..i] == order[..i];
        ghost var views := Values(current);
        ghost var before := current.Values;
        if member.address.Some? {
          current := current[member.address.value := member];
          assert Values(current) == views[v.address.value := v];
          assert current.Values <= before + {member};
        }
        i := i + 1;
      }
      assert order[..|order|] == order;
    }

    /** The reconciliation; `failing` upserts succeed before one raises, if there are more. What a
        raise leaves is what committing only the members before it would have left. */
    method UpdateOrgMembers(order: seq<Key>, o: Address, members: seq<Address>, failing: nat) returns (ok: bool)
      requires forall k | k in order :: k in table
      modifies this
      ensures ok == (failing > |members|)
      ensures ok ==> table == Update(old(table), CurrentMembers(old(table), order), o, members)
      ensures ok ==> committed == Committed(old(table), CurrentMembers(old(table), order), o, members)
      ensures !ok ==> table == committed
                   == if failing == 0 then old(committed)
                      else Committed(old(table), CurrentMembers(old(table), order), o, members[..failing - 1])
    {
      var current := GetOrgMembers(order);
      ok, current := ProcessOwner(o, current, failing == 0);
      if ok {
        ok := ProcessMembers(members, current, failing - 1);
      }
    }
  }

  // The views once these members have been processed.
  function ViewsAfter(views: Views, members: seq<Address>): Views {
    if members == [] then views
    else
      var n := |members| - 1;
      var before := ViewsAfter(views, members[..n]);
      if members[n] in before then before[members[n] := MemberView(before, members[n])] else before
  }

  lemma {:induction false} MembersPhaseLast(t: Table, views: Views, members: seq<Address>, m: Address)
    ensures MembersPhase(t, views, members + [m])
         == Upsert(MembersPhase(t, views, members), MemberView(ViewsAfter(views, members), m))
    decreases |members|
  {
    if members == [] {
      assert [m][1..] == [] && members + [m] == [m];
    } else {
      var first, rest := members[0], members[1..];
      var v := MemberView(views, first);
      var views' := if first in views then views[first := v] else views;
      assert (members + [m])[1..] == rest + [m];
      MembersPhaseLast(Upsert(t, v), views', rest, m);
      ViewsAfterFirst(views, first, rest);
      assert [first] + rest == members;
    }
  }

  lemma {:induction false} ViewsAfterFirst(views: Views, first: Address, rest: seq<Address>)
    ensures ViewsAfter(views, [first] + rest)
         == ViewsAfter(if first in views then views[first := MemberView(views, first)] else views, rest)
    decreases |rest|
  {
    if rest == [] {
      assert [first] + rest == [first] && [first][..0] == [];
    } else {
      var n := |rest| - 1;
      ViewsAfterFirst(views, first, rest[..n]);
      assert ([first] + rest)[..n + 1] == [first] + rest[..n];
    }
  }

  lemma MembersPhaseStep(t: Table, views: Views, members: seq<Address>, i: nat)
    requires i < |members|
    ensures MembersPhase(t, views, members[..i + 1])
         == Upsert(MembersPhase(t, views, members[..i]), MemberView(ViewsAfter(views, members[..i]), members[i]))
    ensures ViewsAfter(views, members[..i + 1]) ==
            var before := ViewsAfter(views, members[..i]);
            if members[i] in before then before[members[i] := MemberView(before, members[i])] else before
  {
    MembersPhaseLast(t, views, members[..i], members[i]);
    assert members[..i + 1] == members[..i] + [members[i]];
    assert members[..i + 1][..i] == members[..i];
  }

  lemma DoomedSpareOwner(t: Table, views: Views, v: View, o: Address)
    ensures DoomedKeys(t, views[o := v], o, views.Keys + {o}) == DoomedKeys(t, views, o, views.Keys)
  {
    var views' := views[o := v];
    assert forall a | a != o :: (a in views' <==> a in views) && (a in views ==> views'[a] == views[a]);
  }

  lemma DoomedStep(t: Table, views: Views, o: Address, done: set<Address>, a: Address)
    requires a in views
    ensures var doomed := DoomedKeys(t, views, o, done);
            DoomedKeys(t, views, o, done + {a}) ==
            if a != o && views[a].role == Owner && KeyOf(views[a]) in t && t[KeyOf(views[a])].status == views[a].status
            then doomed + {KeyOf(views[a])} else doomed
  {
  }
}
