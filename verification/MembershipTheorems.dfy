/** When the stored roles agree with the chain after a reconciliation, and what it leaves alone. */
module MembershipTheorems {
  import opened Membership
  import opened Wrappers

  predicate NoDup(members: seq<Address>) {
    forall i, j | 0 <= i < j < |members| :: members[i] != members[j]
  }

  lemma {:induction false} RemoveOwnerClean(members: seq<Address>, o: Address)
    requires NoDup(members)
    ensures var rest := RemoveOwnerFromMembers(members, o);
            && NoDup(rest) && o !in rest && forall a | a != o :: a in rest <==> a in members
  {
    if members != [] {
      RemoveOwnerClean(members[1..], o);
      if members[0] == o {
        assert forall i | 0 < i < |members| :: members[i] == members[1..][i - 1];
      } else {
        var rest := RemoveOwnerFromMembers(members[1..], o);
        assert members[0] !in members[1..];
        assert forall a :: a in members <==> a == members[0] || a in members[1..];
      }
    }
  }

  /** Only the owner's first entry goes, and the others keep their order. */
  lemma {:induction false} RemoveOwnerKeepsOrder(before: seq<Address>, o: Address, after: seq<Address>)
    requires o !in before
    ensures RemoveOwnerFromMembers(before + [o] + after, o) == before + after
    ensures RemoveOwnerFromMembers(before, o) == before
  {
    var all := before + [o] + after;
    if before == [] {
      assert all[0] == o && all[1..] == after;
    } else {
      assert all[0] == before[0] && all[1..] == before[1..] + [o] + after;
      RemoveOwnerKeepsOrder(before[1..], o, after);
      assert before == [before[0]] + before[1..];
    }
  }

  // The view is of a row of the table with this address.
  predicate ReadFrom(t: Table, v: View, a: Address) {
    KeyOf(v) in t && v == ViewAt(t, KeyOf(v)) && v.address == Some(a)
  }

  /** The views of a table: each addressed row's address has a view, and each view is of a row with
      its address (any of them, should there be several). */
  predicate ValidViews(t: Table, views: Views) {
    && (forall a | a in views :: ReadFrom(t, views[a], a))
    && (forall k | k in t && t[k].address.Some? :: t[k].address.value in views)
  }

  lemma {:induction false} CurrentMembersValid(t: Table, order: seq<Key>)
    requires forall k | k in order :: k in t
    ensures var views := CurrentMembers(t, order);
            && (forall a | a in views :: ReadFrom(t, views[a], a))
            && (forall k | k in order && t[k].address.Some? :: t[k].address.value in views)
            && ((forall k | k in t :: k in order) ==> ValidViews(t, views))
  {
    if order != [] {
      var n := |order| - 1;
      assert order[n] in order && forall k | k in order[..n] :: k in order;
      CurrentMembersValid(t, order[..n]);
      var v, earlier := ViewAt(t, order[n]), CurrentMembers(t, order[..n]);
      assert KeyOf(v) == order[n];
      assert CurrentMembers(t, order) == if v.address.Some? then earlier[v.address.value := v] else earlier;
      assert forall k | k in order :: k == order[n] || k in order[..n];
    }
  }

  /** Of several rows with one address the last read counts, and the member is that row. */
  lemma {:induction false} LastRowCounts(t: Table, order: seq<Key>, i: nat, a: Address)
    requires forall k | k in order :: k in t
    requires i < |order| && t[order[i]].address == Some(a)
    requires forall j | i < j < |order| :: t[order[j]].address != Some(a)
    ensures var views, k := CurrentMembers(t, order), order[i];
            a in views && views[a] == View(k.username, k.role, t[k].status, Some(a), t[k].invite)
  {
    var n := |order| - 1;
    assert order[n] in order && forall k | k in order[..n] :: k in order;
    if i < n {
      assert order[i] in order;
      LastRowCounts(t, order[..n], i, a);
    }
  }

  function NameOf(views: Views, a: Address): string {
    if a in views then views[a].username else ""
  }

  function OwnerKey(views: Views, o: Address): Key {
    Key(NameOf(views, o), Owner)
  }

  // Some address other than the owner's has this key.
  predicate SeenElsewhere(views: Views, o: Address, k: Key) {
    exists a | a in views :: a != o && KeyOf(views[a]) == k
  }

  lemma OwnerRows(t: Table, views: Views, o: Address, k: Key)
    requires ValidViews(t, views)
    ensures var t', own := OwnerPhase(t, views, o), OwnerKey(views, o);
            && (k.role == Member ==> (k in t' <==> k in t) && (k in t ==> t'[k] == t[k]))
            && (k == own ==>
                  (k in t' <==> !(k in t && t[k].status == Published && SeenElsewhere(views, o, k)))
                  && (k in t' ==> t'[k] == RowOf(OwnerView(views, o))))
            && (k.role == Owner && k != own ==>
                  (k in t' <==> k in t && !SeenElsewhere(views, o, k)) && (k in t' ==> t'[k] == t[k]))
  {
    var t1 := Upsert(t, OwnerView(views, o));
    var doomed := DoomedKeys(t1, views, o, views.Keys);
    assert KeyOf(OwnerView(views, o)) == OwnerKey(views, o);
    assert k in doomed <==> k.role == Owner && SeenElsewhere(views, o, k) && t1[k].status == t[k].status by {
      if a :| a in views && a != o && KeyOf(views[a]) == k {
        assert a in views.Keys && views[a] == ViewAt(t, k);
      }
    }
  }

  // The last of the members with the username.
  function LastNamed(views: Views, members: seq<Address>, username: string): Option<Address> {
    if members == [] then None
    else
      var later := LastNamed(views, members[1..], username);
      if later.Some? then later else if NameOf(views, members[0]) == username then Some(members[0]) else None
  }

  lemma {:induction false} LastNamedElsewhere(views: Views, views': Views, members: seq<Address>, username: string)
    requires forall m | m in members :: NameOf(views, m) == NameOf(views', m)
    ensures LastNamed(views, members, username) == LastNamed(views', members, username)
  {
    if members != [] {
      LastNamedElsewhere(views, views', members[1..], username);
    }
  }

  lemma {:induction false} LastNamedIsMember(views: Views, members: seq<Address>, username: string)
    ensures var m := LastNamed(views, members, username);
            && (m.Some? ==> m.value in members && NameOf(views, m.value) == username)
            && (m.None? ==> forall x | x in members :: NameOf(views, x) != username)
  {
    if members != [] {
      LastNamedIsMember(views, members[1..], username);
    }
  }

  lemma {:induction false} MemberRows(t: Table, views: Views, members: seq<Address>, k: Key)
    requires NoDup(members)
    ensures var t', m := MembersPhase(t, views, members), LastNamed(views, members, k.username);
            if k.role == Member && m.Some? then k in t' && t'[k] == RowOf(MemberView(views, m.value))
            else (k in t' <==> k in t) && (k in t ==> t'[k] == t[k])
    decreases |members|
  {
    if members != [] {
      var first, rest := members[0], members[1..];
      var v := MemberView(views, first);
      var views' := if first in views then views[first := v] else views;
      assert first !in rest;
      MemberRows(Upsert(t, v), views', rest, k);
      LastNamedElsewhere(views, views', rest, k.username);
      LastNamedIsMember(views, rest, k.username);
      var m := LastNamed(views', rest, k.username);
      if m.Some? {
        assert MemberView(views', m.value) == MemberView(views, m.value);
      }
    }
  }

  function InviteOf(views: Views, a: Address): string {
    if a in views then views[a].invite else ""
  }

  // ---------- a whole update ----------

  ghost predicate Reconcilable(t: Table, views: Views, o: Address, members: seq<Address>) {
    ValidViews(t, views) && NoDup(members) && o !in members
  }

  /** The rows after an update, key by key. */
  lemma UpdateRows(t: Table, views: Views, o: Address, members: seq<Address>, k: Key)
    requires Reconcilable(t, views, o, members)
    ensures var t', own, m := Update(t, views, o, members), OwnerKey(views, o), LastNamed(views, members, k.username);
            && (k == own ==>
                  (k in t' <==> !(k in t && t[k].status == Published && SeenElsewhere(views, o, k)))
                  && (k in t' ==> t'[k] == Row(Published, Some(o), InviteOf(views, o)) == RowOf(OwnerView(views, o))))
            && (k.role == Owner && k != own ==>
                  (k in t' <==> k in t && !SeenElsewhere(views, o, k)) && (k in t' ==> t'[k] == t[k]))
            && (k.role == Member && m.Some? ==>
                  k in t' && t'[k] == Row(Published, m, InviteOf(views, m.value)) == RowOf(MemberView(views, m.value)))
            && (k.role == Member && m.None? ==> (k in t' <==> k in t) && (k in t ==> t'[k] == t[k]))
  {
    var views' := views[o := OwnerView(views, o)];
    OwnerRows(t, views, o, k);
    MemberRows(OwnerPhase(t, views, o), views', members, k);
    LastNamedElsewhere(views, views', members, k.username);
    LastNamedIsMember(views, members, k.username);
  }

  /** Main result on the session: the database has the rows the session sees exactly when a member
      is upserted after the deletions, or nothing was deleted. */
  lemma CommittedIff(t: Table, views: Views, o: Address, members: seq<Address>)
    ensures Committed(t, views, o, members) == Update(t, views, o, members) <==>
            members != [] || DoomedKeys(Upsert(t, OwnerView(views, o)), views, o, views.Keys) == {}
  {
    var t1 := Upsert(t, OwnerView(views, o));
    var doomed := DoomedKeys(t1, views, o, views.Keys);
    if members == [] {
      assert doomed <= t1.Keys;
      if k :| k in doomed {
        assert k in t1 && k !in t1 - doomed;
      } else {
        assert t1 - doomed == t1;
      }
    }
  }

  /** The owner's row is the only OWNER row with an address, and is published at his address. */
  predicate OwnerStored(t: Table, own: Key, o: Address) {
    && own in t && t[own].status == Published && t[own].address == Some(o)
    && NoOtherOwner(t, own)
  }

  predicate NoOtherOwner(t: Table, own: Key) {
    forall k | k in t && k.role == Owner && k != own :: t[k].address.None?
  }

  /** What decides it for the session's rows, before the update: the new owner's username has no
      published OWNER row at another address, and every other addressed OWNER row is the one its
      address was read from, and is not at the new owner's address. */
  predicate CleanHandover(t: Table, views: Views, o: Address)
    requires ValidViews(t, views)
  {
    var own := OwnerKey(views, o);
    && !(own in t && t[own].status == Published && SeenElsewhere(views, o, own))
    && forall k | k in t && k.role == Owner && k != own && t[k].address.Some? ::
         t[k].address.value != o && KeyOf(views[t[k].address.value]) == k
  }

  lemma SessionOwnerStoredIff(t: Table, views: Views, o: Address, members: seq<Address>)
    requires Reconcilable(t, views, o, members)
    ensures OwnerStored(Update(t, views, o, members), OwnerKey(views, o), o) <==> CleanHandover(t, views, o)
  {
    var t', own := Update(t, views, o, members), OwnerKey(views, o);
    UpdateRows(t, views, o, members, own);
    forall k: Key | k.role == Owner && k != own
      ensures (k in t' && t'[k].address.Some?) <==>
              (k in t && t[k].address.Some? && !(t[k].address.value != o && KeyOf(views[t[k].address.value]) == k))
    {
      UpdateRows(t, views, o, members, k);
      if a :| a in views && a != o && KeyOf(views[a]) == k {
        assert t[k].address == Some(a);
      }
    }
  }

  /** Main result on the owner: afterwards the chain's owner is the only stored one exactly after a
      clean handover or, when he has no members and the deletions stay pending, if there was no other
      addressed OWNER row to begin with. */
  lemma OwnerStoredIff(t: Table, views: Views, o: Address, members: seq<Address>)
    requires Reconcilable(t, views, o, members)
    ensures OwnerStored(Committed(t, views, o, members), OwnerKey(views, o), o) <==>
            if members == [] then NoOtherOwner(t, OwnerKey(views, o)) else CleanHandover(t, views, o)
  {
    var t', own := Committed(t, views, o, members), OwnerKey(views, o);
    if members == [] {
      assert KeyOf(OwnerView(views, o)) == own;
      assert forall k | k != own :: (k in t' <==> k in t) && (k in t ==> t'[k] == t[k]);
    } else {
      SessionOwnerStoredIff(t, views, o, members);
    }
  }

  predicate MemberStored(t: Table, views: Views, m: Address) {
    var k := Key(NameOf(views, m), Member);
    k in t && t[k].status == Published && t[k].address == Some(m)
  }

  predicate DistinctNames(views: Views, members: seq<Address>) {
    forall i, j | 0 <= i < j < |members| :: NameOf(views, members[i]) != NameOf(views, members[j])
  }

  lemma {:induction false} LastNamedWhenDistinct(views: Views, members: seq<Address>, i: nat)
    requires NoDup(members) && i < |members|
    ensures LastNamed(views, members, NameOf(views, members[i])) == Some(members[i]) <==>
            forall j | i < j < |members| :: NameOf(views, members[j]) != NameOf(views, members[i])
  {
    var rest, name := members[1..], NameOf(views, members[i]);
    assert forall j | 0 < j < |members| :: members[j] == rest[j - 1];
    LastNamedIsMember(views, rest, name);
    if i == 0 {
      if later :| later in rest && NameOf(views, later) == name {
        assert exists j | 0 < j < |members| :: members[j] == later;
      }
    } else {
      LastNamedWhenDistinct(views, rest, i - 1);
    }
  }

  /** Main result on the members: afterwards every member of the chain is a published MEMBER under
      its username exactly when no two of them share a username; members the table does not know
      all share the empty one. */
  lemma MembersStoredIff(t: Table, views: Views, o: Address, members: seq<Address>)
    requires Reconcilable(t, views, o, members)
    ensures (forall m | m in members :: MemberStored(Committed(t, views, o, members), views, m)) <==>
            DistinctNames(views, members)
  {
    var t' := Committed(t, views, o, members);
    forall i | 0 <= i < |members|
      ensures MemberStored(t', views, members[i]) <==>
              forall j | i < j < |members| :: NameOf(views, members[j]) != NameOf(views, members[i])
    {
      var name := NameOf(views, members[i]);
      UpdateRows(t, views, o, members, Key(name, Member));
      LastNamedWhenDistinct(views, members, i);
      LastNamedIsMember(views, members, name);
      var last := LastNamed(views, members, name).value;
      assert MemberView(views, last).address == Some(last);
    }
    if forall m | m in members :: MemberStored(t', views, m) {
      assert forall i | 0 <= i < |members| :: MemberStored(t', views, members[i]);
    }
  }

  /** What an update leaves alone: MEMBER rows of usernames no member of the chain has, and OWNER
      rows without an address, save the new owner's. */
  lemma OthersUnchanged(t: Table, views: Views, o: Address, members: seq<Address>, k: Key)
    requires Reconcilable(t, views, o, members)
    requires (k.role == Member && forall m | m in members :: NameOf(views, m) != k.username)
          || (k.role == Owner && k != OwnerKey(views, o) && k in t && t[k].address.None?)
    ensures var t' := Committed(t, views, o, members); (k in t' <==> k in t) && (k in t ==> t'[k] == t[k])
  {
    UpdateRows(t, views, o, members, k);
    LastNamedIsMember(views, members, k.username);
    assert KeyOf(OwnerView(views, o)) == OwnerKey(views, o);
  }

  /** A previous owner who is still a member is deleted by the first pass and put back by the second:
      as a published MEMBER, with username and address. */
  lemma PreviousOwnerRestored(t: Table, views: Views, o: Address, members: seq<Address>, m: Address)
    requires Reconcilable(t, views, o, members) && DistinctNames(views, members)
    requires m in members && m in views && views[m].role == Owner && CleanHandover(t, views, o)
    requires views[m].username != NameOf(views, o)
    ensures var t', oldKey := Committed(t, views, o, members), KeyOf(views[m]);
            && oldKey !in OwnerPhase(t, views, o) && oldKey !in t'
            && var newKey := Key(views[m].username, Member);
               newKey in t' && t'[newKey] == Row(Published, Some(m), views[m].invite)
  {
    OwnerRows(t, views, o, KeyOf(views[m]));
    assert SeenElsewhere(views, o, KeyOf(views[m]));
    UpdateRows(t, views, o, members, KeyOf(views[m]));
    MembersStoredIff(t, views, o, members);
    UpdateRows(t, views, o, members, Key(views[m].username, Member));
    LastNamedIsMember(views, members, views[m].username);
    assert MemberStored(Committed(t, views, o, members), views, m);
  }

  // ---------- stopping, redelivery and repetition ----------

  /** Rows at one address are of one person: they agree on username and invitation. */
  predicate Coherent(t: Table) {
    forall k, l | k in t && l in t && t[k].address.Some? && t[k].address == t[l].address ::
      k.username == l.username && t[k].invite == t[l].invite
  }

  /** A clean reconciliation of a coherent table. */
  ghost predicate Clean(t: Table, views: Views, o: Address, members: seq<Address>) {
    Reconcilable(t, views, o, members) && Coherent(t) && (members != [] ==> CleanHandover(t, views, o))
  }

  // And one in which no two members share a username.
  ghost predicate Sane(t: Table, views: Views, o: Address, members: seq<Address>) {
    Clean(t, views, o, members) && DistinctNames(views, members)
  }

  /** The committed rows, key by key. */
  lemma CommittedRows(t: Table, views: Views, o: Address, members: seq<Address>, k: Key)
    requires Clean(t, views, o, members)
    ensures var t', m := Committed(t, views, o, members), LastNamed(views, members, k.username);
            && (k == OwnerKey(views, o) ==>
                  k in t' && t'[k] == Row(Published, Some(o), InviteOf(views, o)) == RowOf(OwnerView(views, o)))
            && (k.role == Member && m.Some? ==>
                  k in t' && t'[k] == Row(Published, m, InviteOf(views, m.value)) == RowOf(MemberView(views, m.value)))
            && (k.role == Member && m.None? ==> (k in t' <==> k in t) && (k in t ==> t'[k] == t[k]))
            && (k.role == Owner && k != OwnerKey(views, o) ==>
                  (k in t' <==> k in t && (members == [] || t[k].address.None?)) && (k in t' ==> t'[k] == t[k]))
  {
    assert KeyOf(OwnerView(views, o)) == OwnerKey(views, o);
    if members != [] {
      UpdateRows(t, views, o, members, k);
      if k.role == Owner && SeenElsewhere(views, o, k) {
        var a :| a in views && a != o && KeyOf(views[a]) == k;
        assert t[k].address == Some(a);
      }
      if k.role == Owner && k != OwnerKey(views, o) && k in t && t[k].address.Some? {
        assert SeenElsewhere(views, o, k);
      }
    }
  }

  lemma AddressOfMember(t: Table, views: Views, m: Address)
    requires ValidViews(t, views)
    ensures MemberView(views, m).address == Some(m) && MemberView(views, m).username == NameOf(views, m)
    ensures MemberView(views, m).invite == InviteOf(views, m)
  {
  }

  // A committed row at an address bears the username and the invitation that were known for it.
  lemma RowKeepsPerson(t: Table, views: Views, o: Address, members: seq<Address>, k: Key, a: Address)
    requires Clean(t, views, o, members)
    requires k in Committed(t, views, o, members) && Committed(t, views, o, members)[k].address == Some(a)
    ensures k.username == NameOf(views, a) && Committed(t, views, o, members)[k].invite == InviteOf(views, a)
  {
    CommittedRows(t, views, o, members, k);
    LastNamedIsMember(views, members, k.username);
    var m := LastNamed(views, members, k.username);
    if k.role == Member && m.Some? {
      AddressOfMember(t, views, m.value);
    } else if k != OwnerKey(views, o) {
      assert t[k].address == Some(a) && a in views;
      assert ReadFrom(t, views[a], a);
    }
  }

  /** Main result on persons: a clean reconciliation leaves a coherent table. */
  lemma CommittedStaysCoherent(t: Table, views: Views, o: Address, members: seq<Address>)
    requires Clean(t, views, o, members)
    ensures Coherent(Committed(t, views, o, members))
  {
    var t' := Committed(t, views, o, members);
    forall k, l | k in t' && l in t' && t'[k].address.Some? && t'[k].address == t'[l].address
      ensures k.username == l.username && t'[k].invite == t'[l].invite
    {
      RowKeepsPerson(t, views, o, members, k, t'[k].address.value);
      RowKeepsPerson(t, views, o, members, l, t'[k].address.value);
    }
  }

  // Read again, whoever still has a row is the person he was; the owner and the members do.
  lemma SeenAgain(t: Table, views: Views, views': Views, o: Address, members: seq<Address>, a: Address)
    requires Clean(t, views, o, members) && ValidViews(Committed(t, views, o, members), views')
    ensures a in views' ==> NameOf(views', a) == NameOf(views, a) && InviteOf(views', a) == InviteOf(views, a)
    ensures a == o || (a in members && DistinctNames(views, members)) ==> a in views'
  {
    var t' := Committed(t, views, o, members);
    if a in views' {
      assert ReadFrom(t', views'[a], a);
      RowKeepsPerson(t, views, o, members, KeyOf(views'[a]), a);
    }
    if a == o {
      CommittedRows(t, views, o, members, OwnerKey(views, o));
      assert t'[OwnerKey(views, o)].address == Some(o);
    }
    if a in members && DistinctNames(views, members) {
      MembersStoredIff(t, views, o, members);
      assert MemberStored(t', views, a);
    }
  }

  lemma OwnerSeenAgain(t: Table, views: Views, views': Views, o: Address, members: seq<Address>)
    requires Clean(t, views, o, members) && ValidViews(Committed(t, views, o, members), views')
    ensures OwnerKey(views', o) == OwnerKey(views, o) && RowOf(OwnerView(views', o)) == RowOf(OwnerView(views, o))
  {
    SeenAgain(t, views, views', o, members, o);
    assert ReadFrom(Committed(t, views, o, members), views'[o], o);
  }

  lemma PrefixIsSane(t: Table, views: Views, o: Address, members: seq<Address>, n: nat)
    requires Sane(t, views, o, members) && n <= |members|
    ensures Sane(t, views, o, members[..n])
  {
  }

  lemma {:induction false} LastNamedOfPrefix(views: Views, members: seq<Address>, n: nat, username: string)
    requires n <= |members| && LastNamed(views, members, username).None?
    ensures LastNamed(views, members[..n], username).None?
  {
    LastNamedIsMember(views, members, username);
    LastNamedIsMember(views, members[..n], username);
  }

  /** Nobody who is still to be upserted has been forgotten by a stop: whoever had a row has one yet,
      unless there was nothing to know of him. */
  predicate NobodyForgotten(views: Views, views': Views, members: seq<Address>) {
    forall m | m in members && m in views && m !in views' :: views[m].username == "" && views[m].invite == ""
  }

  lemma SameMembersAgain(t: Table, views: Views, views': Views, o: Address, members: seq<Address>, n: nat, m: Address)
    requires Sane(t, views, o, members) && n <= |members|
    requires ValidViews(Committed(t, views, o, members[..n]), views')
    requires NobodyForgotten(views, views', members) && m in members
    ensures NameOf(views', m) == NameOf(views, m)
    ensures RowOf(MemberView(views', m)) == RowOf(MemberView(views, m))
  {
    PrefixIsSane(t, views, o, members, n);
    SeenAgain(t, views, views', o, members[..n], m);
    AddressOfMember(t, views, m);
    AddressOfMember(Committed(t, views, o, members[..n]), views', m);
  }

  // With everybody known, the second delivery writes every row as one complete update does.
  lemma RedeliveredRow(t: Table, views: Views, views': Views, o: Address, members: seq<Address>, n: nat, k: Key)
    requires Sane(t, views, o, members) && members != [] && n <= |members|
    requires ValidViews(Committed(t, views, o, members[..n]), views')
    requires Sane(Committed(t, views, o, members[..n]), views', o, members) && NobodyForgotten(views, views', members)
    ensures var once, again := Committed(t, views, o, members),
                               Committed(Committed(t, views, o, members[..n]), views', o, members);
            (k in again <==> k in once) && (k in once ==> again[k] == once[k])
  {
    var left := Committed(t, views, o, members[..n]);
    PrefixIsSane(t, views, o, members, n);
    forall m | m in members
      ensures NameOf(views', m) == NameOf(views, m) && RowOf(MemberView(views', m)) == RowOf(MemberView(views, m))
    {
      SameMembersAgain(t, views, views', o, members, n, m);
    }
    CommittedRows(t, views, o, members, k);
    CommittedRows(t, views, o, members[..n], k);
    CommittedRows(left, views', o, members, k);
    OwnerSeenAgain(t, views, views', o, members[..n]);
    LastNamedElsewhere(views, views', members, k.username);
    LastNamedIsMember(views, members, k.username);
    if LastNamed(views, members, k.username).None? {
      LastNamedOfPrefix(views, members, n, k.username);
    }
  }

  // A forgotten member's row cannot come out as it was.
  lemma ForgottenRowDiffers(t: Table, views: Views, views': Views, o: Address, members: seq<Address>, n: nat,
                            m: Address)
    requires Sane(t, views, o, members) && n <= |members|
    requires ValidViews(Committed(t, views, o, members[..n]), views')
    requires m in members && m in views && m !in views' && !(views[m].username == "" && views[m].invite == "")
    ensures Committed(Committed(t, views, o, members[..n]), views', o, members) != Committed(t, views, o, members)
  {
    var left, key := Committed(t, views, o, members[..n]), Key(views[m].username, Member);
    var once, again := Committed(t, views, o, members), Committed(left, views', o, members);
    MembersStoredIff(t, views, o, members);
    assert MemberStored(once, views, m);
    RowKeepsPerson(t, views, o, members, key, m);
    assert once[key].address == Some(m) && once[key].invite == views[m].invite;
    UpdateRows(left, views', o, members, key);
    LastNamedIsMember(views', members, key.username);
    var last := LastNamed(views', members, key.username);
    if last.Some? {
      AddressOfMember(left, views', last.value);
    }
  }

  lemma RereadIsSane(t: Table, views: Views, views': Views, o: Address, members: seq<Address>, n: nat)
    requires Sane(t, views, o, members) && n <= |members|
    requires ValidViews(Committed(t, views, o, members[..n]), views') && NobodyForgotten(views, views', members)
    requires members != [] ==> CleanHandover(Committed(t, views, o, members[..n]), views', o)
    ensures Sane(Committed(t, views, o, members[..n]), views', o, members)
  {
    PrefixIsSane(t, views, o, members, n);
    CommittedStaysCoherent(t, views, o, members[..n]);
    forall m | m in members ensures NameOf(views', m) == NameOf(views, m) {
      SameMembersAgain(t, views, views', o, members, n, m);
    }
  }

  lemma RedeliveryCompletes(t: Table, views: Views, views': Views, o: Address, members: seq<Address>, n: nat)
    requires Sane(t, views, o, members) && members != [] && n <= |members|
    requires ValidViews(Committed(t, views, o, members[..n]), views') && NobodyForgotten(views, views', members)
    requires CleanHandover(Committed(t, views, o, members[..n]), views', o)
    ensures Committed(Committed(t, views, o, members[..n]), views', o, members) == Committed(t, views, o, members)
  {
    var once, again := Committed(t, views, o, members),
                       Committed(Committed(t, views, o, members[..n]), views', o, members);
    RereadIsSane(t, views, views', o, members, n);
    forall k: Key ensures (k in again <==> k in once) && (k in once ==> again[k] == once[k]) {
      RedeliveredRow(t, views, views', o, members, n, k);
    }
  }

  // An unclean handover, as read again, leaves another owner.
  lemma UncleanRedeliveryDiffers(t: Table, views: Views, views': Views, o: Address, members: seq<Address>, n: nat)
    requires Sane(t, views, o, members) && members != [] && n <= |members|
    requires ValidViews(Committed(t, views, o, members[..n]), views')
    requires !CleanHandover(Committed(t, views, o, members[..n]), views', o)
    ensures Committed(Committed(t, views, o, members[..n]), views', o, members) != Committed(t, views, o, members)
  {
    PrefixIsSane(t, views, o, members, n);
    OwnerSeenAgain(t, views, views', o, members[..n]);
    OwnerStoredIff(t, views, o, members);
    OwnerStoredIff(Committed(t, views, o, members[..n]), views', o, members);
  }

  /** Main result on redelivery: an update of an organization with members that raised after the
      owner's upsert and n more, and is delivered again on whatever rows it left, ends as one complete
      update exactly when the handover is clean as read again and nobody was forgotten in between. */
  lemma RedeliveredIff(t: Table, views: Views, views': Views, o: Address, members: seq<Address>, n: nat)
    requires Sane(t, views, o, members) && members != [] && n <= |members|
    requires ValidViews(Committed(t, views, o, members[..n]), views')
    ensures var left := Committed(t, views, o, members[..n]);
            Committed(left, views', o, members) == Committed(t, views, o, members) <==>
            CleanHandover(left, views', o) && NobodyForgotten(views, views', members)
  {
    if !CleanHandover(Committed(t, views, o, members[..n]), views', o) {
      UncleanRedeliveryDiffers(t, views, views', o, members, n);
    } else if NobodyForgotten(views, views', members) {
      RedeliveryCompletes(t, views, views', o, members, n);
    } else {
      var m :| m in members && m in views && m !in views' && !(views[m].username == "" && views[m].invite == "");
      ForgottenRowDiffers(t, views, views', o, members, n, m);
    }
  }

  // One named owner, and nobody else, before he hands over.
  function OwnerOnly(previous: Address, username: string): Table {
    map[Key(username, Owner) := Row(Published, Some(previous), "")]
  }

  lemma OwnerOnlyIsSane(o: Address, previous: Address, m: Address, username: string)
    requires o != previous && m != o && m != previous && username != ""
    ensures var t := OwnerOnly(previous, username);
            var views := CurrentMembers(t, [Key(username, Owner)]);
            && views == map[previous := View(username, Owner, Published, Some(previous), "")]
            && Sane(t, views, o, [m, previous]) && Sane(t, views, o, [m])
  {
    var t := OwnerOnly(previous, username);
    OneOwnerRead(t, Key(username, Owner), previous);
    var views := CurrentMembers(t, [Key(username, Owner)]);
    assert Sane(t, views, o, [m, previous]);
    PrefixIsSane(t, views, o, [m, previous], 1);
    assert [m, previous][..1] == [m];
  }

  lemma LeftAfterFirstMember(o: Address, previous: Address, m: Address, username: string)
    requires o != previous && m != o && m != previous && username != ""
    ensures var t := OwnerOnly(previous, username);
            Committed(t, CurrentMembers(t, [Key(username, Owner)]), o, [m])
            == map[Key("", Owner) := Row(Published, Some(o), ""), Key("", Member) := Row(Published, Some(m), "")]
  {
    OwnerOnlyIsSane(o, previous, m, username);
    var t, own, member := OwnerOnly(previous, username), Key("", Owner), Key("", Member);
    var views := CurrentMembers(t, [Key(username, Owner)]);
    var left := Committed(t, views, o, [m]);
    assert LastNamed(views, [m][1..], "") == None && LastNamed(views, [m], "") == Some(m);
    forall k: Key
      ensures k in left <==> k == own || k == member
      ensures k == own ==> left[k] == Row(Published, Some(o), "")
      ensures k == member ==> left[k] == Row(Published, Some(m), "")
    {
      CommittedRows(t, views, o, [m], k);
      LastNamedIsMember(views, [m], k.username);
    }
  }

  /** It does happen: the previous owner is deleted with the first member's commit, and if the next
      upsert, his own, raises, the redelivery knows his address but no longer his name. */
  lemma StopForgetsPreviousOwner(o: Address, previous: Address, m: Address, username: string, views': Views)
    requires o != previous && m != o && m != previous && username != ""
    requires var t := OwnerOnly(previous, username);
             ValidViews(Committed(t, CurrentMembers(t, [Key(username, Owner)]), o, [m]), views')
    ensures var t := OwnerOnly(previous, username);
            var views := CurrentMembers(t, [Key(username, Owner)]);
            && Key(username, Member) in Committed(t, views, o, [m, previous])
            && Key(username, Member) !in Committed(Committed(t, views, o, [m]), views', o, [m, previous])
  {
    var t, members, key := OwnerOnly(previous, username), [m, previous], Key(username, Member);
    var views := CurrentMembers(t, [Key(username, Owner)]);
    OwnerOnlyIsSane(o, previous, m, username);
    MembersStoredIff(t, views, o, members);
    assert MemberStored(Committed(t, views, o, members), views, previous);
    LeftAfterFirstMember(o, previous, m, username);
    UnknownStaysUnknown(Committed(t, views, o, [m]), views', o, members, username);
  }

  // A name no row bears is not found again.
  lemma UnknownStaysUnknown(t: Table, views: Views, o: Address, members: seq<Address>, username: string)
    requires Reconcilable(t, views, o, members) && members != [] && username != ""
    requires forall k | k in t :: k.username != username
    ensures Key(username, Member) !in Committed(t, views, o, members)
  {
    forall a | a in views ensures views[a].username != username {
      assert ReadFrom(t, views[a], a);
    }
    UpdateRows(t, views, o, members, Key(username, Member));
    LastNamedIsMember(views, members, username);
  }

  lemma OwnerAloneIsIdempotent(t: Table, views: Views, views': Views, o: Address)
    requires Clean(t, views, o, []) && ValidViews(Committed(t, views, o, []), views')
    ensures Committed(Committed(t, views, o, []), views', o, []) == Committed(t, views, o, [])
  {
    OwnerSeenAgain(t, views, views', o, []);
    CommittedRows(t, views, o, [], OwnerKey(views, o));
  }

  // A later member has the same username, so this one's row is overwritten.
  predicate Shadowed(views: Views, members: seq<Address>, i: nat)
    requires i < |members|
  {
    exists j | i < j < |members| :: NameOf(views, members[j]) == NameOf(views, members[i])
  }

  /** Shared usernames do no harm on repetition: whoever has lost his name to another is followed by a
      member without one, in whose row he ends up and disappears. */
  predicate CollisionsHarmless(views: Views, members: seq<Address>) {
    forall i | 0 <= i < |members| && NameOf(views, members[i]) != "" && Shadowed(views, members, i) ::
      exists j | i < j < |members| :: NameOf(views, members[j]) == ""
  }

  // Read again, a member has a row exactly if no later one took it.
  lemma SeenAgainIff(t: Table, views: Views, views': Views, o: Address, members: seq<Address>, i: nat)
    requires Clean(t, views, o, members) && ValidViews(Committed(t, views, o, members), views') && i < |members|
    ensures members[i] in views' <==> !Shadowed(views, members, i)
    ensures NameOf(views', members[i]) == if Shadowed(views, members, i) then "" else NameOf(views, members[i])
    ensures !Shadowed(views, members, i) ==>
              RowOf(MemberView(views', members[i])) == RowOf(MemberView(views, members[i]))
  {
    var t', m := Committed(t, views, o, members), members[i];
    var key := Key(NameOf(views, m), Member);
    LastNamedWhenDistinct(views, members, i);
    LastNamedIsMember(views, members, key.username);
    CommittedRows(t, views, o, members, key);
    var last := LastNamed(views, members, key.username).value;
    AddressOfMember(t, views, last);
    SeenAgain(t, views, views', o, members, m);
    if m in views' {
      var k := KeyOf(views'[m]);
      assert ReadFrom(t', views'[m], m);
      RowKeepsPerson(t, views, o, members, k, m);
      CommittedRows(t, views, o, members, k);
    } else {
      assert t'[key].address == Some(last);
    }
    AddressOfMember(t, views, m);
    AddressOfMember(t', views', m);
  }

  lemma LastNamedIndex(views: Views, members: seq<Address>, username: string) returns (i: nat)
    requires NoDup(members) && LastNamed(views, members, username).Some?
    ensures i < |members| && LastNamed(views, members, username) == Some(members[i])
    ensures NameOf(views, members[i]) == username
    ensures forall j | i < j < |members| :: NameOf(views, members[j]) != username
  {
    LastNamedIsMember(views, members, username);
    i :| 0 <= i < |members| && members[i] == LastNamed(views, members, username).value;
    LastNamedWhenDistinct(views, members, i);
  }

  // The last member of a name other than the empty one is the same, read again.
  lemma LastNamedAgain(t: Table, views: Views, views': Views, o: Address, members: seq<Address>, username: string)
    requires Clean(t, views, o, members) && ValidViews(Committed(t, views, o, members), views') && username != ""
    ensures LastNamed(views', members, username) == LastNamed(views, members, username)
  {
    if LastNamed(views', members, username).Some? {
      var i := LastNamedIndex(views', members, username);
      SeenAgainIff(t, views, views', o, members, i);
      LastNamedWhenDistinct(views, members, i);
    } else if LastNamed(views, members, username).Some? {
      var i := LastNamedIndex(views, members, username);
      assert members[i] in members;
      LastNamedIsMember(views', members, username);
      SeenAgainIff(t, views, views', o, members, i);
    }
  }

  // That of the empty name is so exactly when collisions are harmless.
  lemma LastUnnamedAgainIff(t: Table, views: Views, views': Views, o: Address, members: seq<Address>)
    requires Clean(t, views, o, members) && ValidViews(Committed(t, views, o, members), views')
    ensures LastNamed(views', members, "") == LastNamed(views, members, "") <==> CollisionsHarmless(views, members)
  {
    forall i | 0 <= i < |members|
      ensures NameOf(views', members[i]) == if Shadowed(views, members, i) then "" else NameOf(views, members[i])
    {
      SeenAgainIff(t, views, views', o, members, i);
    }
    LastNamedIsMember(views, members, "");
    LastNamedIsMember(views', members, "");
    if LastNamed(views', members, "").Some? {
      var i := LastNamedIndex(views', members, "");
      LastNamedWhenDistinct(views, members, i);
      if LastNamed(views, members, "").Some? {
        var j := LastNamedIndex(views, members, "");
        assert j <= i;
      }
    } else {
      assert forall i | 0 <= i < |members| :: members[i] in members;
    }
  }

  // With harmless collisions, the repetition writes every row as it is.
  lemma RepeatedRow(t: Table, views: Views, views': Views, o: Address, members: seq<Address>, k: Key)
    requires Clean(t, views, o, members) && members != [] && CollisionsHarmless(views, members)
    requires ValidViews(Committed(t, views, o, members), views')
    requires Clean(Committed(t, views, o, members), views', o, members)
    ensures var once, again := Committed(t, views, o, members),
                               Committed(Committed(t, views, o, members), views', o, members);
            (k in again <==> k in once) && (k in once ==> again[k] == once[k])
  {
    var once := Committed(t, views, o, members);
    CommittedRows(t, views, o, members, k);
    CommittedRows(once, views', o, members, k);
    OwnerSeenAgain(t, views, views', o, members);
    if k.username == "" {
      LastUnnamedAgainIff(t, views, views', o, members);
    } else {
      LastNamedAgain(t, views, views', o, members, k.username);
    }
    if LastNamed(views, members, k.username).Some? {
      var i := LastNamedIndex(views, members, k.username);
      SeenAgainIff(t, views, views', o, members, i);
    }
  }

  // After a clean reconciliation of a coherent table with harmless collisions, repeating it on the
  // committed rows, with whatever views are read from them, changes nothing.
  lemma UpdateIsIdempotent(t: Table, views: Views, views': Views, o: Address, members: seq<Address>)
    requires Clean(t, views, o, members) && CollisionsHarmless(views, members)
    requires ValidViews(Committed(t, views, o, members), views')
    ensures Committed(Committed(t, views, o, members), views', o, members) == Committed(t, views, o, members)
    ensures Clean(Committed(t, views, o, members), views', o, members)
  {
    var once := Committed(t, views, o, members);
    CommittedStaysCoherent(t, views, o, members);
    if members == [] {
      OwnerAloneIsIdempotent(t, views, views', o);
    } else {
      CleanAfterwards(t, views, views', o, members);
      var again := Committed(once, views', o, members);
      forall k: Key ensures (k in again <==> k in once) && (k in once ==> again[k] == once[k]) {
        RepeatedRow(t, views, views', o, members, k);
      }
    }
  }

  // With harmful ones, somebody who lost his name appears in the row of the empty one.
  lemma HarmfulCollisionShows(t: Table, views: Views, views': Views, o: Address, members: seq<Address>)
    requires Clean(t, views, o, members) && !CollisionsHarmless(views, members)
    requires ValidViews(Committed(t, views, o, members), views')
    ensures Committed(Committed(t, views, o, members), views', o, members) != Committed(t, views, o, members)
  {
    var once, key := Committed(t, views, o, members), Key("", Member);
    var i :| 0 <= i < |members| && NameOf(views, members[i]) != "" && Shadowed(views, members, i);
    SeenAgainIff(t, views, views', o, members, i);
    LastNamedIsMember(views', members, "");
    assert members[i] in members;
    LastUnnamedAgainIff(t, views, views', o, members);
    var y := LastNamed(views', members, "").value;
    UpdateRows(once, views', o, members, key);
    AddressOfMember(once, views', y);
    CommittedRows(t, views, o, members, key);
    LastNamedIsMember(views, members, "");
    if LastNamed(views, members, "").Some? {
      AddressOfMember(t, views, LastNamed(views, members, "").value);
    } else if key in once && once[key].address == Some(y) {
      RowKeepsPerson(t, views, o, members, key, y);
    }
  }

  // With the owner stored alone, there is nothing left to hand over.
  lemma CleanAfterwards(t: Table, views: Views, views': Views, o: Address, members: seq<Address>)
    requires Clean(t, views, o, members) && members != [] && ValidViews(Committed(t, views, o, members), views')
    ensures CleanHandover(Committed(t, views, o, members), views', o)
  {
    OwnerStoredIff(t, views, o, members);
    OwnerSeenAgain(t, views, views', o, members);
    forall a | a in views' && views'[a].role == Owner ensures a == o {
      assert ReadFrom(Committed(t, views, o, members), views'[a], a);
    }
  }

  // Views of a table: of each address, some row with it.
  ghost function AnyViews(t: Table): (views: Views)
    ensures ValidViews(t, views)
  {
    var addresses := set k | k in t && t[k].address.Some? :: t[k].address.value;
    map a | a in addresses :: ViewAt(t, RowKey(t, a))
  }

  ghost function RowKey(t: Table, a: Address): (k: Key)
    requires exists k :: k in t && t[k].address == Some(a)
    ensures k in t && t[k].address == Some(a)
  {
    var k :| k in t && t[k].address == Some(a);
    k
  }

  lemma OtherReadingIsValid(t: Table, views: Views, k: Key, a: Address)
    requires ValidViews(t, views) && k in t && t[k].address == Some(a)
    ensures ValidViews(t, views[a := ViewAt(t, k)])
  {
  }

  // An OWNER row the session still sees at the owner's address is the one of his username.
  lemma OwnerRowAtOwner(t: Table, views: Views, o: Address, members: seq<Address>, k: Key)
    requires Reconcilable(t, views, o, members) && Coherent(t) && k.role == Owner
    requires var t' := Update(t, views, o, members); k in t' && t'[k].address == Some(o)
    ensures k == OwnerKey(views, o)
  {
    UpdateRows(t, views, o, members, k);
    assert o in views ==> ReadFrom(t, views[o], o);
  }

  // An update that is repeated without effect has left the owner's row.
  lemma UnchangedHasOwner(t: Table, views: Views, views': Views, o: Address, members: seq<Address>)
    requires Reconcilable(t, views, o, members) && Coherent(t)
    requires var t' := Update(t, views, o, members); ValidViews(t', views') && Update(t', views', o, members) == t'
    ensures OwnerKey(views, o) in Update(t, views, o, members)
  {
    var t', own' := Update(t, views, o, members), OwnerKey(views', o);
    UpdateRows(t', views', o, members, own');
    OwnerRowAtOwner(t, views, o, members, own');
  }

  // One that has left another addressed OWNER row is not, read by way of that row.
  lemma OtherOwnerIsDeletedNext(t: Table, views: Views, o: Address, members: seq<Address>, k: Key, views': Views)
    requires Reconcilable(t, views, o, members) && Coherent(t)
    requires var t' := Update(t, views, o, members);
             && k in t' && k.role == Owner && k != OwnerKey(views, o) && t'[k].address.Some?
             && ValidViews(t', views') && t'[k].address.value in views' && views'[t'[k].address.value] == ViewAt(t', k)
    ensures Update(Update(t, views, o, members), views', o, members) != Update(t, views, o, members)
  {
    var t' := Update(t, views, o, members);
    var a := t'[k].address.value;
    if a == o {
      OwnerRowAtOwner(t, views, o, members, k);
    }
    assert SeenElsewhere(views', o, k);
    UpdateRows(t', views', o, members, k);
  }

  lemma UncleanIsNotRepeatable(t: Table, views: Views, o: Address, members: seq<Address>) returns (views': Views)
    requires Reconcilable(t, views, o, members) && Coherent(t) && !CleanHandover(t, views, o)
    ensures ValidViews(Update(t, views, o, members), views')
    ensures Update(Update(t, views, o, members), views', o, members) != Update(t, views, o, members)
  {
    var t', own := Update(t, views, o, members), OwnerKey(views, o);
    views' := AnyViews(t');
    if Update(t', views', o, members) == t' {
      UnchangedHasOwner(t, views, views', o, members);
      SessionOwnerStoredIff(t, views, o, members);
      UpdateRows(t, views, o, members, own);
      var k :| k in t' && k.role == Owner && k != own && t'[k].address.Some?;
      OtherReadingIsValid(t', views', k, t'[k].address.value);
      views' := views'[t'[k].address.value := ViewAt(t', k)];
      OtherOwnerIsDeletedNext(t, views, o, members, k, views');
    }
  }

  /** Main result on repetition, the committed rows being read afresh: repeating an update changes
      nothing, however they are read, exactly when there are no members, or the handover was clean and
      shared usernames do no harm. */
  lemma RepetitionIff(t: Table, views: Views, o: Address, members: seq<Address>)
    requires Reconcilable(t, views, o, members) && Coherent(t)
    ensures (forall views' | ValidViews(Committed(t, views, o, members), views') ::
               Committed(Committed(t, views, o, members), views', o, members) == Committed(t, views, o, members))
            <==> members == [] || (CleanHandover(t, views, o) && CollisionsHarmless(views, members))
  {
    var once := Committed(t, views, o, members);
    if members == [] || (CleanHandover(t, views, o) && CollisionsHarmless(views, members)) {
      forall views' | ValidViews(once, views') ensures Committed(once, views', o, members) == once {
        UpdateIsIdempotent(t, views, views', o, members);
      }
    } else {
      var views' := AnyViews(once);
      if CleanHandover(t, views, o) {
        HarmfulCollisionShows(t, views, views', o, members);
      } else {
        views' := UncleanIsNotRepeatable(t, views, o, members);
      }
      assert ValidViews(once, views') && Committed(once, views', o, members) != once;
    }
  }

  /** So the first reconciliation of an organization whose members are all unknown is repeatable,
      although only the last of them is stored. */
  lemma FirstReconciliationIsRepeatable(o: Address, members: seq<Address>, views': Views)
    requires NoDup(members) && o !in members && ValidViews(Committed(map[], map[], o, members), views')
    ensures Committed(Committed(map[], map[], o, members), views', o, members) == Committed(map[], map[], o, members)
  {
    RepetitionIff(map[], map[], o, members);
  }

  // ---------- repetition on the same session ----------

  // The owner as the session sees him again.
  lemma OwnerSeenInSession(t: Table, views: Views, views': Views, o: Address)
    requires Reconcilable(t, views, o, []) && Coherent(t) && CleanHandover(t, views, o)
    requires ValidViews(Update(t, views, o, []), views')
    ensures o in views' && OwnerKey(views', o) == OwnerKey(views, o)
    ensures RowOf(OwnerView(views', o)) == RowOf(OwnerView(views, o))
  {
    var t' := Update(t, views, o, []);
    UpdateRows(t, views, o, [], OwnerKey(views, o));
    assert t'[OwnerKey(views, o)].address == Some(o);
    var k := KeyOf(views'[o]);
    assert ReadFrom(t', views'[o], o);
    UpdateRows(t, views, o, [], k);
    if k != OwnerKey(views, o) {
      assert t[k].address == Some(o) && ReadFrom(t, views[o], o);
    }
  }

  /** Without members, after a clean handover, the session's rows stay as they are when the update is
      repeated on the same session. */
  lemma SessionIsIdempotent(t: Table, views: Views, views': Views, o: Address)
    requires Sane(t, views, o, []) && CleanHandover(t, views, o) && ValidViews(Update(t, views, o, []), views')
    ensures Update(Update(t, views, o, []), views', o, []) == Update(t, views, o, [])
  {
    var t' := Update(t, views, o, []);
    OwnerSeenInSession(t, views, views', o);
    SessionOwnerStoredIff(t, views, o, []);
    forall a | a in views' && views'[a].role == Owner ensures a == o {
      assert ReadFrom(t', views'[a], a);
    }
    var t'' := Update(t', views', o, []);
    forall k: Key ensures (k in t'' <==> k in t') && (k in t' ==> t''[k] == t'[k]) {
      UpdateRows(t', views', o, [], k);
      UpdateRows(t, views, o, [], k);
    }
  }

  // The deletions an update leaves pending when there is no member.
  function Pending(t: Table, views: Views, o: Address): set<Key> {
    DoomedKeys(Upsert(t, OwnerView(views, o)), views, o, views.Keys)
  }

  // Both readings give the owner the same row.
  predicate WrittenAlike(views: Views, views': Views, o: Address) {
    OwnerKey(views', o) == OwnerKey(views, o) && RowOf(OwnerView(views', o)) == RowOf(OwnerView(views, o))
  }

  lemma PendingIsElsewhere(t: Table, views: Views, o: Address, k: Key)
    requires ValidViews(t, views) && k in Pending(t, views, o)
    ensures k in t && t[k].address.Some? && t[k].address != Some(o) && SeenElsewhere(views, o, k)
    ensures CleanHandover(t, views, o) ==> k != OwnerKey(views, o)
  {
    var a :| a in views.Keys && a != o && KeyOf(views[a]) == k;
    assert ReadFrom(t, views[a], a);
    assert KeyOf(OwnerView(views, o)) == OwnerKey(views, o);
  }

  /** Main result on repetition without members, on the same session, which still sees the pending
      deletions: the owner's upsert commits them, so the database stays as it was exactly when none
      were pending, save for the owner's own row if it is written again as it was. */
  lemma SessionRepetitionIff(t: Table, views: Views, views': Views, o: Address)
    requires Sane(t, views, o, []) && ValidViews(Update(t, views, o, []), views')
    ensures Committed(Update(t, views, o, []), views', o, []) == Committed(t, views, o, []) <==>
            Pending(t, views, o) == {}
            || (Pending(t, views, o) == {OwnerKey(views, o)} && WrittenAlike(views, views', o))
    ensures CleanHandover(t, views, o) ==> OwnerKey(views, o) !in Pending(t, views, o)
  {
    var t1, pending := Upsert(t, OwnerView(views, o)), Pending(t, views, o);
    var again := Committed(Update(t, views, o, []), views', o, []);
    var own, own' := OwnerKey(views, o), OwnerKey(views', o);
    assert KeyOf(OwnerView(views, o)) == own && KeyOf(OwnerView(views', o)) == own';
    assert Update(t, views, o, []) == t1 - pending && again == (t1 - pending)[own' := RowOf(OwnerView(views', o))];
    forall k | k in pending ensures k in t1 && (CleanHandover(t, views, o) ==> k != own) {
      PendingIsElsewhere(t, views, o, k);
    }
    if pending == {} {
      assert t1 - pending == t1;
      OwnerSeenAgain(t, views, views', o, []);
      assert again == t1;
    }
    if pending == {own} && WrittenAlike(views, views', o) {
      assert again == t1;
    }
    if pending != {} && again == t1 {
      assert forall k | k in pending :: k == own';
      assert pending == {own'};
      PendingIsElsewhere(t, views, o, own');
      AddressOfOwner(Update(t, views, o, []), views', o);
      assert t1[own'].address == Some(o);
      assert own' == own;
    }
  }

  lemma AddressOfOwner(t: Table, views: Views, o: Address)
    requires ValidViews(t, views)
    ensures OwnerView(views, o).address == Some(o)
  {
  }

  // ---------- runs ----------

  /** One reconciliation of a run. `pendingKept` tells what became of its deletions if they were left
      pending: committed with a later event, or lost. */
  datatype Reconciliation = Reconciliation(views: Views, owner: Address, members: seq<Address>, pendingKept: bool)

  function After(t: Table, r: Reconciliation): Table {
    if r.pendingKept then Update(t, r.views, r.owner, r.members) else Committed(t, r.views, r.owner, r.members)
  }

  function AfterAll(t: Table, rs: seq<Reconciliation>): Table {
    if rs == [] then t else After(AfterAll(t, rs[..|rs| - 1]), rs[|rs| - 1])
  }

  // Each reconciliation reads the rows the one before left, and finds them clean.
  ghost predicate AllClean(t: Table, rs: seq<Reconciliation>) {
    rs == [] ||
    var before, r := AfterAll(t, rs[..|rs| - 1]), rs[|rs| - 1];
    && AllClean(t, rs[..|rs| - 1])
    && Reconcilable(before, r.views, r.owner, r.members)
    && (r.members != [] ==> CleanHandover(before, r.views, r.owner))
  }

  lemma DroppedStaysCoherent(t: Table, keys: set<Key>)
    requires Coherent(t)
    ensures Coherent(t - keys)
  {
  }

  /** So over any run of clean reconciliations, owners and members changing from one to the next, the
      table stays coherent and repetition stays without effect. */
  lemma {:induction false} CoherentOverRuns(t: Table, rs: seq<Reconciliation>)
    requires Coherent(t) && AllClean(t, rs)
    ensures Coherent(AfterAll(t, rs))
  {
    if rs != [] {
      var before, r := AfterAll(t, rs[..|rs| - 1]), rs[|rs| - 1];
      CoherentOverRuns(t, rs[..|rs| - 1]);
      CommittedStaysCoherent(before, r.views, r.owner, r.members);
      if r.members == [] {
        var t1 := Upsert(before, OwnerView(r.views, r.owner));
        DroppedStaysCoherent(t1, DoomedKeys(t1, r.views, r.owner, r.views.Keys));
      }
    }
  }

  // The same reconciliation again, once for each reading of the table.
  function Repeats(first: Reconciliation, readings: seq<Views>): (rs: seq<Reconciliation>)
    ensures |rs| == |readings|
  {
    if readings == [] then []
    else
      var n := |readings| - 1;
      Repeats(first, readings[..n]) + [first.(views := readings[n])]
  }

  /** Whatever has happened before, the last reconciliation of a run may be repeated any number of
      times, each time read afresh from what the one before left: it leaves what it left the first
      time, if shared usernames do no harm and its deletions, when they were pending and are kept, came
      of a clean handover. */
  lemma {:induction false} RepeatedOverRuns(t: Table, rs: seq<Reconciliation>, readings: seq<Views>)
    requires Coherent(t) && rs != [] && AllClean(t, rs)
    requires var before, last := AfterAll(t, rs[..|rs| - 1]), rs[|rs| - 1];
             && (last.members == [] && last.pendingKept ==> CleanHandover(before, last.views, last.owner))
             && CollisionsHarmless(last.views, last.members)
    requires forall i | 0 <= i < |readings| :: ValidViews(AfterAll(t, rs), readings[i])
    ensures AfterAll(AfterAll(t, rs), Repeats(rs[|rs| - 1], readings)) == AfterAll(t, rs)
  {
    if readings != [] {
      var before, last, n := AfterAll(t, rs[..|rs| - 1]), rs[|rs| - 1], |readings| - 1;
      CoherentOverRuns(t, rs[..|rs| - 1]);
      RepeatedOverRuns(t, rs, readings[..n]);
      assert Repeats(last, readings)[..n] == Repeats(last, readings[..n]);
      if last.members == [] && last.pendingKept {
        SessionIsIdempotent(before, last.views, readings[n], last.owner);
      } else {
        assert AfterAll(t, rs) == Committed(before, last.views, last.owner, last.members);
        UpdateIsIdempotent(before, last.views, readings[n], last.owner, last.members);
      }
    }
  }

  // ---------- what goes wrong otherwise ----------

  /** Two members unknown to the table: only the second one is stored. */
  lemma NewMembersCollide(o: Address, a: Address, b: Address)
    requires o != a && o != b && a != b
    ensures var t' := Committed(map[], map[], o, [a, b]);
            t'.Values == {Row(Published, Some(o), ""), Row(Published, Some(b), "")}
  {
    var t' := Update(map[], map[], o, [a, b]);
    var own, member := Key("", Owner), Key("", Member);
    assert [a, b][1..] == [b] && [b][1..] == [];
    var views: Views := map[];
    assert DoomedKeys(Upsert(map[], OwnerView(views, o)), views, o, views.Keys) == {};
    assert OwnerPhase(map[], views, o) == map[own := Row(Published, Some(o), "")];
    var t1 := map[own := Row(Published, Some(o), "")];
    var seen := map[o := OwnerView(views, o)];
    assert views[o := OwnerView(views, o)] == seen;
    var t2 := t1[member := Row(Published, Some(a), "")];
    assert MembersPhase(t1, seen, [a, b]) == MembersPhase(t2, seen, [b]);
    assert MembersPhase(t2, seen, [b]) == t1[member := Row(Published, Some(b), "")];
    assert t'.Keys == {own, member};
    assert t'[own] in t'.Values && t'[member] in t'.Values;
  }

  lemma OneOwnerRead(t: Table, own: Key, previous: Address)
    requires own in t && t[own].address == Some(previous)
    ensures CurrentMembers(t, [own]) == map[previous := ViewAt(t, own)]
  {
    assert [own][..0] == [];
    assert CurrentMembers(t, []) == map[];
  }

  /** One owner known only from the chain succeeds another, who leaves, and there is a member: the
      new owner's row is deleted in place of the old one's, and the member's upsert commits that. */
  lemma ChainOwnerHandoverLosesOwner(o: Address, previous: Address, m: Address)
    requires o != previous && m != o && m != previous
    ensures var t := map[Key("", Owner) := Row(Published, Some(previous), "")];
            Committed(t, CurrentMembers(t, [Key("", Owner)]), o, [m])
            == map[Key("", Member) := Row(Published, Some(m), "")]
  {
    var own := Key("", Owner);
    var t := map[own := Row(Published, Some(previous), "")];
    OneOwnerRead(t, own, previous);
    var views := CurrentMembers(t, [own]);
    var t1 := Upsert(t, OwnerView(views, o));
    assert t1 == map[own := Row(Published, Some(o), "")];
    assert previous in views.Keys && KeyOf(views[previous]) == own;
    assert own in DoomedKeys(t1, views, o, views.Keys);
    assert OwnerPhase(t, views, o) == t1 - DoomedKeys(t1, views, o, views.Keys) == map[];
    var seen := views[o := OwnerView(views, o)];
    assert [m][1..] == [] && m !in seen;
    assert MembersPhase(map[], seen, [m]) == MembersPhase(Upsert(map[], FromChain(m, Member)), seen, []);
    assert Upsert(map[], FromChain(m, Member)) == map[Key("", Member) := Row(Published, Some(m), "")];
  }

  /** A plain transfer to somebody new, without members: the handover is clean and the session sees
      one owner, but nothing commits the deletion, and the database keeps both. */
  lemma PlainTransferKeepsPreviousOwner(o: Address, previous: Address, username: string)
    requires o != previous && username != ""
    ensures var t := OwnerOnly(previous, username);
            var views := CurrentMembers(t, [Key(username, Owner)]);
            && ValidViews(t, views) && CleanHandover(t, views, o)
            && Update(t, views, o, []) == map[Key("", Owner) := Row(Published, Some(o), "")]
            && Committed(t, views, o, []) == t[Key("", Owner) := Row(Published, Some(o), "")]
  {
    var own, previousKey := Key("", Owner), Key(username, Owner);
    var t := OwnerOnly(previous, username);
    OneOwnerRead(t, previousKey, previous);
    var views := CurrentMembers(t, [previousKey]);
    var t1 := Upsert(t, OwnerView(views, o));
    assert t1 == t[own := Row(Published, Some(o), "")];
    assert previous in views.Keys && KeyOf(views[previous]) == previousKey;
    assert previousKey in DoomedKeys(t1, views, o, views.Keys);
    assert DoomedKeys(t1, views, o, views.Keys) == {previousKey};
    assert OwnerPhase(t, views, o) == t1 - {previousKey} == map[own := Row(Published, Some(o), "")];
  }

  /** Delivered again to the same process, the plain transfer changes the database after all: the
      second upsert commits the first delivery's deletion. */
  lemma PlainTransferRepeatedDropsPreviousOwner(o: Address, previous: Address, username: string, views': Views)
    requires o != previous && username != ""
    requires var t := OwnerOnly(previous, username);
             ValidViews(Update(t, CurrentMembers(t, [Key(username, Owner)]), o, []), views')
    ensures var t := OwnerOnly(previous, username);
            var views := CurrentMembers(t, [Key(username, Owner)]);
            && Committed(t, views, o, []) == t[Key("", Owner) := Row(Published, Some(o), "")]
            && Committed(Update(t, views, o, []), views', o, []) == map[Key("", Owner) := Row(Published, Some(o), "")]
  {
    PlainTransferKeepsPreviousOwner(o, previous, username);
    var t := OwnerOnly(previous, username);
    var views := CurrentMembers(t, [Key(username, Owner)]);
    OneOwnerRead(t, Key(username, Owner), previous);
    assert Sane(t, views, o, []);
    OwnerSeenInSession(t, views, views', o);
  }

  /** The owner lost in the handover between owners known only from the chain comes back with the next
      delivery: an unclean update is not repeatable. */
  lemma LostOwnerComesBack(o: Address, m: Address, views': Views)
    requires m != o && ValidViews(map[Key("", Member) := Row(Published, Some(m), "")], views')
    ensures var t := map[Key("", Member) := Row(Published, Some(m), "")];
            Committed(t, views', o, [m]) == t[Key("", Owner) := Row(Published, Some(o), "")]
  {
    var t, own := map[Key("", Member) := Row(Published, Some(m), "")], Key("", Owner);
    assert forall a | a in views' :: ReadFrom(t, views'[a], a);
    assert t[Key("", Member)].address.value in views';
    assert o !in views' && [m][1..] == [];
    forall k: Key
      ensures var t' := Committed(t, views', o, [m]);
              && (k in t' <==> k == own || k == Key("", Member))
              && (k == own ==> t'[k] == Row(Published, Some(o), ""))
              && (k == Key("", Member) ==> t'[k] == Row(Published, Some(m), ""))
    {
      UpdateRows(t, views', o, [m], k);
      LastNamedIsMember(views', [m], k.username);
    }
  }
}
