/**
 * The linking step of `buildOktaDirectory` (okta.js): users are indexed by id,
 * each group's member ids are replaced by the users they name (unknown ids are
 * dropped), and every resolved member has the group pushed onto its `groups`.
 */
module Linking {
  import opened Results
  import opened Upstream

  /** `usersById`: for an id held by several users the last one wins. */
  function IndexById(users: seq<User>): (m: map<string, nat>)
    ensures forall id :: id in m <==> exists i :: 0 <= i < |users| && users[i].id == id
    ensures forall id :: id in m ==>
              && m[id] < |users|
              && users[m[id]].id == id
              && forall k :: m[id] < k < |users| ==> users[k].id != id
    ensures forall v :: v in m.Values ==> v < |users|
  {
    if |users| == 0 then map[]
    else
      var last := |users| - 1;
      var m := IndexById(users[..last]);
      assert forall i :: 0 <= i < last ==> users[..last][i] == users[i];
      m[users[last].id := last]
  }

  /** The index `i` is what its own id resolves to: no later user shares the id. */
  predicate Visible(users: seq<User>, i: nat)
    requires i < |users|
  {
    forall k :: i < k < |users| ==> users[k].id != users[i].id
  }

  lemma IndexByIdVisible(users: seq<User>, i: nat)
    requires i < |users|
    ensures var m := IndexById(users);
            users[i].id in m && (m[users[i].id] == i <==> Visible(users, i))
  {
    var m := IndexById(users);
    assert users[i].id in m;
  }

  /** `if (userId in usersById) members.push(u)`, in listing order. */
  function Resolve(ids: seq<string>, byId: map<string, nat>): (r: seq<nat>)
    ensures |r| <= |ids|
    ensures (forall k :: 0 <= k < |ids| ==> ids[k] in byId) ==> |r| == |ids|
    ensures forall x :: x in r <==> exists k :: 0 <= k < |ids| && ids[k] in byId && byId[ids[k]] == x
    ensures forall v :: v in r ==> v in byId.Values
  {
    if |ids| == 0 then []
    else
      var rest := Resolve(ids[1..], byId);
      assert forall k :: 1 <= k < |ids| ==> ids[1..][k - 1] == ids[k];
      if ids[0] in byId then [byId[ids[0]]] + rest else rest
  }

  /** Resolution keeps the listing order: concatenated listings resolve to concatenated members. */
  lemma {:induction false} ResolveAppend(a: seq<string>, b: seq<string>, byId: map<string, nat>)
    ensures Resolve(a + b, byId) == Resolve(a, byId) + Resolve(b, byId)
  {
    if |a| > 0 {
      assert (a + b)[1..] == a[1..] + b;
      ResolveAppend(a[1..], b, byId);
    } else {
      assert a + b == b;
    }
  }

  /** `u.groups.push(g)` for each resolved member, in order, with `g` at index `j`. */
  function PushAll(acc: seq<seq<nat>>, j: nat, members: seq<nat>): (r: seq<seq<nat>>)
    requires forall k :: 0 <= k < |members| ==> members[k] < |acc|
    ensures |r| == |acc|
    decreases |members|
  {
    if |members| == 0 then acc
    else PushAll(acc[members[0] := acc[members[0]] + [j]], j, members[1..])
  }

  predicate Bounded(members: seq<seq<nat>>, n: nat)
  {
    forall j, k :: 0 <= j < |members| && 0 <= k < |members[j]| ==> members[j][k] < n
  }

  /** The groups visited in order, each pushing itself onto its members' lists. */
  function Memberships(n: nat, members: seq<seq<nat>>): (r: seq<seq<nat>>)
    requires Bounded(members, n)
    ensures |r| == n
  {
    if |members| == 0 then seq(n, _ => [])
    else
      var last := |members| - 1;
      assert forall j :: 0 <= j < last ==> members[..last][j] == members[j];
      PushAll(Memberships(n, members[..last]), last, members[last])
  }

  function Repeat(j: nat, c: nat): (r: seq<nat>)
    ensures |r| == c && forall k :: 0 <= k < c ==> r[k] == j
  {
    seq(c, _ => j)
  }

  /**
   * Reference: the groups of user `i` are the group indices in ascending order,
   * each as many times as the group lists the user.
   */
  function GroupsOf(members: seq<seq<nat>>, i: nat): seq<nat>
  {
    if |members| == 0 then []
    else
      var last := |members| - 1;
      GroupsOf(members[..last], i) + Repeat(last, multiset(members[last])[i])
  }

  lemma {:induction false} PushAllSpec(acc: seq<seq<nat>>, j: nat, members: seq<nat>, i: nat)
    requires forall k :: 0 <= k < |members| ==> members[k] < |acc|
    requires i < |acc|
    ensures PushAll(acc, j, members)[i] == acc[i] + Repeat(j, multiset(members)[i])
    decreases |members|
  {
    if |members| == 0 {
      assert acc[i] + Repeat(j, 0) == acc[i];
    } else {
      var acc' := acc[members[0] := acc[members[0]] + [j]];
      PushAllSpec(acc', j, members[1..], i);
      assert members == [members[0]] + members[1..];
      assert multiset(members) == multiset{members[0]} + multiset(members[1..]);
      var c := multiset(members[1..])[i];
      if members[0] == i {
        assert Repeat(j, c + 1) == [j] + Repeat(j, c);
      }
    }
  }

  lemma {:induction false} MembershipsSpec(n: nat, members: seq<seq<nat>>, i: nat)
    requires Bounded(members, n)
    requires i < n
    ensures Memberships(n, members)[i] == GroupsOf(members, i)
  {
    if |members| > 0 {
      var last := |members| - 1;
      assert forall j :: 0 <= j < last ==> members[..last][j] == members[j];
      MembershipsSpec(n, members[..last], i);
      PushAllSpec(Memberships(n, members[..last]), last, members[last], i);
    }
  }

  /** Group `j` is among user `i`'s groups exactly when `i` is among group `j`'s members. */
  lemma {:induction false} GroupsOfMember(members: seq<seq<nat>>, i: nat, j: nat)
    ensures j in GroupsOf(members, i) <==> j < |members| && i in members[j]
  {
    if |members| > 0 {
      var last := |members| - 1;
      assert forall k :: 0 <= k < last ==> members[..last][k] == members[k];
      GroupsOfMember(members[..last], i, j);
      var c := multiset(members[last])[i];
      if c > 0 {
        assert Repeat(last, c)[0] == last;
      }
    }
  }

  /** The pushes happen group by group, so every user's groups are in directory order. */
  lemma {:induction false} GroupsOfSorted(members: seq<seq<nat>>, i: nat)
    ensures forall a, b :: 0 <= a < b < |GroupsOf(members, i)| ==> GroupsOf(members, i)[a] <= GroupsOf(members, i)[b]
    ensures forall a :: 0 <= a < |GroupsOf(members, i)| ==> GroupsOf(members, i)[a] < |members|
  {
    if |members| > 0 {
      var last := |members| - 1;
      GroupsOfSorted(members[..last], i);
      var front := GroupsOf(members[..last], i);
      var g := GroupsOf(members, i);
      var c := multiset(members[last])[i];
      assert g == front + Repeat(last, c);
      forall a, b | 0 <= a < b < |g| ensures g[a] <= g[b] {
        if b >= |front| {
          assert g[b] == last;
          if a < |front| { assert g[a] == front[a]; }
        } else {
          assert g[a] == front[a] && g[b] == front[b];
        }
      }
    }
  }

  /** `u.groups` starts out undefined and is created by the first push. */
  function GroupList(pushed: seq<nat>): Option<seq<nat>>
  {
    if |pushed| == 0 then None else Some(pushed)
  }

  /** Every group's resolved members, as indices into the users. */
  function ResolvedMembers(users: seq<User>, lists: seq<MemberList>): (members: seq<seq<nat>>)
    ensures |members| == |lists| && Bounded(members, |users|)
    ensures forall j :: 0 <= j < |lists| ==> members[j] == Resolve(lists[j].memberIds, IndexById(users))
  {
    var byId := IndexById(users);
    var members := seq(|lists|, j requires 0 <= j < |lists| => Resolve(lists[j].memberIds, byId));
    forall j, k | 0 <= j < |members| && 0 <= k < |members[j]| ensures members[j][k] < |users| {
      assert members[j][k] in members[j];
    }
    members
  }

  /** The directory after linking the member lists with the user records. */
  function Link(users: seq<User>, lists: seq<MemberList>): (d: Directory)
    ensures WellLinked(d)
    ensures |d.users| == |users| && |d.groups| == |lists|
    ensures forall i :: 0 <= i < |users| ==> d.users[i].user == users[i]
    ensures forall j :: 0 <= j < |lists| ==> d.groups[j].group == lists[j].group
  {
    var members := ResolvedMembers(users, lists);
    var ms := Memberships(|users|, members);
    var d := Directory(
      seq(|users|, i requires 0 <= i < |users| => LinkedUser(users[i], GroupList(ms[i]))),
      seq(|lists|, j requires 0 <= j < |lists| => LinkedGroup(lists[j].group, members[j])));
    forall i, k | 0 <= i < |users| && d.users[i].groups.Some? && 0 <= k < |d.users[i].groups.value|
      ensures d.users[i].groups.value[k] < |lists|
    {
      MembershipsSpec(|users|, members, i);
      GroupsOfSorted(members, i);
    }
    d
  }

  /**
   * Both directions of the link: user `i` lists group `j` exactly when group `j`
   * lists user `i`, which happens exactly when the group's member ids contain
   * the user's id and no later user record shares that id.
   */
  lemma LinkBidirectional(users: seq<User>, lists: seq<MemberList>, i: nat, j: nat)
    requires i < |users| && j < |lists|
    ensures var d := Link(users, lists);
            && (d.users[i].groups.Some? && j in d.users[i].groups.value <==> i in d.groups[j].members)
            && (i in d.groups[j].members <==> users[i].id in lists[j].memberIds && Visible(users, i))
  {
    var byId := IndexById(users);
    var members := ResolvedMembers(users, lists);
    MembershipsSpec(|users|, members, i);
    GroupsOfMember(members, i, j);
    IndexByIdVisible(users, i);
    var ids := lists[j].memberIds;
    if i in members[j] {
      var k :| 0 <= k < |ids| && ids[k] in byId && byId[ids[k]] == i;
      assert users[i].id == ids[k];
    }
    if users[i].id in ids && Visible(users, i) {
      var k :| 0 <= k < |ids| && ids[k] == users[i].id;
      assert byId[ids[k]] == i;
    }
  }

  /** A user's groups are in directory order, and are absent exactly when no group lists the user. */
  lemma LinkUserGroups(users: seq<User>, lists: seq<MemberList>, i: nat)
    requires i < |users|
    ensures var d := Link(users, lists);
            && (d.users[i].groups.None? <==> forall j :: 0 <= j < |lists| ==> i !in d.groups[j].members)
            && (d.users[i].groups.Some? ==>
                  forall a, b :: 0 <= a < b < |d.users[i].groups.value| ==>
                    d.users[i].groups.value[a] <= d.users[i].groups.value[b])
  {
    var d := Link(users, lists);
    var byId := IndexById(users);
    var members := ResolvedMembers(users, lists);
    MembershipsSpec(|users|, members, i);
    GroupsOfSorted(members, i);
    var g := GroupsOf(members, i);
    if d.users[i].groups.Some? {
      assert g[0] in g;
      GroupsOfMember(members, i, g[0]);
    } else {
      forall j | 0 <= j < |lists| ensures i !in d.groups[j].members {
        GroupsOfMember(members, i, j);
      }
    }
  }

  /** A group's members follow its listing order, one per listed id that names a user. */
  lemma LinkGroupMembers(users: seq<User>, lists: seq<MemberList>, j: nat)
    requires j < |lists|
    ensures var d := Link(users, lists);
            && d.groups[j].members == Resolve(lists[j].memberIds, IndexById(users))
            && ((forall k :: 0 <= k < |lists[j].memberIds| ==>
                   exists i :: 0 <= i < |users| && users[i].id == lists[j].memberIds[k])
                ==> |d.groups[j].members| == |lists[j].memberIds|)
  {
  }
}
