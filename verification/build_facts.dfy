/**
 * What a successful build stores: which keys, which entry under each key when
 * DNs collide, the key order searches follow, and what the default templates
 * render once every DN is known.
 */
module BuildFacts {
  import opened Results
  import opened Json
  import Mustache
  import opened Template
  import opened Defaults
  import opened Dn
  import opened Upstream
  import opened Database
  import opened Builder

  function UserDns(named: seq<Named>): seq<Dn>
  {
    seq(|named|, i requires 0 <= i < |named| => named[i].dn)
  }

  lemma KeysAppend(a: seq<Write>, b: seq<Write>)
    ensures Keys(a + b) == Keys(a) + Keys(b)
  {
  }

  /** The plan is made of the results of the build's steps. */
  lemma PlanParts(c: Config, dir: Directory)
    requires WellLinked(dir) && Planned(c, dir).Success?
    ensures var p := Planned(c, dir).value;
            && GroupDns(c, dir) == Success(p.gdns)
            && NameUsers(c, dir, p.gdns) == Success(p.named)
            && TemplateBase(Mustache.Source(c.userDn)) == Success(p.userBase)
            && TemplateBase(Mustache.Source(c.groupDn)) == Success(p.groupBase)
            && GroupAttributes(c, dir, p.gdns, p.named) == Success(p.groupAttrs)
            && UserAttributes(c, dir, p.gdns, p.named) == Success(p.userAttrs)
  {
    var gd := GroupDns(c, dir);
    assert gd.Success?;
    var nm := NameUsers(c, dir, gd.value);
    assert nm.Success?;
    var ub := TemplateBase(Mustache.Source(c.userDn));
    assert ub.Success?;
    var gb := TemplateBase(Mustache.Source(c.groupDn));
    assert gb.Success?;
    var ga := GroupAttributes(c, dir, gd.value, nm.value);
    assert ga.Success?;
    var ua := UserAttributes(c, dir, gd.value, nm.value);
    assert ua.Success?;
    assert Planned(c, dir) == Success(Plan(gd.value, nm.value, ub.value, gb.value, ga.value, ua.value));
  }

  /** Each DN and each attribute object in the plan is what its template rendered. */
  lemma PlanSteps(c: Config, dir: Directory)
    requires WellLinked(dir) && Planned(c, dir).Success?
    ensures var p := Planned(c, dir).value;
            && (forall j :: 0 <= j < |dir.groups| ==> GroupDn(c, dir, j) == Success(p.gdns[j]))
            && (forall i :: 0 <= i < |dir.users| ==> NameUser(c, dir, p.gdns, i) == Success(p.named[i]))
            && Parse(Mustache.Source(c.userDn)) == Some(p.userBase)
            && Parse(Mustache.Source(c.groupDn)) == Some(p.groupBase)
            && (forall j :: 0 <= j < |dir.groups| ==>
                  Interpolate(c.groupAttributes, GroupAttrView(dir, j, p.gdns, p.named)) == Success(p.groupAttrs[j]))
            && (forall i :: 0 <= i < |dir.users| ==>
                  Interpolate(c.userAttributes, UserAttrView(dir, i, p.gdns, p.named)) == Success(p.userAttrs[i]))
  {
    PlanParts(c, dir);
  }

  /** Where each part of the writes starts. */
  lemma WritesLayout(p: Plan, dir: Directory)
    requires PlanFits(p, dir)
    ensures var w := Writes(p, dir);
            var g0 := |ParentWrites(p.userBase)| + |ParentWrites(p.groupBase)|;
            var u0 := g0 + |dir.groups|;
            && |w| == u0 + |dir.users|
            && (forall t :: 0 <= t < g0 ==> w[t].entry == ContainerEntry)
            && (forall t :: g0 <= t < u0 ==>
                  w[t] == Write(p.gdns[t - g0], Entry(p.groupAttrs[t - g0], GroupKind(dir.groups[t - g0].group))))
            && (forall t :: u0 <= t < |w| ==>
                  w[t] == Write(p.named[t - u0].dn, Entry(p.userAttrs[t - u0], UserKind(dir.users[t - u0].user))))
            && Keys(w) == Keys(ParentWrites(p.userBase)) + Keys(ParentWrites(p.groupBase)) + p.gdns + UserDns(p.named)
            && (forall t :: g0 <= t < |w| ==> w[t].key in p.gdns || w[t].key in UserDns(p.named))
  {
    var w1 := ParentWrites(p.userBase);
    var w2 := ParentWrites(p.groupBase);
    ParentKeys(p.userBase);
    ParentKeys(p.groupBase);
    var w := Writes(p, dir);
    forall t | 0 <= t < |w1| + |w2| ensures w[t].entry == ContainerEntry {
      if t < |w1| { assert w[t] == w1[t]; } else { assert w[t] == w2[t - |w1|]; }
    }
    KeysAppend(w1, w2);
    KeysAppend(w1 + w2, GroupWrites(dir, p.gdns, p.groupAttrs));
    KeysAppend(w1 + w2 + GroupWrites(dir, p.gdns, p.groupAttrs), UserWrites(dir, p.named, p.userAttrs));
    assert Keys(GroupWrites(dir, p.gdns, p.groupAttrs)) == p.gdns;
    assert Keys(UserWrites(dir, p.named, p.userAttrs)) == UserDns(p.named);
    var g0 := |w1| + |w2|;
    var u0 := g0 + |dir.groups|;
    forall t | g0 <= t < |w| ensures w[t].key in p.gdns || w[t].key in UserDns(p.named) {
      if t < u0 {
        assert w[t].key == p.gdns[t - g0];
      } else {
        assert w[t].key == UserDns(p.named)[t - u0];
      }
    }
  }

  /** The snapshot a plan's writes produce. */
  function Stored(p: Plan, dir: Directory): (db: Db)
    requires PlanFits(p, dir)
    ensures Database.Valid(db)
  {
    PutAll(Empty, Writes(p, dir))
  }

  lemma StoredKeys(p: Plan, dir: Directory)
    requires PlanFits(p, dir)
    ensures var db := Stored(p, dir);
            && (forall k :: k in db.entries <==>
                  || k in NonRootAncestors(p.userBase) || k in NonRootAncestors(p.groupBase)
                  || k in p.gdns || k in UserDns(p.named))
            && db.order == Fresh([], Keys(ParentWrites(p.userBase)) + Keys(ParentWrites(p.groupBase)) + p.gdns + UserDns(p.named))
  {
    WritesLayout(p, dir);
    ParentKeys(p.userBase);
    ParentKeys(p.groupBase);
    PutAllKeys(Empty, Writes(p, dir));
    PutAllOrder(Empty, Writes(p, dir));
  }

  lemma StoredUser(p: Plan, dir: Directory, i: nat)
    requires PlanFits(p, dir) && i < |dir.users|
    requires forall m :: i < m < |dir.users| ==> p.named[m].dn != p.named[i].dn
    ensures p.named[i].dn in Stored(p, dir).entries
    ensures Stored(p, dir).entries[p.named[i].dn] == Entry(p.userAttrs[i], UserKind(dir.users[i].user))
  {
    WritesLayout(p, dir);
    var w := Writes(p, dir);
    var u0 := |ParentWrites(p.userBase)| + |ParentWrites(p.groupBase)| + |dir.groups|;
    assert w[u0 + i] == Write(p.named[i].dn, Entry(p.userAttrs[i], UserKind(dir.users[i].user)));
    assert LastWrite(w, u0 + i) by {
      forall t | u0 + i < t < |w| ensures w[t].key != w[u0 + i].key {
        assert w[t].key == p.named[t - u0].dn;
      }
    }
    PutAllLast(Empty, w, u0 + i);
  }

  lemma StoredGroup(p: Plan, dir: Directory, j: nat)
    requires PlanFits(p, dir) && j < |dir.groups|
    requires forall m :: j < m < |dir.groups| ==> p.gdns[m] != p.gdns[j]
    requires p.gdns[j] !in UserDns(p.named)
    ensures p.gdns[j] in Stored(p, dir).entries
    ensures Stored(p, dir).entries[p.gdns[j]] == Entry(p.groupAttrs[j], GroupKind(dir.groups[j].group))
  {
    WritesLayout(p, dir);
    var w := Writes(p, dir);
    var g0 := |ParentWrites(p.userBase)| + |ParentWrites(p.groupBase)|;
    var u0 := g0 + |dir.groups|;
    assert w[g0 + j] == Write(p.gdns[j], Entry(p.groupAttrs[j], GroupKind(dir.groups[j].group)));
    assert LastWrite(w, g0 + j) by {
      forall t | g0 + j < t < |w| ensures w[t].key != w[g0 + j].key {
        if t < u0 {
          assert w[t].key == p.gdns[t - g0];
        } else {
          assert w[t].key == UserDns(p.named)[t - u0];
        }
      }
    }
    PutAllLast(Empty, w, g0 + j);
  }

  lemma StoredContainer(p: Plan, dir: Directory, k: Dn)
    requires PlanFits(p, dir)
    requires k in NonRootAncestors(p.userBase) || k in NonRootAncestors(p.groupBase)
    requires k !in p.gdns && k !in UserDns(p.named)
    ensures k in Stored(p, dir).entries && Stored(p, dir).entries[k] == ContainerEntry
  {
    WritesLayout(p, dir);
    ParentKeys(p.userBase);
    ParentKeys(p.groupBase);
    var w := Writes(p, dir);
    forall t | 0 <= t < |w| && w[t].key == k ensures w[t].entry == ContainerEntry {
    }
    PutAllUniform(Empty, w, k, ContainerEntry);
  }

  /**
   * The snapshot's keys are the non-root ancestors of the two DN templates, the
   * group DNs and the user DNs, and nothing else; they are listed in the order
   * they were first written. Under each key is the last user with that DN; if
   * there is none, the last group with it; otherwise an empty container.
   */
  lemma StoredContents(p: Plan, dir: Directory)
    requires PlanFits(p, dir)
    ensures var db := Stored(p, dir);
            && (forall k :: k in db.entries <==>
                  || k in NonRootAncestors(p.userBase) || k in NonRootAncestors(p.groupBase)
                  || k in p.gdns || k in UserDns(p.named))
            && db.order == Fresh([], Keys(ParentWrites(p.userBase)) + Keys(ParentWrites(p.groupBase)) + p.gdns + UserDns(p.named))
            && (forall i :: 0 <= i < |dir.users| && (forall m :: i < m < |dir.users| ==> p.named[m].dn != p.named[i].dn) ==>
                  db.entries[UserDns(p.named)[i]] == Entry(p.userAttrs[i], UserKind(dir.users[i].user)))
            && (forall j :: 0 <= j < |dir.groups| && (forall m :: j < m < |dir.groups| ==> p.gdns[m] != p.gdns[j])
                            && p.gdns[j] !in UserDns(p.named) ==>
                  db.entries[p.gdns[j]] == Entry(p.groupAttrs[j], GroupKind(dir.groups[j].group)))
            && (forall k :: k in db.entries && k !in p.gdns && k !in UserDns(p.named) ==> db.entries[k] == ContainerEntry)
  {
    StoredKeys(p, dir);
    forall i | 0 <= i < |dir.users| && (forall m :: i < m < |dir.users| ==> p.named[m].dn != p.named[i].dn)
      ensures Stored(p, dir).entries[UserDns(p.named)[i]] == Entry(p.userAttrs[i], UserKind(dir.users[i].user))
    {
      StoredUser(p, dir, i);
    }
    forall j | 0 <= j < |dir.groups| && (forall m :: j < m < |dir.groups| ==> p.gdns[m] != p.gdns[j]) && p.gdns[j] !in UserDns(p.named)
      ensures Stored(p, dir).entries[p.gdns[j]] == Entry(p.groupAttrs[j], GroupKind(dir.groups[j].group))
    {
      StoredGroup(p, dir, j);
    }
    forall k | k in Stored(p, dir).entries && k !in p.gdns && k !in UserDns(p.named)
      ensures Stored(p, dir).entries[k] == ContainerEntry
    {
      StoredContainer(p, dir, k);
    }
  }

  /** The build fails exactly as its plan does and otherwise publishes the plan's snapshot. */
  lemma BuildStores(c: Config, dir: Directory)
    requires WellLinked(dir)
    ensures Planned(c, dir).Success? ==> BuildDatabase(c, dir) == Success(Stored(Planned(c, dir).value, dir))
    ensures Planned(c, dir).Failure? ==> BuildDatabase(c, dir) == Failure(Planned(c, dir).error)
  {
    BuildIsPlan(c, dir);
  }
}
