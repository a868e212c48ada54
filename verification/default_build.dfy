/**
 * What the default templates of defaults.js render inside a build. Every DN is
 * assigned before any attribute is rendered, so `memberOf` and `member` hold
 * the final DNs of the linked groups and users, and `uid` is the email's mailbox.
 */
module DefaultBuild {
  import opened Results
  import opened Json
  import Mustache
  import opened Template
  import opened Defaults
  import opened Dn
  import opened Upstream
  import opened Builder
  import opened BuildFacts

  /** The DNs of user `i`'s groups, in linking order. */
  function GroupDnItems(dir: Directory, i: nat, gdns: seq<Dn>): seq<Rendered>
    requires WellLinked(dir) && i < |dir.users| && |gdns| == |dir.groups|
  {
    match dir.users[i].groups
    case None => []
    case Some(gs) => seq(|gs|, k requires 0 <= k < |gs| => RString(Format(gdns[gs[k]])))
  }

  /** The DNs of group `j`'s members, in listing order. */
  function MemberDnItems(dir: Directory, j: nat, named: seq<Named>): seq<Rendered>
    requires WellLinked(dir) && j < |dir.groups| && |named| == |dir.users|
  {
    var ms := dir.groups[j].members;
    seq(|ms|, k requires 0 <= k < |ms| => RString(Format(named[ms[k]].dn)))
  }

  lemma FindAfter(front: seq<Prop>, key: string, v: Value, back: seq<Prop>)
    requires forall t :: 0 <= t < |front| ==> front[t].key != key
    ensures Find(front + [Prop(key, v)] + back, key) == Some(v)
  {
    var props := front + [Prop(key, v)] + back;
    assert props[|front|] == Prop(key, v);
    assert forall t :: 0 <= t < |front| ==> props[t] == front[t];
    var r := Find(props, key);
    assert r.Some?;
    var i :| 0 <= i < |props| && props[i] == Prop(key, r.value) && forall j :: 0 <= j < i ==> props[j].key != key;
    assert i == |front|;
  }

  lemma ShownText(s: string)
    ensures Shown(Some(Str(s))) == s
  {
  }

  lemma UserViewShortName(dir: Directory, i: nat, gdns: seq<Dn>, named: seq<Named>)
    requires WellLinked(dir) && i < |dir.users| && |gdns| == |dir.groups| && |named| == |dir.users|
    ensures Get(UserAttrView(dir, i, gdns, named), "shortName") == Some(Str(named[i].shortName))
  {
    var gp := GroupsProp(dir, i, gdns);
    var front := UserProps(dir.users[i].user) + gp;
    assert forall t :: 0 <= t < |gp| ==> gp[t].key == "groups";
    assert forall t :: 0 <= t < |front| ==> front[t].key != "shortName";
    var dn := Prop("dn", Str(Format(named[i].dn)));
    assert UserAttrView(dir, i, gdns, named).props == front + [Prop("shortName", Str(named[i].shortName))] + [dn];
    FindAfter(front, "shortName", Str(named[i].shortName), [dn]);
  }

  /** The elements of a user's `groups`: each group's record with its DN. */
  function GroupElements(dir: Directory, gs: seq<nat>, gdns: seq<Dn>): seq<Value>
    requires |gdns| == |dir.groups| && forall k :: 0 <= k < |gs| ==> gs[k] < |dir.groups|
  {
    seq(|gs|, k requires 0 <= k < |gs| => Obj(GroupProps(dir.groups[gs[k]].group) + [Prop("dn", Str(Format(gdns[gs[k]])))]))
  }

  lemma UserViewGroups(dir: Directory, i: nat, gdns: seq<Dn>, named: seq<Named>)
    requires WellLinked(dir) && i < |dir.users| && |gdns| == |dir.groups| && |named| == |dir.users|
    ensures var view := UserAttrView(dir, i, gdns, named);
            && ListElements("groups", view)
               == Success(if dir.users[i].groups.None? then [] else GroupElements(dir, dir.users[i].groups.value, gdns))
  {
    var u := dir.users[i].user;
    var back := [Prop("shortName", Str(named[i].shortName)), Prop("dn", Str(Format(named[i].dn)))];
    var view := UserAttrView(dir, i, gdns, named);
    if dir.users[i].groups.None? {
      assert view.props == UserProps(u) + back;
      assert forall t :: 0 <= t < |view.props| ==> view.props[t].key != "groups";
    } else {
      var elements := GroupElements(dir, dir.users[i].groups.value, gdns);
      assert view.props == UserProps(u) + [Prop("groups", Arr(elements))] + back;
      FindAfter(UserProps(u), "groups", Arr(elements), back);
    }
  }

  lemma GroupElementDns(dir: Directory, gs: seq<nat>, gdns: seq<Dn>)
    requires |gdns| == |dir.groups| && forall k :: 0 <= k < |gs| ==> gs[k] < |dir.groups|
    ensures DnItems(GroupElements(dir, gs, gdns)) == seq(|gs|, k requires 0 <= k < |gs| => RString(Format(gdns[gs[k]])))
  {
    var elements := GroupElements(dir, gs, gdns);
    forall k | 0 <= k < |gs| ensures DnItems(elements)[k] == RString(Format(gdns[gs[k]])) {
      var g := GroupProps(dir.groups[gs[k]].group);
      var d := Str(Format(gdns[gs[k]]));
      assert elements[k].props == g + [Prop("dn", d)] + [];
      FindAfter(g, "dn", d, []);
    }
  }

  /** In the user's attribute view `shortName` is the user's, and `groups` lists its groups with their DNs. */
  lemma UserViewLookups(dir: Directory, i: nat, gdns: seq<Dn>, named: seq<Named>)
    requires WellLinked(dir) && i < |dir.users| && |gdns| == |dir.groups| && |named| == |dir.users|
    ensures var view := UserAttrView(dir, i, gdns, named);
            && Get(view, "shortName") == Some(Str(named[i].shortName))
            && ListElements("groups", view).Success?
            && DnItems(ListElements("groups", view).value) == GroupDnItems(dir, i, gdns)
  {
    UserViewShortName(dir, i, gdns, named);
    UserViewGroups(dir, i, gdns, named);
    if dir.users[i].groups.Some? {
      GroupElementDns(dir, dir.users[i].groups.value, gdns);
    }
  }

  /** The elements of a group's `members`: each member's record with its `shortName` and DN. */
  function MemberElements(dir: Directory, ms: seq<nat>, named: seq<Named>): seq<Value>
    requires |named| == |dir.users| && forall k :: 0 <= k < |ms| ==> ms[k] < |dir.users|
  {
    seq(|ms|, k requires 0 <= k < |ms| =>
      Obj(UserProps(dir.users[ms[k]].user)
          + [Prop("shortName", Str(named[ms[k]].shortName)), Prop("dn", Str(Format(named[ms[k]].dn)))]))
  }

  lemma GroupViewMembers(dir: Directory, j: nat, gdns: seq<Dn>, named: seq<Named>)
    requires WellLinked(dir) && j < |dir.groups| && |gdns| == |dir.groups| && |named| == |dir.users|
    ensures ListElements("members", GroupAttrView(dir, j, gdns, named))
         == Success(MemberElements(dir, dir.groups[j].members, named))
  {
    var elements := MemberElements(dir, dir.groups[j].members, named);
    var view := GroupAttrView(dir, j, gdns, named);
    var gprops := GroupProps(dir.groups[j].group);
    assert view.props == gprops + [Prop("members", Arr(elements))] + [Prop("dn", Str(Format(gdns[j])))];
    FindAfter(gprops, "members", Arr(elements), [Prop("dn", Str(Format(gdns[j])))]);
  }

  lemma MemberElementDns(dir: Directory, ms: seq<nat>, named: seq<Named>)
    requires |named| == |dir.users| && forall k :: 0 <= k < |ms| ==> ms[k] < |dir.users|
    ensures DnItems(MemberElements(dir, ms, named)) == seq(|ms|, k requires 0 <= k < |ms| => RString(Format(named[ms[k]].dn)))
  {
    var elements := MemberElements(dir, ms, named);
    forall k | 0 <= k < |ms| ensures DnItems(elements)[k] == RString(Format(named[ms[k]].dn)) {
      var front := UserProps(dir.users[ms[k]].user) + [Prop("shortName", Str(named[ms[k]].shortName))];
      var d := Str(Format(named[ms[k]].dn));
      assert elements[k].props == front + [Prop("dn", d)] + [];
      FindAfter(front, "dn", d, []);
    }
  }

  /** In the group's attribute view `members` lists its members with their DNs. */
  lemma GroupViewLookups(dir: Directory, j: nat, gdns: seq<Dn>, named: seq<Named>)
    requires WellLinked(dir) && j < |dir.groups| && |gdns| == |dir.groups| && |named| == |dir.users|
    ensures var view := GroupAttrView(dir, j, gdns, named);
            && ListElements("members", view).Success?
            && DnItems(ListElements("members", view).value) == MemberDnItems(dir, j, named)
  {
    GroupViewMembers(dir, j, gdns, named);
    MemberElementDns(dir, dir.groups[j].members, named);
  }

  /**
   * With the default user template a user's `uid` is its `shortName` and its
   * `memberOf` lists the final DN of each of its groups, in order.
   */
  lemma UserDefaults(dir: Directory, i: nat, gdns: seq<Dn>, named: seq<Named>)
    requires WellLinked(dir) && i < |dir.users| && |gdns| == |dir.groups| && |named| == |dir.users|
    ensures var r := Interpolate(DefaultUserTemplate, UserAttrView(dir, i, gdns, named));
            && r.Success?
            && AttrOf(r.value, "uid") == Some(RString(named[i].shortName))
            && AttrOf(r.value, "memberOf") == Some(RArray(GroupDnItems(dir, i, gdns)))
  {
    var view := UserAttrView(dir, i, gdns, named);
    UserViewLookups(dir, i, gdns, named);
    DefaultUserAttributes(view);
    ShownText(named[i].shortName);
    var r := Interpolate(DefaultUserTemplate, view).value;
    assert AttrOf(r, "uid") == Some(RString(Shown(Get(view, "shortName"))));
  }

  /** With the default group template a group's `member` lists the final DN of each member, in order. */
  lemma GroupDefaults(dir: Directory, j: nat, gdns: seq<Dn>, named: seq<Named>)
    requires WellLinked(dir) && j < |dir.groups| && |gdns| == |dir.groups| && |named| == |dir.users|
    ensures var r := Interpolate(DefaultGroupTemplate, GroupAttrView(dir, j, gdns, named));
            && r.Success?
            && AttrOf(r.value, "objectClass") == Some(RString("groupOfNames"))
            && AttrOf(r.value, "member") == Some(RArray(MemberDnItems(dir, j, named)))
  {
    GroupViewLookups(dir, j, gdns, named);
    DefaultGroupAttributes(GroupAttrView(dir, j, gdns, named));
  }
  /**
   * A build with the default templates: each user's `uid` is its short name,
   * the mailbox part of its email, `memberOf` lists the final DNs of its
   * groups, and each group's `member` lists the final DNs of its members.
   */
  lemma DefaultBuildAttributes(c: Config, dir: Directory)
    requires WellLinked(dir) && Planned(c, dir).Success?
    requires c.userAttributes == DefaultUserTemplate && c.groupAttributes == DefaultGroupTemplate
    ensures var p := Planned(c, dir).value;
            && (forall i :: 0 <= i < |dir.users| ==>
                  && ShortName(dir.users[i].user) == Success(p.named[i].shortName)
                  && AttrOf(p.userAttrs[i], "uid") == Some(RString(p.named[i].shortName))
                  && AttrOf(p.userAttrs[i], "memberOf") == Some(RArray(GroupDnItems(dir, i, p.gdns))))
            && (forall j :: 0 <= j < |dir.groups| ==>
                  AttrOf(p.groupAttrs[j], "member") == Some(RArray(MemberDnItems(dir, j, p.named))))
  {
    var p := Planned(c, dir).value;
    forall i | 0 <= i < |dir.users|
      ensures ShortName(dir.users[i].user) == Success(p.named[i].shortName)
      ensures AttrOf(p.userAttrs[i], "uid") == Some(RString(p.named[i].shortName))
      ensures AttrOf(p.userAttrs[i], "memberOf") == Some(RArray(GroupDnItems(dir, i, p.gdns)))
    {
      PlannedUser(c, dir, i);
    }
    forall j | 0 <= j < |dir.groups|
      ensures AttrOf(p.groupAttrs[j], "member") == Some(RArray(MemberDnItems(dir, j, p.named)))
    {
      PlannedGroup(c, dir, j);
    }
  }

  /** One user of a build with the default user template. */
  lemma PlannedUser(c: Config, dir: Directory, i: nat)
    requires WellLinked(dir) && Planned(c, dir).Success? && i < |dir.users|
    requires c.userAttributes == DefaultUserTemplate
    ensures var p := Planned(c, dir).value;
            && ShortName(dir.users[i].user) == Success(p.named[i].shortName)
            && AttrOf(p.userAttrs[i], "uid") == Some(RString(p.named[i].shortName))
            && AttrOf(p.userAttrs[i], "memberOf") == Some(RArray(GroupDnItems(dir, i, p.gdns)))
  {
    var p := Planned(c, dir).value;
    PlanParts(c, dir);
    assert NameUser(c, dir, p.gdns, i) == Success(p.named[i]);
    assert Interpolate(c.userAttributes, UserAttrView(dir, i, p.gdns, p.named)) == Success(p.userAttrs[i]);
    UserDefaults(dir, i, p.gdns, p.named);
  }

  /** One group of a build with the default group template. */
  lemma PlannedGroup(c: Config, dir: Directory, j: nat)
    requires WellLinked(dir) && Planned(c, dir).Success? && j < |dir.groups|
    requires c.groupAttributes == DefaultGroupTemplate
    ensures var p := Planned(c, dir).value;
            AttrOf(p.groupAttrs[j], "member") == Some(RArray(MemberDnItems(dir, j, p.named)))
  {
    var p := Planned(c, dir).value;
    PlanParts(c, dir);
    assert Interpolate(c.groupAttributes, GroupAttrView(dir, j, p.gdns, p.named)) == Success(p.groupAttrs[j]);
    GroupDefaults(dir, j, p.gdns, p.named);
  }

  /**
   * With the default templates no attribute rendering fails: a build succeeds
   * exactly when every DN can be assigned and both DN templates have a parent.
   */
  lemma DefaultsRenderAlways(c: Config, dir: Directory)
    requires WellLinked(dir)
    requires c.userAttributes == DefaultUserTemplate && c.groupAttributes == DefaultGroupTemplate
    ensures Planned(c, dir).Success? <==>
              && GroupDns(c, dir).Success?
              && NameUsers(c, dir, GroupDns(c, dir).value).Success?
              && TemplateBase(Mustache.Source(c.userDn)).Success?
              && TemplateBase(Mustache.Source(c.groupDn)).Success?
  {
    var gd := GroupDns(c, dir);
    if gd.Success? {
      var nm := NameUsers(c, dir, gd.value);
      if nm.Success? {
        var ub := TemplateBase(Mustache.Source(c.userDn));
        var gb := TemplateBase(Mustache.Source(c.groupDn));
        if ub.Success? && gb.Success? {
          assert GroupAttributes(c, dir, gd.value, nm.value).Success? by {
            forall j | 0 <= j < |dir.groups|
              ensures Interpolate(c.groupAttributes, GroupAttrView(dir, j, gd.value, nm.value)).Success?
            {
              GroupDefaults(dir, j, gd.value, nm.value);
            }
          }
          assert UserAttributes(c, dir, gd.value, nm.value).Success? by {
            forall i | 0 <= i < |dir.users|
              ensures Interpolate(c.userAttributes, UserAttrView(dir, i, gd.value, nm.value)).Success?
            {
              UserDefaults(dir, i, gd.value, nm.value);
            }
          }
        }
      }
    }
  }
}
