/**
 * `buildDatabase` (app.js) once the directory is loaded: every group gets its
 * DN, every user its `shortName` and DN, the containers above the two DN
 * templates are created, then each group and each user is stored under its DN
 * with its rendered attributes. Any exception thrown on the way abandons the
 * build and the previous snapshot stays published.
 */
module Builder {
  import opened Results
  import opened Json
  import Mustache
  import opened Template
  import opened Dn
  import Strings
  import opened Upstream
  import opened Database

  /** The `okta` section of the configuration that the build reads. */
  datatype Config = Config(
    userDn: Mustache.Text,
    groupDn: Mustache.Text,
    userAttributes: Template,
    groupAttributes: Template)

  datatype BuildError =
    | TemplateFailed(cause: TemplateError)
    | InvalidDn(text: string)
    | NoEmail(user: string)
    | RootHasNoParent

  /** A configured template JavaScript treats as false, so the default replaces it. */
  predicate Falsy(t: Template)
  {
    || (t.Text? && Mustache.Source(t.text) == "")
    || (t.Scalar? && t.shown in ["0", "NaN", "false", "null", "undefined"])
  }

  /** `config.okta.userAttributes || DEFAULT_USER_TEMPLATE` (and the same for groups). */
  function OrDefault(configured: Option<Template>, fallback: Template): (t: Template)
    requires !Falsy(fallback)
    ensures !Falsy(t)
    ensures configured.Some? && !Falsy(configured.value) ==> t == configured.value
    ensures t != fallback ==> configured == Some(t)
  {
    if configured.Some? && !Falsy(configured.value) then configured.value else fallback
  }

  /** The user with a `shortName` and a DN. */
  datatype Named = Named(shortName: string, dn: Dn)

  /** The record of a user as the templates see it: `id` and `profile`. */
  function UserProps(u: User): seq<Prop>
  {
    [Prop("id", Str(u.id)), Prop("profile", Obj(u.profile))]
  }

  /** The record of a group as the templates see it: `id`, `profile`, and the members link. */
  function GroupProps(g: Group): seq<Prop>
  {
    [Prop("id", Str(g.id)), Prop("profile", Obj(g.profile)),
     Prop("_links", Obj([Prop("users", Obj([Prop("href", Str(g.membersUrl))]))]))]
  }

  /** The view for the group DN: members are plain user records (no DN or `shortName` yet). */
  function GroupDnView(dir: Directory, j: nat): Value
    requires WellLinked(dir) && j < |dir.groups|
  {
    var ms := dir.groups[j].members;
    Obj(GroupProps(dir.groups[j].group)
        + [Prop("members", Arr(seq(|ms|, k requires 0 <= k < |ms| => Obj(UserProps(dir.users[ms[k]].user)))))])
  }

  /** The `groups` of a user, each with its final DN; absent when the user is in no group. */
  function GroupsProp(dir: Directory, i: nat, gdns: seq<Dn>): seq<Prop>
    requires WellLinked(dir) && i < |dir.users| && |gdns| == |dir.groups|
  {
    match dir.users[i].groups
    case None => []
    case Some(gs) =>
      [Prop("groups", Arr(seq(|gs|, k requires 0 <= k < |gs| =>
         Obj(GroupProps(dir.groups[gs[k]].group) + [Prop("dn", Str(Format(gdns[gs[k]])))]))))]
  }

  /** The view for the user DN: its groups with their DNs, and its `shortName`. */
  function UserDnView(dir: Directory, i: nat, gdns: seq<Dn>, shortName: string): Value
    requires WellLinked(dir) && i < |dir.users| && |gdns| == |dir.groups|
  {
    Obj(UserProps(dir.users[i].user) + GroupsProp(dir, i, gdns) + [Prop("shortName", Str(shortName))])
  }

  /** The view for the group attributes: members carry their `shortName` and DN. */
  function GroupAttrView(dir: Directory, j: nat, gdns: seq<Dn>, named: seq<Named>): Value
    requires WellLinked(dir) && j < |dir.groups| && |gdns| == |dir.groups| && |named| == |dir.users|
  {
    var ms := dir.groups[j].members;
    Obj(GroupProps(dir.groups[j].group)
        + [Prop("members", Arr(seq(|ms|, k requires 0 <= k < |ms| =>
             Obj(UserProps(dir.users[ms[k]].user)
                 + [Prop("shortName", Str(named[ms[k]].shortName)), Prop("dn", Str(Format(named[ms[k]].dn)))])))),
           Prop("dn", Str(Format(gdns[j])))])
  }

  /** The view for the user attributes: the user with its groups, `shortName` and DN. */
  function UserAttrView(dir: Directory, i: nat, gdns: seq<Dn>, named: seq<Named>): Value
    requires WellLinked(dir) && i < |dir.users| && |gdns| == |dir.groups| && |named| == |dir.users|
  {
    Obj(UserProps(dir.users[i].user) + GroupsProp(dir, i, gdns)
        + [Prop("shortName", Str(named[i].shortName)), Prop("dn", Str(Format(named[i].dn)))])
  }

  /** `ldap.parseDN(text)`, which throws on text that is not a DN. */
  function ParseDn(text: string): (r: Result<Dn, BuildError>)
    ensures r.Success? <==> Parse(text).Some?
    ensures r.Success? ==> ValidDn(r.value) && Format(r.value) == text
    ensures r.Failure? ==> r.error == InvalidDn(text)
  {
    match Parse(text)
    case None => Failure(InvalidDn(text))
    case Some(d) =>
      FormatParse(text);
      Success(d)
  }

  /** `group.dn = ldap.parseDN(interpolateObject(groupDN, group)).toString()`. */
  function GroupDn(c: Config, dir: Directory, j: nat): Result<Dn, BuildError>
    requires WellLinked(dir) && j < |dir.groups|
  {
    ParseDn(Mustache.Render(c.groupDn, GroupDnView(dir, j)))
  }

  /** `user.profile.email.split('@')[0]`; an email that is not a string throws. */
  function ShortName(u: User): (r: Result<string, BuildError>)
    ensures r.Success? <==> Find(u.profile, "email").Some? && Find(u.profile, "email").value.Str?
    ensures r.Success? ==> '@' !in r.value && r.value <= Find(u.profile, "email").value.s
    ensures r.Failure? ==> r.error == NoEmail(u.id)
  {
    match Find(u.profile, "email")
    case Some(Str(email)) => Success(Strings.Before(email, '@'))
    case _ => Failure(NoEmail(u.id))
  }

  /** The short name is the mailbox part of an address. */
  lemma ShortNameOfAddress(u: User, mailbox: string, domain: string)
    requires Find(u.profile, "email") == Some(Str(mailbox + "@" + domain))
    requires '@' !in mailbox
    ensures ShortName(u) == Success(mailbox)
  {
    Strings.BeforeOfConcat(mailbox, '@', domain);
  }

  /** `user.shortName = ...; user.dn = ldap.parseDN(interpolateObject(userDN, user)).toString()`. */
  function NameUser(c: Config, dir: Directory, gdns: seq<Dn>, i: nat): Result<Named, BuildError>
    requires WellLinked(dir) && i < |dir.users| && |gdns| == |dir.groups|
  {
    var shortName :- ShortName(dir.users[i].user);
    var dn :- ParseDn(Mustache.Render(c.userDn, UserDnView(dir, i, gdns, shortName)));
    Success(Named(shortName, dn))
  }

  /** The first loop of `buildDatabase`: all group DNs, stopping at the first that throws. */
  function GroupDns(c: Config, dir: Directory): (r: Result<seq<Dn>, BuildError>)
    requires WellLinked(dir)
    ensures r.Success? <==> forall j :: 0 <= j < |dir.groups| ==> GroupDn(c, dir, j).Success?
    ensures r.Success? ==> |r.value| == |dir.groups| && forall j :: 0 <= j < |dir.groups| ==> GroupDn(c, dir, j) == Success(r.value[j])
    ensures r.Failure? ==>
              exists j :: 0 <= j < |dir.groups| && GroupDn(c, dir, j) == Failure(r.error)
                          && forall k :: 0 <= k < j ==> GroupDn(c, dir, k).Success?
  {
    var dns := seq(|dir.groups|, j requires 0 <= j < |dir.groups| => GroupDn(c, dir, j));
    assert forall j :: 0 <= j < |dir.groups| ==> dns[j] == GroupDn(c, dir, j);
    Collect(dns)
  }

  /** The second loop: every user's `shortName` and DN. */
  function NameUsers(c: Config, dir: Directory, gdns: seq<Dn>): (r: Result<seq<Named>, BuildError>)
    requires WellLinked(dir) && |gdns| == |dir.groups|
    ensures r.Success? <==> forall i :: 0 <= i < |dir.users| ==> NameUser(c, dir, gdns, i).Success?
    ensures r.Success? ==>
              |r.value| == |dir.users| && forall i :: 0 <= i < |dir.users| ==> NameUser(c, dir, gdns, i) == Success(r.value[i])
    ensures r.Failure? ==>
              exists i :: 0 <= i < |dir.users| && NameUser(c, dir, gdns, i) == Failure(r.error)
                          && forall k :: 0 <= k < i ==> NameUser(c, dir, gdns, k).Success?
  {
    var names := seq(|dir.users|, i requires 0 <= i < |dir.users| => NameUser(c, dir, gdns, i));
    assert forall i :: 0 <= i < |dir.users| ==> names[i] == NameUser(c, dir, gdns, i);
    Collect(names)
  }

  /** A template error becomes a build error. */
  function Lift<T>(r: Result<T, TemplateError>): (l: Result<T, BuildError>)
    ensures l.Success? <==> r.Success?
    ensures l.Success? ==> l.value == r.value
    ensures l.Failure? ==> l.error == TemplateFailed(r.error)
  {
    match r
    case Success(v) => Success(v)
    case Failure(e) => Failure(TemplateFailed(e))
  }

  function GroupAttributes(c: Config, dir: Directory, gdns: seq<Dn>, named: seq<Named>): (r: Result<seq<Rendered>, BuildError>)
    requires WellLinked(dir) && |gdns| == |dir.groups| && |named| == |dir.users|
    ensures r.Success? <==>
              forall j :: 0 <= j < |dir.groups| ==> Interpolate(c.groupAttributes, GroupAttrView(dir, j, gdns, named)).Success?
    ensures r.Success? ==>
              && |r.value| == |dir.groups|
              && forall j :: 0 <= j < |dir.groups| ==>
                   Interpolate(c.groupAttributes, GroupAttrView(dir, j, gdns, named)) == Success(r.value[j])
  {
    var rendered := seq(|dir.groups|, j requires 0 <= j < |dir.groups| =>
      Interpolate(c.groupAttributes, GroupAttrView(dir, j, gdns, named)));
    assert forall j :: 0 <= j < |dir.groups| ==>
             rendered[j] == Interpolate(c.groupAttributes, GroupAttrView(dir, j, gdns, named));
    Lift(Collect(rendered))
  }

  function UserAttributes(c: Config, dir: Directory, gdns: seq<Dn>, named: seq<Named>): (r: Result<seq<Rendered>, BuildError>)
    requires WellLinked(dir) && |gdns| == |dir.groups| && |named| == |dir.users|
    ensures r.Success? <==>
              forall i :: 0 <= i < |dir.users| ==> Interpolate(c.userAttributes, UserAttrView(dir, i, gdns, named)).Success?
    ensures r.Success? ==>
              && |r.value| == |dir.users|
              && forall i :: 0 <= i < |dir.users| ==>
                   Interpolate(c.userAttributes, UserAttrView(dir, i, gdns, named)) == Success(r.value[i])
  {
    var rendered := seq(|dir.users|, i requires 0 <= i < |dir.users| =>
      Interpolate(c.userAttributes, UserAttrView(dir, i, gdns, named)));
    assert forall i :: 0 <= i < |dir.users| ==>
             rendered[i] == Interpolate(c.userAttributes, UserAttrView(dir, i, gdns, named));
    Lift(Collect(rendered))
  }

  /**
   * The DN a template names before rendering, whose ancestors `addParents`
   * creates: the root has no parent, so the walk fails on it.
   */
  function TemplateBase(template: string): (r: Result<Dn, BuildError>)
    ensures r.Success? <==> Parse(template).Some? && Parse(template).value != []
    ensures r.Success? ==> r.value == Parse(template).value
    ensures Parse(template) == Some([]) ==> r == Failure(RootHasNoParent)
    ensures Parse(template).None? ==> r == Failure(InvalidDn(template))
  {
    var d :- ParseDn(template);
    if |d| == 0 then Failure(RootHasNoParent) else Success(d)
  }

  /** One container write per strict ancestor below the root, nearest first. */
  function ParentWrites(d: Dn): seq<Write>
  {
    if |d| == 0 then []
    else seq(|d| - 1, k requires 0 <= k < |d| - 1 => Write(d[k + 1..], ContainerEntry))
  }

  /** The container writes name exactly the non-root strict ancestors. */
  lemma ParentKeys(d: Dn)
    ensures forall k :: k in Keys(ParentWrites(d)) <==> k in NonRootAncestors(d)
    ensures forall t :: 0 <= t < |ParentWrites(d)| ==> ParentWrites(d)[t].entry == ContainerEntry
  {
    var ws := ParentWrites(d);
    forall k ensures k in Keys(ws) <==> k in NonRootAncestors(d) {
      if k in Keys(ws) {
        var t :| 0 <= t < |ws| && Keys(ws)[t] == k;
        assert k == d[t + 1..];
      }
      if k in NonRootAncestors(d) {
        var t :| 1 <= t < |d| && k == d[t..];
        assert Keys(ws)[t - 1] == k;
      }
    }
  }

  /** Writing the containers of `d` adds them and leaves every other key alone. */
  lemma ParentWritesStore(db: Db, d: Dn)
    requires Valid(db)
    ensures var r := PutAll(db, ParentWrites(d));
            && (forall k :: k in r.entries <==> k in db.entries || k in NonRootAncestors(d))
            && (forall k :: k in NonRootAncestors(d) ==> r.entries[k] == ContainerEntry)
            && (forall k :: k in db.entries && k !in NonRootAncestors(d) ==> r.entries[k] == db.entries[k])
  {
    var ws := ParentWrites(d);
    PutAllKeys(db, ws);
    ParentKeys(d);
    forall k | k in NonRootAncestors(d) ensures PutAll(db, ws).entries[k] == ContainerEntry {
      PutAllUniform(db, ws, k, ContainerEntry);
    }
    forall k | k in db.entries && k !in NonRootAncestors(d)
      ensures PutAll(db, ws).entries[k] == db.entries[k]
    {
      PutAllKept(db, ws, k);
    }
  }

  /** `addParents(db, template)`. */
  function AddParents(db: Db, template: string): (r: Result<Db, BuildError>)
    requires Valid(db)
    ensures r.Success? <==> Parse(template).Some? && Parse(template).value != []
    ensures r.Success? ==> Valid(r.value)
    ensures r.Failure? ==> r.error == if Parse(template).Some? then RootHasNoParent else InvalidDn(template)
  {
    var d :- TemplateBase(template);
    Success(PutAll(db, ParentWrites(d)))
  }

  /**
   * `addParents` stores a container under every strict ancestor of the DN other
   * than the root, and touches no other key; the empty DN has no parent, so the
   * walk fails on it.
   */
  lemma AddParentsSpec(db: Db, template: string)
    requires Valid(db)
    ensures AddParents(db, template).Success? <==> Parse(template).Some? && Parse(template).value != []
    ensures Parse(template) == Some([]) ==> AddParents(db, template) == Failure(RootHasNoParent)
    ensures AddParents(db, template).Success? ==>
              var d := Parse(template).value;
              var r := AddParents(db, template).value;
              && (forall k :: k in r.entries <==> k in db.entries || k in NonRootAncestors(d))
              && (forall k :: k in NonRootAncestors(d) ==> r.entries[k] == ContainerEntry)
              && (forall k :: k in db.entries && k !in NonRootAncestors(d) ==> r.entries[k] == db.entries[k])
  {
    var t := TemplateBase(template);
    if t.Success? {
      assert AddParents(db, template) == Success(PutAll(db, ParentWrites(t.value)));
      ParentWritesStore(db, t.value);
    } else {
      assert AddParents(db, template) == Failure(t.error);
    }
  }

  function GroupWrites(dir: Directory, gdns: seq<Dn>, attrs: seq<Rendered>): seq<Write>
    requires |gdns| == |dir.groups| && |attrs| == |dir.groups|
  {
    seq(|dir.groups|, j requires 0 <= j < |dir.groups| => Write(gdns[j], Entry(attrs[j], GroupKind(dir.groups[j].group))))
  }

  function UserWrites(dir: Directory, named: seq<Named>, attrs: seq<Rendered>): seq<Write>
    requires |named| == |dir.users| && |attrs| == |dir.users|
  {
    seq(|dir.users|, i requires 0 <= i < |dir.users| => Write(named[i].dn, Entry(attrs[i], UserKind(dir.users[i].user))))
  }

  /** `buildDatabase`'s success handler, step by step. */
  function BuildDatabase(c: Config, dir: Directory): (r: Result<Db, BuildError>)
    requires WellLinked(dir)
    ensures r.Success? ==> Valid(r.value)
  {
    var gdns :- GroupDns(c, dir);
    var named :- NameUsers(c, dir, gdns);
    var db0 :- AddParents(Empty, Mustache.Source(c.userDn));
    var db1 :- AddParents(db0, Mustache.Source(c.groupDn));
    var gattrs :- GroupAttributes(c, dir, gdns, named);
    var uattrs :- UserAttributes(c, dir, gdns, named);
    Success(PutAll(PutAll(db1, GroupWrites(dir, gdns, gattrs)), UserWrites(dir, named, uattrs)))
  }

  /** Everything the build computes before it stores anything. */
  datatype Plan = Plan(
    gdns: seq<Dn>, named: seq<Named>, userBase: Dn, groupBase: Dn,
    groupAttrs: seq<Rendered>, userAttrs: seq<Rendered>)

  predicate PlanFits(p: Plan, dir: Directory)
  {
    && |p.gdns| == |dir.groups| && |p.groupAttrs| == |dir.groups|
    && |p.named| == |dir.users| && |p.userAttrs| == |dir.users|
  }

  function Planned(c: Config, dir: Directory): (r: Result<Plan, BuildError>)
    requires WellLinked(dir)
    ensures r.Success? ==> PlanFits(r.value, dir)
  {
    var gdns :- GroupDns(c, dir);
    var named :- NameUsers(c, dir, gdns);
    var userBase :- TemplateBase(Mustache.Source(c.userDn));
    var groupBase :- TemplateBase(Mustache.Source(c.groupDn));
    var gattrs :- GroupAttributes(c, dir, gdns, named);
    var uattrs :- UserAttributes(c, dir, gdns, named);
    Success(Plan(gdns, named, userBase, groupBase, gattrs, uattrs))
  }

  /** All writes of a build, in the order they happen. */
  function Writes(p: Plan, dir: Directory): seq<Write>
    requires PlanFits(p, dir)
  {
    ParentWrites(p.userBase) + ParentWrites(p.groupBase)
      + GroupWrites(dir, p.gdns, p.groupAttrs) + UserWrites(dir, p.named, p.userAttrs)
  }

  /** The build fails exactly when its plan fails, with the same error, and otherwise performs the plan's writes. */
  lemma BuildIsPlan(c: Config, dir: Directory)
    requires WellLinked(dir)
    ensures BuildDatabase(c, dir).Success? <==> Planned(c, dir).Success?
    ensures Planned(c, dir).Failure? ==> BuildDatabase(c, dir) == Failure(Planned(c, dir).error)
    ensures Planned(c, dir).Success? ==> BuildDatabase(c, dir).value == PutAll(Empty, Writes(Planned(c, dir).value, dir))
  {
    var gd := GroupDns(c, dir);
    if gd.Success? {
      var nm := NameUsers(c, dir, gd.value);
      if nm.Success? {
        var ub := TemplateBase(Mustache.Source(c.userDn));
        if ub.Success? {
          var db0 := PutAll(Empty, ParentWrites(ub.value));
          assert AddParents(Empty, Mustache.Source(c.userDn)) == Success(db0);
          var gb := TemplateBase(Mustache.Source(c.groupDn));
          if gb.Success? {
            var db1 := PutAll(db0, ParentWrites(gb.value));
            assert AddParents(db0, Mustache.Source(c.groupDn)) == Success(db1);
            var ga := GroupAttributes(c, dir, gd.value, nm.value);
            var ua := UserAttributes(c, dir, gd.value, nm.value);
            if ga.Success? && ua.Success? {
              var p := Plan(gd.value, nm.value, ub.value, gb.value, ga.value, ua.value);
              assert Planned(c, dir) == Success(p);
              var w1 := ParentWrites(p.userBase);
              var w2 := ParentWrites(p.groupBase);
              var w3 := GroupWrites(dir, p.gdns, p.groupAttrs);
              var w4 := UserWrites(dir, p.named, p.userAttrs);
              assert BuildDatabase(c, dir) == Success(PutAll(PutAll(db1, w3), w4));
              PutAllAppend(Empty, w1, w2);
              PutAllAppend(Empty, w1 + w2, w3);
              PutAllAppend(Empty, w1 + w2 + w3, w4);
            }
          }
        }
      }
    }
  }
}
