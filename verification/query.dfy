/**
 * The LDAP request handlers of app.js over a published snapshot: `authorize`,
 * the admin bind, the search handler and the user bind, plus the routing of a
 * bind to one of the two bind handlers and the bound DN a connection keeps.
 */
module Query {
  import opened Results
  import opened Json
  import opened Template
  import opened Dn
  import opened Upstream
  import opened Database

  datatype LdapError =
    | NoSuchObject(dn: Dn)
    | InvalidCredentials
    | InsufficientAccessRights
    | FilterFailed

  /** `config.admin`: the admin DN and its password. */
  datatype Admin = Admin(dn: Dn, password: string)

  datatype Scope = BaseObject | OneLevel | Subtree

  /** What `req.filter.matches(attributes)` does: true, false, or throw. */
  datatype Verdict = Match | NoMatch | Broken

  /** One `res.send({dn, attributes})`. */
  datatype Found = Found(dn: Dn, attributes: Rendered)

  /** `authorize`: the request proceeds only on a connection bound as the admin. */
  function Authorize(bindDn: Dn, admin: Admin): (r: Result<(), LdapError>)
    ensures r.Success? <==> bindDn == admin.dn
    ensures r.Failure? ==> r.error == InsufficientAccessRights
  {
    if bindDn != admin.dn then Failure(InsufficientAccessRights) else Success(())
  }

  /**
   * The admin bind handler: a descendant of the admin DN routed here is no
   * object, and the DN is checked before the password.
   */
  function AdminBind(admin: Admin, dn: Dn, credentials: string): (r: Result<(), LdapError>)
    ensures r.Success? <==> dn == admin.dn && credentials == admin.password
    ensures dn != admin.dn ==> r == Failure(NoSuchObject(dn))
    ensures dn == admin.dn && credentials != admin.password ==> r == Failure(InvalidCredentials)
  {
    if dn != admin.dn then Failure(NoSuchObject(dn))
    else if credentials != admin.password then Failure(InvalidCredentials)
    else Success(())
  }

  /** The `scopeCheck` of the one and sub scopes. */
  predicate InScope(base: Dn, scope: Scope, k: Dn)
  {
    match scope
    case BaseObject => k == base
    case OneLevel => k == base || Parent(k) == Some(base)
    case Subtree => k == base || IsStrictAncestor(base, k)
  }

  /** The walk over `Object.keys(db)`: an entry whose filter throws is skipped. */
  function Emit(db: Db, keys: seq<Dn>, base: Dn, scope: Scope, filter: Rendered -> Verdict): (out: seq<Found>)
    requires forall t :: 0 <= t < |keys| ==> keys[t] in db.entries
    ensures |out| <= |keys|
  {
    if |keys| == 0 then []
    else
      var k := keys[0];
      var rest := Emit(db, keys[1..], base, scope, filter);
      if InScope(base, scope, k) && filter(db.entries[k].attributes) == Match
      then [Found(k, db.entries[k].attributes)] + rest
      else rest
  }

  /** The search handler, after `authorize`. */
  function Search(db: Db, bindDn: Dn, admin: Admin, base: Dn, scope: Scope, filter: Rendered -> Verdict)
    : (r: Result<seq<Found>, LdapError>)
    requires Valid(db)
    ensures r.Success? ==> bindDn == admin.dn && base in db.entries
  {
    var _ :- Authorize(bindDn, admin);
    if base !in db.entries then Failure(NoSuchObject(base))
    else match scope
      case BaseObject =>
        var attributes := db.entries[base].attributes;
        (match filter(attributes)
         case Match => Success([Found(base, attributes)])
         case NoMatch => Success([])
         case Broken => Failure(FilterFailed))
      case _ =>
        assert forall t :: 0 <= t < |db.order| ==> db.order[t] in db.entries;
        Success(Emit(db, db.order, base, scope, filter))
  }

  /** Emitted entries are in-scope matches, with their stored attributes, and nothing in scope that matches is missed. */
  lemma {:induction false} EmitSpec(db: Db, keys: seq<Dn>, base: Dn, scope: Scope, filter: Rendered -> Verdict)
    requires forall t :: 0 <= t < |keys| ==> keys[t] in db.entries
    ensures var out := Emit(db, keys, base, scope, filter);
            && (forall f :: f in out ==>
                  && f.dn in keys
                  && f.attributes == db.entries[f.dn].attributes
                  && InScope(base, scope, f.dn)
                  && filter(f.attributes) == Match)
            && (forall k :: k in keys && InScope(base, scope, k) && filter(db.entries[k].attributes) == Match ==>
                  Found(k, db.entries[k].attributes) in out)
  {
    if |keys| > 0 {
      EmitSpec(db, keys[1..], base, scope, filter);
      assert keys == [keys[0]] + keys[1..];
    }
  }

  /** Distinct keys give distinct results: the loop answers each entry at most once. */
  lemma {:induction false} EmitDistinct(db: Db, keys: seq<Dn>, base: Dn, scope: Scope, filter: Rendered -> Verdict)
    requires forall t :: 0 <= t < |keys| ==> keys[t] in db.entries
    requires Distinct(keys)
    ensures var out := Emit(db, keys, base, scope, filter);
            forall i, j :: 0 <= i < j < |out| ==> out[i].dn != out[j].dn
  {
    if |keys| > 0 {
      var rest := keys[1..];
      assert Distinct(rest) by {
        forall a, b | 0 <= a < b < |rest| ensures rest[a] != rest[b] {
          assert rest[a] == keys[a + 1] && rest[b] == keys[b + 1];
        }
      }
      assert keys[0] !in rest by {
        forall t | 0 <= t < |rest| ensures rest[t] != keys[0] {
          assert rest[t] == keys[t + 1];
        }
      }
      EmitDistinct(db, rest, base, scope, filter);
      EmitSpec(db, rest, base, scope, filter);
      var out := Emit(db, rest, base, scope, filter);
      assert forall j :: 0 <= j < |out| ==> out[j].dn != keys[0] by {
        forall j | 0 <= j < |out| ensures out[j].dn != keys[0] {
          assert out[j] in out;
        }
      }
    }
  }

  /** Entries come out in key order: the matches among earlier keys precede those among later keys. */
  lemma {:induction false} EmitAppend(db: Db, a: seq<Dn>, b: seq<Dn>, base: Dn, scope: Scope, filter: Rendered -> Verdict)
    requires forall t :: 0 <= t < |a| ==> a[t] in db.entries
    requires forall t :: 0 <= t < |b| ==> b[t] in db.entries
    ensures Emit(db, a + b, base, scope, filter) == Emit(db, a, base, scope, filter) + Emit(db, b, base, scope, filter)
  {
    if |a| == 0 {
      assert a + b == b;
    } else {
      assert (a + b)[0] == a[0] && (a + b)[1..] == a[1..] + b;
      EmitAppend(db, a[1..], b, base, scope, filter);
    }
  }

  /**
   * The search answers exactly the in-scope entries whose filter matches, in
   * key order. Unlike the one and sub scopes, the base scope does not catch a
   * filter that throws, so that search fails.
   */
  lemma SearchResults(db: Db, bindDn: Dn, admin: Admin, base: Dn, scope: Scope, filter: Rendered -> Verdict)
    requires Valid(db)
    ensures bindDn != admin.dn ==> Search(db, bindDn, admin, base, scope, filter) == Failure(InsufficientAccessRights)
    ensures bindDn == admin.dn && base !in db.entries ==> Search(db, bindDn, admin, base, scope, filter) == Failure(NoSuchObject(base))
    ensures Search(db, bindDn, admin, base, scope, filter).Failure? && bindDn == admin.dn && base in db.entries ==>
              scope == BaseObject && filter(db.entries[base].attributes) == Broken
    ensures var r := Search(db, bindDn, admin, base, scope, filter);
            r.Success? ==>
              && (forall f :: f in r.value ==>
                    && f.dn in db.entries
                    && f.attributes == db.entries[f.dn].attributes
                    && InScope(base, scope, f.dn)
                    && filter(f.attributes) == Match)
              && (forall k :: k in db.entries && InScope(base, scope, k) && filter(db.entries[k].attributes) == Match ==>
                    Found(k, db.entries[k].attributes) in r.value)
    ensures var r := Search(db, bindDn, admin, base, scope, filter);
            r.Success? && scope == BaseObject ==>
              r.value == if filter(db.entries[base].attributes) == Match then [Found(base, db.entries[base].attributes)] else []
    ensures var r := Search(db, bindDn, admin, base, scope, filter);
            r.Success? && scope != BaseObject ==>
              forall m :: 0 <= m <= |db.order| ==>
                r.value == Emit(db, db.order[..m], base, scope, filter) + Emit(db, db.order[m..], base, scope, filter)
    ensures var r := Search(db, bindDn, admin, base, scope, filter);
            r.Success? ==> forall i, j :: 0 <= i < j < |r.value| ==> r.value[i].dn != r.value[j].dn
  {
    if bindDn == admin.dn && base in db.entries {
      assert forall t :: 0 <= t < |db.order| ==> db.order[t] in db.entries;
      if scope != BaseObject {
        assert Search(db, bindDn, admin, base, scope, filter) == Success(Emit(db, db.order, base, scope, filter));
        EmitSpec(db, db.order, base, scope, filter);
        EmitDistinct(db, db.order, base, scope, filter);
        forall m | 0 <= m <= |db.order|
          ensures Emit(db, db.order, base, scope, filter)
                  == Emit(db, db.order[..m], base, scope, filter) + Emit(db, db.order[m..], base, scope, filter)
        {
          assert db.order == db.order[..m] + db.order[m..];
          EmitAppend(db, db.order[..m], db.order[m..], base, scope, filter);
        }
      }
    }
  }

  /** The one scope includes the base entry itself, and each scope lies within the next wider one. */
  lemma ScopesNest(base: Dn, k: Dn)
    ensures InScope(base, OneLevel, base)
    ensures InScope(base, BaseObject, k) ==> InScope(base, OneLevel, k)
    ensures InScope(base, OneLevel, k) ==> InScope(base, Subtree, k)
  {
    if Parent(k) == Some(base) {
      StrictAncestorStep(base, k);
    }
  }

  /** A subtree search reaches exactly the base and the entries below it, at any depth. */
  lemma SubtreeBelow(base: Dn, k: Dn)
    ensures InScope(base, Subtree, k) <==> exists t :: 0 <= t <= |k| && k[t..] == base
  {
    if k == base {
      assert k[0..] == base;
    }
  }

  /** The user bind handler, after `authorize`: only a user entry can bind, and the password check is the oracle's. */
  function UserBind(db: Db, bindDn: Dn, admin: Admin, dn: Dn, credentials: string, check: (Option<Value>, string) -> bool)
    : (r: Result<(), LdapError>)
    ensures r.Success? ==>
              && bindDn == admin.dn
              && dn in db.entries && db.entries[dn].kind.UserKind?
              && check(Find(db.entries[dn].kind.user.profile, "login"), credentials)
    ensures bindDn == admin.dn && (dn !in db.entries || !db.entries[dn].kind.UserKind?) ==> r == Failure(NoSuchObject(dn))
    ensures (&& bindDn == admin.dn && dn in db.entries && db.entries[dn].kind.UserKind?
             && !check(Find(db.entries[dn].kind.user.profile, "login"), credentials))
            ==> r == Failure(InvalidCredentials)
  {
    var _ :- Authorize(bindDn, admin);
    if dn !in db.entries || !db.entries[dn].kind.UserKind? then Failure(NoSuchObject(dn))
    else if check(Find(db.entries[dn].kind.user.profile, "login"), credentials) then Success(())
    else Failure(InvalidCredentials)
  }

  /** The DN a connection is bound as; a fresh connection is anonymous. */
  datatype Session = Session(bindDn: Dn)

  const Anonymous: Session := Session(["cn=anonymous"])

  /**
   * A bind request: the admin DN and the DNs below it go to the admin handler,
   * every other DN to the user handler. A successful bind rebinds the connection.
   */
  function Bind(db: Db, s: Session, admin: Admin, dn: Dn, credentials: string, check: (Option<Value>, string) -> bool)
    : (r: (Result<(), LdapError>, Session))
    ensures r.0.Success? ==> r.1 == Session(dn)
    ensures r.0.Failure? ==> r.1 == s
  {
    var outcome :=
      if dn == admin.dn || IsStrictAncestor(admin.dn, dn) then AdminBind(admin, dn, credentials)
      else UserBind(db, s.bindDn, admin, dn, credentials, check);
    (outcome, if outcome.Success? then Session(dn) else s)
  }

  /**
   * Who can bind: the admin with its password on any connection; a user only on
   * a connection already bound as the admin, and never one stored below the
   * admin DN. After a user bind the connection can no longer search.
   */
  lemma BindOutcomes(db: Db, s: Session, admin: Admin, dn: Dn, credentials: string, check: (Option<Value>, string) -> bool)
    ensures Bind(db, s, admin, dn, credentials, check).0.Success? && dn != admin.dn ==>
              && s.bindDn == admin.dn
              && !IsStrictAncestor(admin.dn, dn)
              && dn in db.entries && db.entries[dn].kind.UserKind?
    ensures dn == admin.dn ==> (Bind(db, s, admin, dn, credentials, check).0.Success? <==> credentials == admin.password)
    ensures IsStrictAncestor(admin.dn, dn) ==> Bind(db, s, admin, dn, credentials, check).0 == Failure(NoSuchObject(dn))
  {
    if IsStrictAncestor(admin.dn, dn) {
      assert dn != admin.dn;
    }
  }

  /** A connection that bound as a user is refused every later search. */
  lemma NoSearchAfterUserBind(db: Db, s: Session, admin: Admin, dn: Dn, credentials: string, check: (Option<Value>, string) -> bool,
                              base: Dn, scope: Scope, filter: Rendered -> Verdict)
    requires Valid(db)
    requires dn != admin.dn
    requires Bind(db, s, admin, dn, credentials, check).0.Success?
    ensures Search(db, Bind(db, s, admin, dn, credentials, check).1.bindDn, admin, base, scope, filter)
            == Failure(InsufficientAccessRights)
  {
  }
}
