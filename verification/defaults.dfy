/**
 * The built-in attribute templates of defaults.js, used when the configuration
 * supplies none, and what rendering them yields.
 */
module Defaults {
  import opened Results
  import opened Json
  import opened Mustache
  import opened Template

  /** A template string without placeholders. */
  function Lit(s: string): Template
  {
    Text([Literal(s)])
  }

  /** An array of template strings without placeholders. */
  function Lits(ss: seq<string>): seq<Template>
  {
    seq(|ss|, k requires 0 <= k < |ss| => Lit(ss[k]))
  }

  /** The rendered strings. */
  function Strs(ss: seq<string>): seq<Rendered>
  {
    seq(|ss|, k requires 0 <= k < |ss| => RString(ss[k]))
  }

  const UserObjectClasses: seq<string> := ["top", "person", "organizationalPerson", "inetOrgPerson"]

  /** A template string that is one triple-brace placeholder. */
  function Placeholder(path: seq<string>): Template
  {
    Text([Variable(path)])
  }

  /** The text a looked-up value renders to: nothing when it is undefined. */
  function Shown(v: Option<Value>): string
  {
    if v.Some? then Display(v.value) else ""
  }

  const DefaultUserTemplate: Template :=
    Object([
      Field("objectClass", Array(Lits(UserObjectClasses))),
      Field("cn", Text([Variable(["profile", "firstName"]), Literal(" "), Variable(["profile", "lastName"])])),
      Field("displayName", Text([Variable(["profile", "firstName"]), Literal(" "), Variable(["profile", "lastName"])])),
      Field("givenName", Placeholder(["profile", "firstName"])),
      Field("sn", Placeholder(["profile", "lastName"])),
      Field("mail", Placeholder(["profile", "email"])),
      Field("employeeNumber", Placeholder(["profile", "employeeNumber"])),
      Field("uid", Placeholder(["shortName"])),
      Field("memberOf", List("groups", Some(Placeholder(["item", "dn"]))))
    ])

  const DefaultGroupTemplate: Template :=
    Object([
      Field("objectClass", Lit("groupOfNames")),
      Field("cn", Placeholder(["profile", "name"])),
      Field("description", Placeholder(["profile", "description"])),
      Field("member", List("members", Some(Placeholder(["item", "dn"]))))
    ])

  lemma RenderLiteral(s: string, view: Value)
    ensures Interpolate(Lit(s), view) == Success(RString(s))
  {
    var t: Mustache.Text := [Literal(s)];
    assert t[1..] == [];
    assert RenderSegment(t[0], view) == s;
    assert Render(t, view) == s;
  }

  lemma RenderPlaceholder(path: seq<string>, view: Value)
    ensures Interpolate(Placeholder(path), view) == Success(RString(Shown(GetPath(view, path))))
  {
    RenderVariable(path, view);
  }

  lemma GetPathOne(v: Value, k: string)
    ensures GetPath(v, [k]) == Get(v, k)
  {
    if Get(v, k).Some? {
      assert GetPath(Get(v, k).value, []) == Get(v, k);
    }
  }

  /** Inside a list item, `item.k` reads property `k` of the element. */
  lemma ItemPath(e: Value, k: string)
    ensures GetPath(ItemView(e), ["item", k]) == Get(e, k)
  {
    assert Get(ItemView(e), "item") == Some(e);
    assert ["item", k][1..] == [k];
    GetPathOne(e, k);
  }

  /** The first attribute of a given name is found at its position. */
  lemma {:induction false} FindAttrAt(attrs: seq<Attr>, name: string, i: nat)
    requires i < |attrs| && attrs[i].name == name
    requires forall j :: 0 <= j < i ==> attrs[j].name != name
    ensures FindAttr(attrs, name) == Some(attrs[i].val)
  {
    if i > 0 {
      FindAttrAt(attrs[1..], name, i - 1);
    }
  }

  /** Every node of both default templates is a string, array, object or `__list` node with an item. */
  lemma DefaultsWellFormed()
    ensures WellFormed(DefaultUserTemplate) && WellFormed(DefaultGroupTemplate)
  {
  }

  /** Both default templates are what a parsed configuration can hold: distinct keys, none of them `__list`. */
  lemma DefaultsFromConfig()
    ensures FromConfig(DefaultUserTemplate) && FromConfig(DefaultGroupTemplate)
  {
    UserFromConfig();
    GroupFromConfig();
  }

  /** The keys of the default group template, in order. */
  const GroupKeys: seq<string> := ["objectClass", "cn", "description", "member"]

  lemma GroupFromConfig()
    ensures FromConfig(DefaultGroupTemplate)
  {
    var fields := DefaultGroupTemplate.fields;
    assert FieldNames(fields) == GroupKeys;
    assert forall i, j :: 0 <= i < j < |GroupKeys| ==> GroupKeys[i] != GroupKeys[j];
    assert forall i :: 0 <= i < |fields| ==> fields[i].name == GroupKeys[i];
    forall i | 0 <= i < |fields| ensures fields[i].name != "__list" && FromConfig(fields[i].tmpl) {
      assert fields[i].name == GroupKeys[i];
    }
  }

  lemma UserFromConfig()
    ensures FromConfig(DefaultUserTemplate)
  {
    var fields := DefaultUserTemplate.fields;
    UserNamesDistinct();
    forall i | 0 <= i < |fields| ensures fields[i].name != "__list" && FromConfig(fields[i].tmpl) {
      UserFieldFromConfig(i);
    }
  }

  /** The keys of the default user template, in order. */
  const UserKeys: seq<string> := ["objectClass", "cn", "displayName", "givenName", "sn", "mail", "employeeNumber", "uid", "memberOf"]

  lemma UserKeysAre()
    ensures FieldNames(DefaultUserTemplate.fields) == UserKeys
  {
  }

  lemma UserKeysDistinct()
    ensures forall i, j :: 0 <= i < j < |UserKeys| ==> UserKeys[i] != UserKeys[j]
  {
  }

  /** The user template's keys are pairwise distinct. */
  lemma UserNamesDistinct()
    ensures var fields := DefaultUserTemplate.fields;
            forall i, j :: 0 <= i < j < |fields| ==> fields[i].name != fields[j].name
  {
    UserKeysAre();
    UserKeysDistinct();
    var fields := DefaultUserTemplate.fields;
    assert forall i :: 0 <= i < |fields| ==> fields[i].name == UserKeys[i];
  }

  lemma UserFieldFromConfig(i: nat)
    requires i < |DefaultUserTemplate.fields|
    ensures DefaultUserTemplate.fields[i].name != "__list" && FromConfig(DefaultUserTemplate.fields[i].tmpl)
  {
  }

  /** An array of plain strings renders to those strings. */
  lemma LitsRender(ss: seq<string>, view: Value)
    ensures Interpolate(Array(Lits(ss)), view) == Success(RArray(Strs(ss)))
  {
    InterpolateArray(Lits(ss), view);
    forall k | 0 <= k < |ss| ensures Interpolate(Lits(ss)[k], view) == Success(Strs(ss)[k]) {
      RenderLiteral(ss[k], view);
    }
    var r := Interpolate(Array(Lits(ss)), view);
    assert r.value.items == Strs(ss);
  }

  /** The fixed object classes render to themselves. */
  lemma UserClassesRender(view: Value)
    ensures Interpolate(DefaultUserTemplate.fields[0].tmpl, view)
         == Success(RArray([RString("top"), RString("person"), RString("organizationalPerson"), RString("inetOrgPerson")]))
  {
    assert DefaultUserTemplate.fields[0].tmpl == Array(Lits(UserObjectClasses));
    LitsRender(UserObjectClasses, view);
    assert Strs(UserObjectClasses)
        == [RString("top"), RString("person"), RString("organizationalPerson"), RString("inetOrgPerson")];
  }

  /** Every field of the user template but `memberOf` is a string or the fixed class list, so it renders. */
  lemma UserFieldRenders(i: nat, view: Value)
    requires i < 8
    ensures Interpolate(DefaultUserTemplate.fields[i].tmpl, view).Success?
  {
    if i == 0 {
      UserClassesRender(view);
    } else {
      assert DefaultUserTemplate.fields[i].tmpl.Text?;
    }
  }

  /** An object whose other fields always render renders exactly when field `k` does. */
  lemma RendersWithField(fields: seq<Field>, k: nat, view: Value)
    requires k < |fields|
    requires forall i :: 0 <= i < |fields| && i != k ==> Interpolate(fields[i].tmpl, view).Success?
    ensures Interpolate(Object(fields), view).Success? <==> Interpolate(fields[k].tmpl, view).Success?
  {
    InterpolateObject(fields, view);
  }

  /** A `{{{item.dn}}}` list renders exactly when its source is missing, falsy or an array. */
  lemma DnListRenders(source: string, view: Value)
    ensures Interpolate(List(source, Some(Placeholder(["item", "dn"]))), view).Success? <==> ListElements(source, view).Success?
  {
    if ListElements(source, view).Success? {
      DnList(source, view);
    } else {
      InterpolateList(source, Placeholder(["item", "dn"]), view);
    }
  }

  /** Field `k` of a rendered object is what its template renders. */
  lemma FieldValue(fields: seq<Field>, view: Value, k: nat)
    requires Interpolate(Object(fields), view).Success? && k < |fields|
    ensures var attrs := Interpolate(Object(fields), view).value.attrs;
            k < |attrs| && Interpolate(fields[k].tmpl, view) == Success(attrs[k].val)
  {
    InterpolateObject(fields, view);
  }

  /** The user template: eight fields that always render, then the `memberOf` list. */
  lemma UserFieldsAre(view: Value)
    ensures DefaultUserTemplate.Object?
    ensures var fields := DefaultUserTemplate.fields;
            && |fields| == 9
            && (forall i :: 0 <= i < 8 ==> Interpolate(fields[i].tmpl, view).Success?)
            && fields[8].tmpl == List("groups", Some(Placeholder(["item", "dn"])))
  {
    forall i | 0 <= i < 8 ensures Interpolate(DefaultUserTemplate.fields[i].tmpl, view).Success? {
      UserFieldRenders(i, view);
    }
  }

  /** The user template fails only when `groups` is truthy but not an array. */
  lemma DefaultUserRenders(view: Value)
    ensures Interpolate(DefaultUserTemplate, view).Success? <==> ListElements("groups", view).Success?
  {
    UserFieldsAre(view);
    RendersWithField(DefaultUserTemplate.fields, 8, view);
    DnListRenders("groups", view);
  }

  /** The group template: three strings, then the `member` list. */
  lemma GroupFieldsAre()
    ensures DefaultGroupTemplate.Object?
    ensures var fields := DefaultGroupTemplate.fields;
            && |fields| == 4
            && fields[0].tmpl.Text? && fields[1].tmpl.Text? && fields[2].tmpl.Text?
            && fields[3].tmpl == List("members", Some(Placeholder(["item", "dn"])))
  {
  }

  /** The group template fails only when `members` is truthy but not an array. */
  lemma DefaultGroupRenders(view: Value)
    ensures Interpolate(DefaultGroupTemplate, view).Success? <==> ListElements("members", view).Success?
  {
    var fields := DefaultGroupTemplate.fields;
    GroupFieldsAre();
    forall i | 0 <= i < |fields| && i != 3 ensures Interpolate(fields[i].tmpl, view).Success? {
      assert fields[i].tmpl.Text?;
    }
    RendersWithField(fields, 3, view);
    DnListRenders("members", view);
  }

  /** The rendered `dn` of each element, the items of a `{{{item.dn}}}` list. */
  function DnItems(elements: seq<Value>): seq<Rendered>
  {
    seq(|elements|, i requires 0 <= i < |elements| => RString(Shown(Get(elements[i], "dn"))))
  }

  /** A `{{{item.dn}}}` list renders the `dn` of each element, in order. */
  lemma DnList(source: string, view: Value)
    requires ListElements(source, view).Success?
    ensures Interpolate(List(source, Some(Placeholder(["item", "dn"]))), view)
         == Success(RArray(DnItems(ListElements(source, view).value)))
  {
    var elements := ListElements(source, view).value;
    forall i | 0 <= i < |elements|
      ensures Interpolate(Placeholder(["item", "dn"]), ItemView(elements[i])) == Success(DnItems(elements)[i])
    {
      RenderPlaceholder(["item", "dn"], ItemView(elements[i]));
      ItemPath(elements[i], "dn");
    }
    InterpolateList(source, Placeholder(["item", "dn"]), view);
    var r := Interpolate(List(source, Some(Placeholder(["item", "dn"]))), view);
    RenderedFits(List(source, Some(Placeholder(["item", "dn"]))), view);
    assert r.value.items == DnItems(elements);
  }

  /** `cn` and `displayName` share one template; `mail` and `uid` are single placeholders. */
  lemma UserFieldShapes()
    ensures var fields := DefaultUserTemplate.fields;
            && |fields| == 9
            && fields[1].tmpl == fields[2].tmpl
            && fields[5].tmpl == Placeholder(["profile", "email"])
            && fields[7].tmpl == Placeholder(["shortName"])
  {
  }

  /** The default user template's attributes, position by position. */
  lemma UserAttrsAt(view: Value)
    requires ListElements("groups", view).Success?
    ensures Interpolate(DefaultUserTemplate, view).Success?
    ensures var attrs := Interpolate(DefaultUserTemplate, view).value.attrs;
            && |attrs| == 9
            && AttrNames(attrs) == FieldNames(DefaultUserTemplate.fields)
            && attrs[0].val
               == RArray([RString("top"), RString("person"), RString("organizationalPerson"), RString("inetOrgPerson")])
            && attrs[1].val == attrs[2].val
            && attrs[5].val == RString(Shown(GetPath(view, ["profile", "email"])))
            && attrs[7].val == RString(Shown(Get(view, "shortName")))
            && attrs[8].val == RArray(DnItems(ListElements("groups", view).value))
  {
    UserFieldsAre(view);
    DefaultUserRenders(view);
    var fields := DefaultUserTemplate.fields;
    assert DefaultUserTemplate == Object(fields);
    FieldValue(fields, view, 0);
    UserClassesRender(view);
    UserFieldShapes();
    FieldValue(fields, view, 1);
    FieldValue(fields, view, 2);
    FieldValue(fields, view, 5);
    RenderPlaceholder(["profile", "email"], view);
    FieldValue(fields, view, 7);
    RenderPlaceholder(["shortName"], view);
    GetPathOne(view, "shortName");
    FieldValue(fields, view, 8);
    DnList("groups", view);
  }

  /** The user template renders its attributes under the template's own names. */
  lemma UserAttrNames(view: Value)
    requires ListElements("groups", view).Success?
    ensures Interpolate(DefaultUserTemplate, view).Success?
    ensures var attrs := Interpolate(DefaultUserTemplate, view).value.attrs;
            |attrs| == 9 && forall j :: 0 <= j < 9 ==> attrs[j].name == DefaultUserTemplate.fields[j].name
  {
    UserAttrsAt(view);
    var fields := DefaultUserTemplate.fields;
    var attrs := Interpolate(DefaultUserTemplate, view).value.attrs;
    forall j | 0 <= j < 9 ensures attrs[j].name == fields[j].name {
      assert AttrNames(attrs)[j] == FieldNames(fields)[j];
    }
  }

  /** The user template's attribute names are distinct, so each is found at its own position. */
  lemma UserAttrOf(attrs: seq<Attr>, k: nat)
    requires |attrs| == 9 && forall j :: 0 <= j < 9 ==> attrs[j].name == DefaultUserTemplate.fields[j].name
    requires k < 9
    ensures AttrOf(RObject(attrs), DefaultUserTemplate.fields[k].name) == Some(attrs[k].val)
  {
    FindAttrAt(attrs, DefaultUserTemplate.fields[k].name, k);
  }

  /** The names of the user template's fields, in order. */
  lemma UserFieldNames()
    ensures var fields := DefaultUserTemplate.fields;
            && fields[0].name == "objectClass" && fields[1].name == "cn" && fields[2].name == "displayName"
            && fields[5].name == "mail" && fields[7].name == "uid" && fields[8].name == "memberOf"
  {
  }

  /**
   * What the default user template renders: the fixed object classes, `cn` equal
   * to `displayName`, `uid` from `shortName`, and `memberOf` holding the `dn` of
   * every group in `groups`, in order.
   */
  lemma DefaultUserAttributes(view: Value)
    requires ListElements("groups", view).Success?
    ensures Interpolate(DefaultUserTemplate, view).Success?
    ensures var r := Interpolate(DefaultUserTemplate, view).value;
            && AttrOf(r, "objectClass")
               == Some(RArray([RString("top"), RString("person"), RString("organizationalPerson"), RString("inetOrgPerson")]))
            && AttrOf(r, "cn").Some?
            && AttrOf(r, "cn") == AttrOf(r, "displayName")
            && AttrOf(r, "uid") == Some(RString(Shown(Get(view, "shortName"))))
            && AttrOf(r, "mail") == Some(RString(Shown(GetPath(view, ["profile", "email"]))))
            && AttrOf(r, "memberOf") == Some(RArray(DnItems(ListElements("groups", view).value)))
  {
    UserAttrsAt(view);
    UserAttrNames(view);
    var r := Interpolate(DefaultUserTemplate, view).value;
    var attrs := r.attrs;
    UserFieldNames();
    UserAttrOf(attrs, 0);
    UserAttrOf(attrs, 1);
    UserAttrOf(attrs, 2);
    UserAttrOf(attrs, 5);
    UserAttrOf(attrs, 7);
    UserAttrOf(attrs, 8);
  }

  /** The default group template's attributes, position by position. */
  lemma GroupAttrsAt(view: Value)
    requires ListElements("members", view).Success?
    ensures Interpolate(DefaultGroupTemplate, view).Success?
    ensures var attrs := Interpolate(DefaultGroupTemplate, view).value.attrs;
            && |attrs| == 4
            && (forall j :: 0 <= j < 4 ==> attrs[j].name == DefaultGroupTemplate.fields[j].name)
            && attrs[0].val == RString("groupOfNames")
            && attrs[1].val == RString(Shown(GetPath(view, ["profile", "name"])))
            && attrs[3].val == RArray(DnItems(ListElements("members", view).value))
  {
    DefaultGroupRenders(view);
    var fields := DefaultGroupTemplate.fields;
    InterpolateObject(fields, view);
    var attrs := Interpolate(DefaultGroupTemplate, view).value.attrs;
    RenderLiteral("groupOfNames", view);
    RenderPlaceholder(["profile", "name"], view);
    assert fields[3].tmpl == List("members", Some(Placeholder(["item", "dn"])));
    DnList("members", view);
  }

  /** The group template's attribute names are distinct, so each is found at its own position. */
  lemma GroupAttrOf(attrs: seq<Attr>, k: nat)
    requires |attrs| == 4 && forall j :: 0 <= j < 4 ==> attrs[j].name == DefaultGroupTemplate.fields[j].name
    requires k < 4
    ensures AttrOf(RObject(attrs), DefaultGroupTemplate.fields[k].name) == Some(attrs[k].val)
  {
    FindAttrAt(attrs, DefaultGroupTemplate.fields[k].name, k);
  }

  /**
   * What the default group template renders: the single object class
   * `groupOfNames`, `cn` from the group name, and `member` holding the `dn` of
   * every element of `members`, in order.
   */
  lemma DefaultGroupAttributes(view: Value)
    requires ListElements("members", view).Success?
    ensures Interpolate(DefaultGroupTemplate, view).Success?
    ensures var r := Interpolate(DefaultGroupTemplate, view).value;
            && AttrOf(r, "objectClass") == Some(RString("groupOfNames"))
            && AttrOf(r, "cn") == Some(RString(Shown(GetPath(view, ["profile", "name"]))))
            && AttrOf(r, "member") == Some(RArray(DnItems(ListElements("members", view).value)))
  {
    GroupAttrsAt(view);
    var r := Interpolate(DefaultGroupTemplate, view).value;
    var attrs := r.attrs;
    assert AttrOf(r, "objectClass") == Some(RString("groupOfNames")) by {
      GroupAttrOf(attrs, 0);
    }
    assert AttrOf(r, "cn") == Some(RString(Shown(GetPath(view, ["profile", "name"])))) by {
      GroupAttrOf(attrs, 1);
    }
    assert AttrOf(r, "member") == Some(RArray(DnItems(ListElements("members", view).value))) by {
      GroupAttrOf(attrs, 3);
    }
  }
}
