/**
 * Attribute templates and their rendering (`interpolateObject` in app.js): a
 * template is a tree of arrays, plain objects, `__list` expansion nodes and
 * mustache strings, rendered against a view object into directory attributes.
 */
module Template {
  import opened Results
  import opened Json
  import Mustache

  /**
   * A template as it appears in the configuration. An object holding a `__list`
   * key is a `List` node: it expands the array named by `source` and renders
   * `item` (absent when the object has no `item` key) once per element; its other
   * keys play no part. Any other JSON scalar (number, boolean, null) is `Scalar`.
   * The datatype admits more than a configuration can hold; `FromConfig` says what.
   */
  datatype Template =
    | Text(text: Mustache.Text)
    | Array(items: seq<Template>)
    | Object(fields: seq<Field>)
    | List(source: string, item: Option<Template>)
    | Scalar(kind: string, shown: string)

  datatype Field = Field(name: string, tmpl: Template)

  /** A rendered value: what a directory entry's attributes are made of. */
  datatype Rendered =
    | RString(s: string)
    | RArray(items: seq<Rendered>)
    | RObject(attrs: seq<Attr>)

  datatype Attr = Attr(name: string, val: Rendered)

  datatype TemplateError =
    /** A template node of a type the renderer does not know. */
    | UnexpectedType(kind: string, shown: string)
    /** A `__list` source that is truthy but not an array, so it has no `map`. */
    | NotAnArray(source: string)

  function FieldNames(fields: seq<Field>): seq<string>
  {
    seq(|fields|, i requires 0 <= i < |fields| => fields[i].name)
  }

  function AttrNames(attrs: seq<Attr>): seq<string>
  {
    seq(|attrs|, i requires 0 <= i < |attrs| => attrs[i].name)
  }

  /** The value of the first attribute called `name`. */
  function AttrOf(r: Rendered, name: string): Option<Rendered>
  {
    if !r.RObject? then None else FindAttr(r.attrs, name)
  }

  function FindAttr(attrs: seq<Attr>, name: string): (r: Option<Rendered>)
    ensures r.None? <==> name !in AttrNames(attrs)
    ensures r.Some? ==> exists i :: 0 <= i < |attrs| && attrs[i] == Attr(name, r.value)
  {
    if |attrs| == 0 then None
    else if attrs[0].name == name then
      assert AttrNames(attrs)[0] == name;
      Some(attrs[0].val)
    else
      var r := FindAttr(attrs[1..], name);
      assert AttrNames(attrs) == [attrs[0].name] + AttrNames(attrs[1..]);
      assert r.Some? ==> exists i :: 0 <= i < |attrs[1..]| && attrs[1..][i] == Attr(name, r.value);
      r
  }

  /** `values[source] || []`, then `.map`: the elements a `__list` node expands. */
  function ListElements(source: string, values: Value): (r: Result<seq<Value>, TemplateError>)
    ensures !Truthy(Get(values, source)) ==> r == Success([])
    ensures Get(values, source).Some? && Get(values, source).value.Arr? ==> r == Success(Get(values, source).value.elems)
    ensures r.Failure? <==> Truthy(Get(values, source)) && !Get(values, source).value.Arr?
  {
    var v := Get(values, source);
    if !Truthy(v) then Success([])
    else if v.value.Arr? then Success(v.value.elems)
    else Failure(NotAnArray(source))
  }

  /** The fresh view `{item: element}` each list item is rendered against. */
  function ItemView(element: Value): Value
  {
    Obj([Prop("item", element)])
  }

  /** `interpolateObject(template, values)`. */
  function Interpolate(t: Template, values: Value): (r: Result<Rendered, TemplateError>)
    ensures t.Scalar? ==> r == Failure(UnexpectedType(t.kind, t.shown))
    ensures t.Text? ==> r == Success(RString(Mustache.Render(t.text, values)))
    ensures r.Success? && t.Array? ==> r.value.RArray? && |r.value.items| == |t.items|
    ensures r.Success? && t.Object? ==> r.value.RObject? && AttrNames(r.value.attrs) == FieldNames(t.fields)
    ensures r.Success? && t.List? ==>
              && r.value.RArray?
              && ListElements(t.source, values).Success?
              && |r.value.items| == |ListElements(t.source, values).value|
  {
    match t
    case Text(text) => Success(RString(Mustache.Render(text, values)))
    case Array(items) =>
      var rs :- Collect(seq(|items|, i requires 0 <= i < |items| => Interpolate(items[i], values)));
      Success(RArray(rs))
    case Object(fields) =>
      var rs :- Collect(seq(|fields|, i requires 0 <= i < |fields| => Interpolate(fields[i].tmpl, values)));
      Success(RObject(seq(|fields|, i requires 0 <= i < |fields| => Attr(fields[i].name, rs[i]))))
    case List(source, item) =>
      var elements :- ListElements(source, values);
      if |elements| == 0 then Success(RArray([]))
      else if item.None? then Failure(UnexpectedType("undefined", "undefined"))
      else
        var rs :- Collect(seq(|elements|, i requires 0 <= i < |elements| => Interpolate(item.value, ItemView(elements[i]))));
        Success(RArray(rs))
    case Scalar(kind, shown) => Failure(UnexpectedType(kind, shown))
  }

  /** The rendered value has the template's shape, node for node. */
  predicate Fits(t: Template, r: Rendered)
  {
    match t
    case Text(_) => r.RString?
    case Array(items) =>
      && r.RArray?
      && |r.items| == |items|
      && forall i :: 0 <= i < |items| ==> Fits(items[i], r.items[i])
    case Object(fields) =>
      && r.RObject?
      && AttrNames(r.attrs) == FieldNames(fields)
      && forall i :: 0 <= i < |fields| ==> Fits(fields[i].tmpl, r.attrs[i].val)
    case List(_, item) =>
      && r.RArray?
      && (item.None? ==> r.items == [])
      && forall i :: 0 <= i < |r.items| ==> item.Some? && Fits(item.value, r.items[i])
    case Scalar(_, _) => false
  }

  /** Built only from strings, arrays, objects and `__list` nodes that carry an `item`. */
  predicate WellFormed(t: Template)
  {
    match t
    case Text(_) => true
    case Array(items) => forall i :: 0 <= i < |items| ==> WellFormed(items[i])
    case Object(fields) => forall i :: 0 <= i < |fields| ==> WellFormed(fields[i].tmpl)
    case List(_, item) => item.Some? && WellFormed(item.value)
    case Scalar(_, _) => false
  }

  /**
   * A template a parsed configuration can hold: a JSON object has each key once,
   * and an object with a `__list` key is read as a `List` node, so no `Object`
   * node carries that key.
   */
  predicate FromConfig(t: Template)
  {
    match t
    case Text(_) => true
    case Array(items) => forall i :: 0 <= i < |items| ==> FromConfig(items[i])
    case Object(fields) =>
      && (forall i :: 0 <= i < |fields| ==> fields[i].name != "__list" && FromConfig(fields[i].tmpl))
      && (forall i, j :: 0 <= i < j < |fields| ==> fields[i].name != fields[j].name)
    case List(_, item) => item.None? || FromConfig(item.value)
    case Scalar(_, _) => true
  }

  /** Free of variables and of `__list` nodes: the same output for every view. */
  predicate Closed(t: Template)
  {
    match t
    case Text(text) => Mustache.Static(text)
    case Array(items) => forall i :: 0 <= i < |items| ==> Closed(items[i])
    case Object(fields) => forall i :: 0 <= i < |fields| ==> Closed(fields[i].tmpl)
    case List(_, _) => false
    case Scalar(_, _) => true
  }

  /** Each item of an array rendered against the same view. */
  function ItemResults(items: seq<Template>, values: Value): (rs: seq<Result<Rendered, TemplateError>>)
    ensures |rs| == |items| && forall i :: 0 <= i < |items| ==> rs[i] == Interpolate(items[i], values)
  {
    seq(|items|, i requires 0 <= i < |items| => Interpolate(items[i], values))
  }

  lemma ArrayCollects(items: seq<Template>, values: Value)
    ensures var c := Collect(ItemResults(items, values));
            Interpolate(Array(items), values) == if c.Success? then Success(RArray(c.value)) else Failure(c.error)
  {
  }

  /** Arrays render element by element against the same view; the first failing element fails the array. */
  lemma InterpolateArray(items: seq<Template>, values: Value)
    ensures Interpolate(Array(items), values).Success? <==>
              forall i :: 0 <= i < |items| ==> Interpolate(items[i], values).Success?
    ensures Interpolate(Array(items), values).Success? ==>
              forall i :: 0 <= i < |items| ==>
                Interpolate(items[i], values) == Success(Interpolate(Array(items), values).value.items[i])
    ensures Interpolate(Array(items), values).Failure? ==>
              exists i :: 0 <= i < |items| && Interpolate(items[i], values) == Failure(Interpolate(Array(items), values).error)
                          && forall j :: 0 <= j < i ==> Interpolate(items[j], values).Success?
  {
    ArrayCollects(items, values);
  }

  /** Each field of an object rendered against the same view. */
  function FieldResults(fields: seq<Field>, values: Value): (rs: seq<Result<Rendered, TemplateError>>)
    ensures |rs| == |fields| && forall i :: 0 <= i < |fields| ==> rs[i] == Interpolate(fields[i].tmpl, values)
  {
    seq(|fields|, i requires 0 <= i < |fields| => Interpolate(fields[i].tmpl, values))
  }

  /** The keys of `fields` paired with rendered values. */
  function Attrs(fields: seq<Field>, vals: seq<Rendered>): (attrs: seq<Attr>)
    requires |vals| == |fields|
    ensures |attrs| == |fields| && forall i :: 0 <= i < |fields| ==> attrs[i] == Attr(fields[i].name, vals[i])
  {
    seq(|fields|, i requires 0 <= i < |fields| => Attr(fields[i].name, vals[i]))
  }

  lemma ObjectCollects(fields: seq<Field>, values: Value)
    ensures var c := Collect(FieldResults(fields, values));
            Interpolate(Object(fields), values) == if c.Success? then Success(RObject(Attrs(fields, c.value))) else Failure(c.error)
  {
  }

  /** Objects render key by key against the same view and keep exactly the template's keys, in order. */
  lemma InterpolateObject(fields: seq<Field>, values: Value)
    ensures Interpolate(Object(fields), values).Success? <==>
              forall i :: 0 <= i < |fields| ==> Interpolate(fields[i].tmpl, values).Success?
    ensures Interpolate(Object(fields), values).Success? ==>
              var attrs := Interpolate(Object(fields), values).value.attrs;
              && |attrs| == |fields|
              && forall i :: 0 <= i < |fields| ==>
                   attrs[i].name == fields[i].name && Interpolate(fields[i].tmpl, values) == Success(attrs[i].val)
    ensures Interpolate(Object(fields), values).Failure? ==>
              exists i :: 0 <= i < |fields| && Interpolate(fields[i].tmpl, values) == Failure(Interpolate(Object(fields), values).error)
                          && forall j :: 0 <= j < i ==> Interpolate(fields[j].tmpl, values).Success?
  {
    ObjectCollects(fields, values);
  }

  /**
   * A `__list` node yields one item per element of `values[source]` (none when
   * that is absent or falsy), each rendered against `{item: element}` alone.
   */
  lemma InterpolateList(source: string, item: Template, values: Value)
    ensures ListElements(source, values).Failure? ==> Interpolate(List(source, Some(item)), values).Failure?
    ensures ListElements(source, values).Success? ==>
              var elements := ListElements(source, values).value;
              && (Interpolate(List(source, Some(item)), values).Success? <==>
                    forall i :: 0 <= i < |elements| ==> Interpolate(item, ItemView(elements[i])).Success?)
              && (Interpolate(List(source, Some(item)), values).Success? ==>
                    var rs := Interpolate(List(source, Some(item)), values).value.items;
                    forall i :: 0 <= i < |elements| ==> Interpolate(item, ItemView(elements[i])) == Success(rs[i]))
  {
    var le := ListElements(source, values);
    if le.Success? {
      var elements := le.value;
      var rs := seq(|elements|, i requires 0 <= i < |elements| => Interpolate(item, ItemView(elements[i])));
      var c := Collect(rs);
      assert forall i :: 0 <= i < |elements| ==> rs[i] == Interpolate(item, ItemView(elements[i]));
      if |elements| > 0 {
        assert Interpolate(List(source, Some(item)), values) == if c.Success? then Success(RArray(c.value)) else Failure(c.error);
      }
      if c.Success? {
        assert forall i :: 0 <= i < |elements| ==> rs[i] == Success(c.value[i]);
      }
    }
  }

  /** A `__list` node reads nothing of its view but the property it expands. */
  lemma ListReadsOnlySource(source: string, item: Option<Template>, v1: Value, v2: Value)
    requires Get(v1, source) == Get(v2, source)
    ensures Interpolate(List(source, item), v1) == Interpolate(List(source, item), v2)
  {
  }

  /** Whatever renders successfully has the shape of its template. */
  lemma {:induction false} RenderedFits(t: Template, values: Value)
    ensures Interpolate(t, values).Success? ==> Fits(t, Interpolate(t, values).value)
  {
    var r := Interpolate(t, values);
    if r.Success? {
      match t
      case Text(_) =>
      case Array(items) =>
        InterpolateArray(items, values);
        forall i | 0 <= i < |items| ensures Fits(items[i], r.value.items[i]) {
          RenderedFits(items[i], values);
        }
      case Object(fields) =>
        InterpolateObject(fields, values);
        forall i | 0 <= i < |fields| ensures Fits(fields[i].tmpl, r.value.attrs[i].val) {
          RenderedFits(fields[i].tmpl, values);
        }
      case List(source, item) =>
        var elements := ListElements(source, values).value;
        if item.Some? {
          InterpolateList(source, item.value, values);
          forall i | 0 <= i < |r.value.items| ensures Fits(item.value, r.value.items[i]) {
            RenderedFits(item.value, ItemView(elements[i]));
          }
        }
      case Scalar(_, _) =>
    }
  }

  /** A well-formed template never reaches the unexpected-type branch: it can only fail on a non-array list source. */
  lemma {:induction false} WellFormedNeverUnexpected(t: Template, values: Value)
    requires WellFormed(t)
    ensures Interpolate(t, values).Failure? ==> Interpolate(t, values).error.NotAnArray?
  {
    var r := Interpolate(t, values);
    if r.Failure? {
      match t
      case Text(_) =>
      case Array(items) =>
        InterpolateArray(items, values);
        var i :| 0 <= i < |items| && Interpolate(items[i], values) == Failure(r.error);
        WellFormedNeverUnexpected(items[i], values);
      case Object(fields) =>
        var rs := seq(|fields|, i requires 0 <= i < |fields| => Interpolate(fields[i].tmpl, values));
        var c := Collect(rs);
        assert c.Failure? && c.error == r.error;
        var i :| 0 <= i < |rs| && rs[i] == Failure(c.error);
        WellFormedNeverUnexpected(fields[i].tmpl, values);
      case List(source, item) =>
        var le := ListElements(source, values);
        if le.Success? {
          var elements := le.value;
          var rs := seq(|elements|, i requires 0 <= i < |elements| => Interpolate(item.value, ItemView(elements[i])));
          var c := Collect(rs);
          assert c.Failure? && c.error == r.error;
          var i :| 0 <= i < |rs| && rs[i] == Failure(c.error);
          WellFormedNeverUnexpected(item.value, ItemView(elements[i]));
        }
    }
  }

  /** A closed template renders the same against every view. */
  lemma {:induction false} ClosedIsConstant(t: Template, v1: Value, v2: Value)
    requires Closed(t)
    ensures Interpolate(t, v1) == Interpolate(t, v2)
  {
    match t
    case Text(text) =>
      Mustache.RenderStatic(text, v1);
      Mustache.RenderStatic(text, v2);
    case Array(items) =>
      forall i | 0 <= i < |items| ensures Interpolate(items[i], v1) == Interpolate(items[i], v2) {
        ClosedIsConstant(items[i], v1, v2);
      }
      SameItems(items, v1, v2);
    case Object(fields) =>
      forall i | 0 <= i < |fields| ensures Interpolate(fields[i].tmpl, v1) == Interpolate(fields[i].tmpl, v2) {
        ClosedIsConstant(fields[i].tmpl, v1, v2);
      }
      SameFields(fields, v1, v2);
    case Scalar(_, _) =>
  }

  /** An array renders alike against two views when each of its items does. */
  lemma SameItems(items: seq<Template>, v1: Value, v2: Value)
    requires forall i :: 0 <= i < |items| ==> Interpolate(items[i], v1) == Interpolate(items[i], v2)
    ensures Interpolate(Array(items), v1) == Interpolate(Array(items), v2)
  {
    ArrayCollects(items, v1);
    ArrayCollects(items, v2);
    assert ItemResults(items, v1) == ItemResults(items, v2);
  }

  /** An object renders alike against two views when each of its fields does. */
  lemma SameFields(fields: seq<Field>, v1: Value, v2: Value)
    requires forall i :: 0 <= i < |fields| ==> Interpolate(fields[i].tmpl, v1) == Interpolate(fields[i].tmpl, v2)
    ensures Interpolate(Object(fields), v1) == Interpolate(Object(fields), v2)
  {
    ObjectCollects(fields, v1);
    ObjectCollects(fields, v2);
    assert FieldResults(fields, v1) == FieldResults(fields, v2);
  }
}
