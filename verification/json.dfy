/**
 * JSON-like values: the Okta records, and the view objects the attribute
 * templates are rendered against. Property lookup, truthiness and the
 * conversion to text follow JavaScript.
 */
module Json {
  import opened Results
  import Strings

  datatype Value =
    | Null
    | Bool(b: bool)
    | Num(n: int)
    | Str(s: string)
    | Arr(elems: seq<Value>)
    | Obj(props: seq<Prop>)

  datatype Prop = Prop(key: string, val: Value)

  /** The value of the first property named `key`; `None` stands for `undefined`. */
  function Find(props: seq<Prop>, key: string): (r: Option<Value>)
    ensures r.None? <==> forall i :: 0 <= i < |props| ==> props[i].key != key
    ensures r.Some? ==>
              exists i :: 0 <= i < |props| && props[i] == Prop(key, r.value) && forall j :: 0 <= j < i ==> props[j].key != key
  {
    if |props| == 0 then None
    else if props[0].key == key then Some(props[0].val)
    else match Find(props[1..], key)
      case None => None
      case Some(v) =>
        assert props[1..][0] == props[1];
        Some(v)
  }

  /** `v[key]`: only objects carry properties here. */
  function Get(v: Value, key: string): Option<Value>
  {
    if v.Obj? then Find(v.props, key) else None
  }

  /** A dotted lookup `v.a.b.c`, `undefined` as soon as a step is missing. */
  function GetPath(v: Value, path: seq<string>): Option<Value>
    decreases |path|
  {
    if |path| == 0 then Some(v)
    else match Get(v, path[0])
      case None => None
      case Some(w) => GetPath(w, path[1..])
  }

  /** JavaScript truthiness of a possibly undefined value. */
  predicate Truthy(v: Option<Value>)
  {
    match v
    case None => false
    case Some(Null) => false
    case Some(Bool(b)) => b
    case Some(Num(n)) => n != 0
    case Some(Str(s)) => s != ""
    case Some(Arr(_)) => true
    case Some(Obj(_)) => true
  }

  /** Decimal text of a natural number. */
  function NatText(n: nat): string
  {
    var digit := ['0' + (n % 10) as char];
    if n < 10 then digit else NatText(n / 10) + digit
  }

  function IntText(n: int): string
  {
    if n < 0 then "-" + NatText(-n) else NatText(n)
  }

  /**
   * The text a value contributes when appended to a string. `null` contributes
   * nothing (mustache skips it, and `join` writes nothing for it inside an array).
   */
  function Display(v: Value): string
  {
    match v
    case Null => ""
    case Bool(b) => if b then "true" else "false"
    case Num(n) => IntText(n)
    case Str(s) => s
    case Arr(es) => Strings.Join(seq(|es|, i requires 0 <= i < |es| => Display(es[i])), ",")
    case Obj(_) => "[object Object]"
  }

  /** Strings as JSON values. */
  function StrValues(ss: seq<string>): (vs: seq<Value>)
    ensures |vs| == |ss| && forall i :: 0 <= i < |ss| ==> vs[i] == Str(ss[i])
  {
    seq(|ss|, i requires 0 <= i < |ss| => Str(ss[i]))
  }

  /**
   * An array of strings displays as the strings joined with commas, so when no
   * string holds a comma, splitting the text at commas gives them back.
   */
  lemma DisplayStrings(ss: seq<string>)
    requires |ss| >= 1 && forall i :: 0 <= i < |ss| ==> ',' !in ss[i]
    ensures Strings.Split(Display(Arr(StrValues(ss))), ',') == ss
  {
    var vs := StrValues(ss);
    var shown := seq(|vs|, i requires 0 <= i < |vs| => Display(vs[i]));
    assert shown == ss;
    assert Display(Arr(vs)) == Strings.Join(ss, [',']);
    Strings.SplitJoin(ss, ',');
  }

  /** A two-element array shows as its elements joined by one comma. */
  lemma DisplayPair(x: Value, y: Value)
    ensures Display(Arr([x, y])) == Display(x) + "," + Display(y)
  {
    var a := [x, y];
    var shown := seq(|a|, i requires 0 <= i < |a| => Display(a[i]));
    assert shown == [Display(x), Display(y)];
    assert shown[1..] == [Display(y)];
    assert Display(Arr(a)) == Strings.Join(shown, ",");
    assert Strings.Join(shown, ",") == Display(x) + "," + Strings.Join([Display(y)], ",");
  }

  /**
   * Inside an array, `null` contributes an empty piece and a nested array is
   * flattened into the same comma-separated text; an object shows as
   * `[object Object]`.
   */
  lemma DisplayPieces(v: Value, inner: seq<Value>)
    ensures Display(Arr([Null, v])) == "," + Display(v)
    ensures Display(Arr([Arr(inner), v])) == Display(Arr(inner)) + "," + Display(v)
    ensures Display(Arr([Obj([])])) == "[object Object]"
  {
    DisplayPair(Null, v);
    DisplayPair(Arr(inner), v);
    var c := [Obj([])];
    assert seq(|c|, i requires 0 <= i < |c| => Display(c[i])) == ["[object Object]"];
  }
}
