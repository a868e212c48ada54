/**
 * The subset of mustache the attribute templates use: literal text and
 * triple-brace variables `{{{a.b}}}`, which insert the looked-up value without
 * escaping. A template text is kept already split into its segments.
 */
module Mustache {
  import opened Results
  import opened Json
  import Strings

  datatype Segment =
    | Literal(text: string)
    | Variable(path: seq<string>)

  type Text = seq<Segment>

  /** One segment: a variable whose path is missing renders as the empty string. */
  function RenderSegment(seg: Segment, view: Value): string
  {
    match seg
    case Literal(text) => text
    case Variable(path) =>
      match GetPath(view, path)
      case None => ""
      case Some(v) => Display(v)
  }

  /** `mustache.render(text, view)`. */
  function Render(t: Text, view: Value): string
  {
    if |t| == 0 then "" else RenderSegment(t[0], view) + Render(t[1..], view)
  }

  /** The template as it is written in the configuration. */
  function Source(t: Text): string
  {
    if |t| == 0 then ""
    else
      var head := match t[0]
        case Literal(text) => text
        case Variable(path) => "{{{" + Strings.Join(path, ".") + "}}}";
      head + Source(t[1..])
  }

  /** A text without variables. */
  predicate Static(t: Text)
  {
    forall i :: 0 <= i < |t| ==> t[i].Literal?
  }

  /** Two views that agree on every variable path of `t`. */
  predicate AgreeOn(t: Text, v1: Value, v2: Value)
  {
    forall i :: 0 <= i < |t| && t[i].Variable? ==> GetPath(v1, t[i].path) == GetPath(v2, t[i].path)
  }

  /** A text without variables renders to its own source, whatever the view. */
  lemma {:induction false} RenderStatic(t: Text, view: Value)
    requires Static(t)
    ensures Render(t, view) == Source(t)
  {
    if |t| > 0 {
      RenderStatic(t[1..], view);
    }
  }

  /** Rendering reads the view only through the variables' paths. */
  lemma {:induction false} RenderAgrees(t: Text, v1: Value, v2: Value)
    requires AgreeOn(t, v1, v2)
    ensures Render(t, v1) == Render(t, v2)
  {
    if |t| > 0 {
      RenderAgrees(t[1..], v1, v2);
    }
  }

  /** A text that is one variable renders to the text of the value found there, or to nothing. */
  lemma RenderVariable(path: seq<string>, view: Value)
    ensures Render([Variable(path)], view) == (if GetPath(view, path).Some? then Display(GetPath(view, path).value) else "")
  {
    assert [Variable(path)][1..] == [];
  }

  /** Segments render left to right: a text split anywhere renders as its two parts, joined. */
  lemma {:induction false} RenderAppend(a: Text, b: Text, view: Value)
    ensures Render(a + b, view) == Render(a, view) + Render(b, view)
  {
    if |a| == 0 {
      assert a + b == b;
    } else {
      assert (a + b)[0] == a[0] && (a + b)[1..] == a[1..] + b;
      RenderAppend(a[1..], b, view);
    }
  }
}
