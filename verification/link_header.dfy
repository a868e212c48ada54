/**
 * Finding the next-page URL in an HTTP `Link` header (`getNext` in okta.js):
 * the leftmost match of `<(http[^>]+)>; rel="next"`.
 */
module LinkHeader {
  import opened Results
  import Strings

  const NextRel: string := "; rel=\"next\""
  const RelOpen: string := "; rel=\""

  predicate StartsWith(s: string, prefix: string)
  {
    |prefix| <= |s| && s[..|prefix|] == prefix
  }

  /**
   * The pattern matched at the start of `s`. `[^>]+` runs up to the first `>`,
   * so the URL ends there, must be longer than "http", and must be followed by
   * `; rel="next"`.
   */
  function MatchHere(s: string): (r: Option<string>)
    ensures r.Some? ==> StartsWith(r.value, "http") && |r.value| > 4 && '>' !in r.value
    ensures r.Some? ==> StartsWith(s, "<" + r.value + ">" + NextRel)
  {
    if |s| < 5 || s[0] != '<' || s[1..5] != "http" then None
    else match Strings.IndexOf(s[5..], '>')
      case None => None
      case Some(k) =>
        if k >= 1 && StartsWith(s[5 + k + 1..], NextRel) then
          var url := s[1..5 + k];
          assert url[..4] == "http";
          assert url[4..] == s[5..][..k];
          assert s[..|url| + 2 + |NextRel|] == "<" + url + ">" + NextRel;
          Some(url)
        else None
  }

  /** The leftmost match at position `i` or later. */
  function Scan(s: string, i: nat): (r: Option<string>)
    ensures r.Some? ==> StartsWith(r.value, "http") && |r.value| > 4 && '>' !in r.value
    decreases |s| - i
  {
    if i >= |s| then None
    else if MatchHere(s[i..]).Some? then MatchHere(s[i..])
    else Scan(s, i + 1)
  }

  /** `getNext`: no header, an empty header, or no match yield null. */
  function NextLink(link: Option<string>): (r: Option<string>)
    ensures link.None? || link == Some("") ==> r.None?
    ensures r.Some? ==> StartsWith(r.value, "http") && |r.value| > 4 && '>' !in r.value
  {
    if link.None? || link.value == "" then None else Scan(link.value, 0)
  }

  /** One `<url>; rel="…"` entry of a header. */
  datatype LinkEntry = LinkEntry(url: string, rel: string)

  /** An entry as a server writes it, and its well-formedness: an http URL and plain text around it. */
  function EntryText(e: LinkEntry): string
  {
    "<" + e.url + ">; rel=\"" + e.rel + "\""
  }

  predicate WellFormedEntry(e: LinkEntry)
  {
    && StartsWith(e.url, "http") && |e.url| > 4
    && '<' !in e.url && '>' !in e.url
    && '<' !in e.rel && '"' !in e.rel
  }

  /** A header listing entries, separated by ", ". */
  function HeaderText(es: seq<LinkEntry>): string
  {
    if |es| == 0 then ""
    else if |es| == 1 then EntryText(es[0])
    else EntryText(es[0]) + ", " + HeaderText(es[1..])
  }

  /** The URL of the first entry whose relation is exactly `next`. */
  function FirstNext(es: seq<LinkEntry>): Option<string>
  {
    if |es| == 0 then None
    else if es[0].rel == "next" then Some(es[0].url)
    else FirstNext(es[1..])
  }

  /** A bracketed http URL matches exactly when `; rel="next"` follows its closing bracket. */
  lemma BracketedMatch(url: string, tail: string)
    requires StartsWith(url, "http") && |url| > 4 && '>' !in url
    ensures MatchHere("<" + url + ">" + tail) == if StartsWith(tail, NextRel) then Some(url) else None
  {
    var s := "<" + url + ">" + tail;
    var n := |url|;
    var body := url[4..];
    assert '>' !in body by {
      forall t | 0 <= t < |body| ensures body[t] != '>' {
        assert body[t] == url[t + 4];
      }
    }
    assert s[5..] == body + ['>'] + tail;
    Strings.IndexOfAfter(body, '>', tail);
    assert s[1..5] == url[..4];
    assert s[n + 2..] == tail;
    assert s[1..n + 1] == url;
  }

  /** A relation free of quotes that is followed by `"` and starts `next"` is `next`. */
  lemma QuotedNext(rel: string, rest: string)
    requires '"' !in rel
    requires StartsWith(rel + "\"" + rest, "next\"")
    ensures rel == "next"
  {
    var x := rel + "\"" + rest;
    Strings.IndexOfAfter(rel, '"', rest);
    assert x == "next" + "\"" + x[5..];
    Strings.IndexOfAfter("next", '"', x[5..]);
    assert rel == x[..4];
  }

  /** The text after an entry's bracket starts with `; rel="next"` exactly when the relation is `next`. */
  lemma RelIsNext(rel: string, rest: string)
    requires '"' !in rel
    ensures StartsWith(RelOpen + rel + "\"" + rest, NextRel) <==> rel == "next"
  {
    var x := rel + "\"" + rest;
    var after := RelOpen + x;
    assert RelOpen + rel + "\"" + rest == after;
    assert NextRel == RelOpen + "next\"";
    if rel == "next" {
      assert after == NextRel + rest;
      assert after[..|NextRel|] == NextRel;
    }
    if StartsWith(after, NextRel) {
      assert x[..5] == after[..12][7..];
      QuotedNext(rel, rest);
    }
  }

  /** An entry matches exactly when its relation is `next`, whatever follows it. */
  lemma EntryMatch(e: LinkEntry, rest: string)
    requires WellFormedEntry(e)
    ensures MatchHere(EntryText(e) + rest) == if e.rel == "next" then Some(e.url) else None
  {
    var tail := RelOpen + e.rel + "\"" + rest;
    assert EntryText(e) + rest == "<" + e.url + ">" + tail;
    BracketedMatch(e.url, tail);
    RelIsNext(e.rel, rest);
  }

  /** No match starts at a position without a `<`. */
  lemma NoMatchWithoutBracket(s: string)
    requires |s| == 0 || s[0] != '<'
    ensures MatchHere(s).None?
  {
  }

  /** Scanning skips positions where nothing matches. */
  lemma {:induction false} ScanSkips(s: string, i: nat, j: nat)
    requires i <= j <= |s|
    requires forall p :: i <= p < j ==> MatchHere(s[p..]).None?
    ensures Scan(s, i) == Scan(s, j)
    decreases j - i
  {
    if i < j {
      ScanSkips(s, i + 1, j);
    }
  }

  /** Scanning a suffix behind a prefix is scanning the suffix alone. */
  lemma {:induction false} ScanShift(p: string, t: string, j: nat)
    requires j <= |t|
    ensures Scan(p + t, |p| + j) == Scan(t, j)
    decreases |t| - j
  {
    assert (p + t)[|p| + j..] == t[j..];
    if j < |t| {
      ScanShift(p, t, j + 1);
    }
  }

  /** Inside an entry and its separator, only the entry's own first character is a `<`. */
  lemma NoBracketInside(e: LinkEntry, rest: string, p: nat)
    requires WellFormedEntry(e)
    requires 0 < p < |EntryText(e) + rest| && p < |EntryText(e)|
    ensures MatchHere((EntryText(e) + rest)[p..]).None?
  {
    var s := EntryText(e) + rest;
    var n := |e.url|;
    if p <= n {
      assert s[p] == e.url[p - 1];
    } else if p < n + 9 {
      assert s[p] == (">; rel=\"")[p - n - 1];
    } else if p < n + 9 + |e.rel| {
      assert s[p] == e.rel[p - n - 9];
    } else {
      assert s[p] == '"';
    }
    NoMatchWithoutBracket(s[p..]);
  }

  /** `getNext` finds the URL of the first `rel="next"` entry of a well-formed header, and nothing when there is none. */
  lemma {:induction false} NextLinkFindsFirstNext(es: seq<LinkEntry>)
    requires forall i :: 0 <= i < |es| ==> WellFormedEntry(es[i])
    ensures NextLink(Some(HeaderText(es))) == FirstNext(es)
  {
    if |es| > 0 {
      assert HeaderText(es) != "" by {
        assert |EntryText(es[0])| > 0;
        if |es| > 1 {
          assert HeaderText(es) == EntryText(es[0]) + (", " + HeaderText(es[1..]));
        }
      }
      ScanHeader(es);
    }
  }

  /** Scanning from the start of an entry that is not `next` moves on to the text behind it. */
  lemma ScanPastEntry(e: LinkEntry, rest: string)
    requires WellFormedEntry(e) && e.rel != "next"
    ensures Scan(EntryText(e) + rest, 0) == Scan(EntryText(e) + rest, |EntryText(e)|)
  {
    var s := EntryText(e) + rest;
    EntryMatch(e, rest);
    assert s[0..] == s;
    forall p | 1 <= p < |EntryText(e)| ensures MatchHere(s[p..]).None? {
      NoBracketInside(e, rest, p);
    }
    ScanSkips(s, 0, |EntryText(e)|);
  }

  /** The `, ` between two entries holds no match. */
  lemma ScanPastSeparator(entry: string, tail: string)
    ensures Scan(entry + ", " + tail, |entry|) == Scan(tail, 0)
  {
    var s := entry + ", " + tail;
    var n := |entry|;
    assert s[n] == ',' && s[n + 1] == ' ';
    assert MatchHere(s[n..]).None? && MatchHere(s[n + 1..]).None?;
    ScanSkips(s, n, n + 2);
    ScanShift(entry + ", ", tail, 0);
  }

  lemma {:induction false} ScanHeader(es: seq<LinkEntry>)
    requires |es| > 0
    requires forall i :: 0 <= i < |es| ==> WellFormedEntry(es[i])
    ensures Scan(HeaderText(es), 0) == FirstNext(es)
  {
    var e := es[0];
    var n := |EntryText(e)|;
    if |es| == 1 {
      var s := EntryText(e);
      assert HeaderText(es) == s + "";
      if e.rel == "next" {
        EntryMatch(e, "");
        assert s[0..] == s;
      } else {
        ScanPastEntry(e, "");
      }
    } else {
      var tail := HeaderText(es[1..]);
      var s := EntryText(e) + ", " + tail;
      assert HeaderText(es) == s;
      if e.rel == "next" {
        assert s == EntryText(e) + (", " + tail);
        EntryMatch(e, ", " + tail);
        assert s[0..] == s;
      } else {
        assert s == EntryText(e) + (", " + tail);
        ScanPastEntry(e, ", " + tail);
        ScanPastSeparator(EntryText(e), tail);
        ScanHeader(es[1..]);
      }
    }
  }
}
