/**
 * Distinguished names, already split into their relative names. Spacing, case
 * and escape normalization of the directory library are not modelled: two names
 * are equal when their components are.
 */
module Dn {
  import opened Results
  import Strings

  /** Leaf first: `cn=a,ou=b,dc=c` is ["cn=a", "ou=b", "dc=c"]; the root is []. */
  type Dn = seq<string>

  /** A component the parser accepts: an `attribute=value` pair without a separator. */
  predicate ValidRdn(c: string)
  {
    '=' in c && ',' !in c
  }

  predicate ValidDn(d: Dn)
  {
    forall i :: 0 <= i < |d| ==> ValidRdn(d[i])
  }

  /** `dn.parent()`: the name without its leaf; the root has no parent (null). */
  function Parent(d: Dn): Option<Dn>
  {
    if |d| == 0 then None else Some(d[1..])
  }

  /** `a.parentOf(d)`: `a` is a proper suffix of `d`. */
  predicate IsStrictAncestor(a: Dn, d: Dn)
  {
    |a| < |d| && d[|d| - |a|..] == a
  }

  /** The ancestors `addParents` walks through: every strict ancestor but the root. */
  function NonRootAncestors(d: Dn): set<Dn>
  {
    set k | 1 <= k < |d| :: d[k..]
  }

  /**
   * The text of a name: its components joined with `,`. This stands in for
   * `dn.toString()`, which would also put a space after each comma and lower-case
   * the attribute types.
   */
  function Format(d: Dn): string
  {
    Strings.Join(d, ",")
  }

  /** `ldap.parseDN(s)`: the empty text is the root; otherwise every component must be valid. */
  function Parse(s: string): (r: Option<Dn>)
    ensures r.Some? ==> ValidDn(r.value)
  {
    if s == "" then Some([])
    else
      var parts := Strings.Split(s, ',');
      if forall i :: 0 <= i < |parts| ==> '=' in parts[i] then Some(parts) else None
  }

  /** The parent is the one strict ancestor one level up, and every strict ancestor is reached through it. */
  lemma StrictAncestorStep(a: Dn, d: Dn)
    ensures IsStrictAncestor(a, d) <==> Parent(d) == Some(a) || (|d| > 0 && IsStrictAncestor(a, d[1..]))
  {
    if |d| > 0 && |a| < |d| - 1 {
      assert d[1..][|d| - 1 - |a|..] == d[|d| - |a|..];
    }
  }

  /** `addParents` stops exactly at the root: the non-root ancestors are the proper suffixes other than []. */
  lemma NonRootAncestorsAre(a: Dn, d: Dn)
    ensures a in NonRootAncestors(d) <==> IsStrictAncestor(a, d) && a != []
  {
    if IsStrictAncestor(a, d) && a != [] {
      assert d[|d| - |a|..] == a;
    }
  }

  /** Valid names survive printing and parsing unchanged. */
  lemma ParseFormat(d: Dn)
    requires ValidDn(d)
    ensures Parse(Format(d)) == Some(d)
  {
    if |d| == 0 {
    } else {
      FormatNonEmpty(d);
      Strings.SplitJoin(d, ',');
    }
  }

  /** Parsed text prints back to itself. */
  lemma FormatParse(s: string)
    requires Parse(s).Some?
    ensures Format(Parse(s).value) == s
  {
    if s != "" {
      Strings.JoinSplit(s, ',');
    }
  }

  /** A valid name prints as the empty text only at the root, so `addParents` may test either. */
  lemma FormatNonEmpty(d: Dn)
    requires ValidDn(d)
    ensures Format(d) == "" <==> d == []
  {
    if |d| > 0 {
      assert '=' in d[0];
      if |d| > 1 {
        assert Format(d) == d[0] + "," + Format(d[1..]);
      }
    }
  }
}
