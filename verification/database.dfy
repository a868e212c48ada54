/**
 * The in-memory snapshot of app.js: a plain object from DN string to entry.
 * Besides the map it keeps the keys in insertion order, because searches walk
 * `Object.keys(db)`; assigning an existing key replaces its value in place.
 */
module Database {
  import opened Dn
  import opened Template
  import opened Upstream

  /** `original` and `type` of an entry: containers carry neither. */
  datatype Kind = Container | GroupKind(group: Group) | UserKind(user: User)

  datatype Entry = Entry(attributes: Rendered, kind: Kind)

  /** `{attributes: {}, original: {}}`. */
  const ContainerEntry := Entry(RObject([]), Container)

  datatype Db = Db(entries: map<Dn, Entry>, order: seq<Dn>)

  datatype Write = Write(key: Dn, entry: Entry)

  predicate Distinct<T(==)>(s: seq<T>)
  {
    forall a, b :: 0 <= a < b < |s| ==> s[a] != s[b]
  }

  /** The order lists every key once. */
  ghost predicate Valid(db: Db)
  {
    && (forall k :: k in db.entries <==> k in db.order)
    && Distinct(db.order)
  }

  const Empty := Db(map[], [])

  /** `db[k] = e`. */
  function Put(db: Db, w: Write): (r: Db)
    requires Valid(db)
    ensures Valid(r)
  {
    Db(db.entries[w.key := w.entry], if w.key in db.order then db.order else db.order + [w.key])
  }

  /** The writes performed in order. */
  function PutAll(db: Db, ws: seq<Write>): (r: Db)
    requires Valid(db)
    ensures Valid(r)
    decreases |ws|
  {
    if |ws| == 0 then db else PutAll(Put(db, ws[0]), ws[1..])
  }

  function Keys(ws: seq<Write>): seq<Dn>
  {
    seq(|ws|, i requires 0 <= i < |ws| => ws[i].key)
  }

  /** Reference for the key order: the keys not seen before, in order of first appearance. */
  function Fresh(seen: seq<Dn>, ks: seq<Dn>): seq<Dn>
    decreases |ks|
  {
    if |ks| == 0 then []
    else if ks[0] in seen then Fresh(seen, ks[1..])
    else [ks[0]] + Fresh(seen + [ks[0]], ks[1..])
  }

  /** `ws[i]` is the last write to its key. */
  predicate LastWrite(ws: seq<Write>, i: nat)
    requires i < |ws|
  {
    forall j :: i < j < |ws| ==> ws[j].key != ws[i].key
  }

  /** After the writes the keys are the old ones plus the written ones. */
  lemma {:induction false} PutAllKeys(db: Db, ws: seq<Write>)
    requires Valid(db)
    ensures forall k :: k in PutAll(db, ws).entries <==> k in db.entries || k in Keys(ws)
    decreases |ws|
  {
    if |ws| > 0 {
      var db' := Put(db, ws[0]);
      assert PutAll(db, ws) == PutAll(db', ws[1..]);
      assert forall k :: k in db'.entries <==> k in db.entries || k == ws[0].key;
      PutAllKeys(db', ws[1..]);
      KeysCons(ws);
    }
  }

  lemma KeysCons(ws: seq<Write>)
    requires |ws| > 0
    ensures Keys(ws) == [ws[0].key] + Keys(ws[1..])
  {
  }

  lemma KeysAt(ws: seq<Write>, i: nat)
    requires i < |ws|
    ensures ws[i].key in Keys(ws)
  {
    assert Keys(ws)[i] == ws[i].key;
  }

  /** A written key holds its last write. */
  lemma {:induction false} PutAllLast(db: Db, ws: seq<Write>, i: nat)
    requires Valid(db)
    requires i < |ws| && LastWrite(ws, i)
    ensures ws[i].key in PutAll(db, ws).entries && PutAll(db, ws).entries[ws[i].key] == ws[i].entry
    decreases |ws|
  {
    PutAllKeys(db, ws);
    KeysAt(ws, i);
    var db' := Put(db, ws[0]);
    var rest := ws[1..];
    assert PutAll(db, ws) == PutAll(db', rest);
    if i > 0 {
      assert rest[i - 1] == ws[i];
      assert LastWrite(rest, i - 1);
      PutAllLast(db', rest, i - 1);
    } else {
      assert ws[0].key !in Keys(rest) by {
        forall j | 0 <= j < |rest| ensures Keys(rest)[j] != ws[0].key {
          assert rest[j] == ws[j + 1];
        }
      }
      PutAllKept(db', rest, ws[0].key);
    }
  }

  /** A key no write touches keeps its entry. */
  lemma {:induction false} PutAllKept(db: Db, ws: seq<Write>, k: Dn)
    requires Valid(db)
    requires k in db.entries && k !in Keys(ws)
    ensures k in PutAll(db, ws).entries && PutAll(db, ws).entries[k] == db.entries[k]
    decreases |ws|
  {
    if |ws| > 0 {
      assert Keys(ws) == [ws[0].key] + Keys(ws[1..]);
      PutAllKept(Put(db, ws[0]), ws[1..], k);
    }
  }

  /** One write moves the order on by exactly what `Fresh` lists first. */
  lemma FreshStep(order: seq<Dn>, k: Dn, tail: seq<Dn>)
    ensures var next := if k in order then order else order + [k];
            next + Fresh(next, tail) == order + Fresh(order, [k] + tail)
  {
    assert ([k] + tail)[1..] == tail;
  }

  /** Keys already present keep their place; new keys follow in order of first write. */
  lemma {:induction false} PutAllOrder(db: Db, ws: seq<Write>)
    requires Valid(db)
    ensures PutAll(db, ws).order == db.order + Fresh(db.order, Keys(ws))
    decreases |ws|
  {
    if |ws| > 0 {
      var db' := Put(db, ws[0]);
      assert PutAll(db, ws) == PutAll(db', ws[1..]);
      assert db'.order == if ws[0].key in db.order then db.order else db.order + [ws[0].key];
      PutAllOrder(db', ws[1..]);
      KeysCons(ws);
      FreshStep(db.order, ws[0].key, Keys(ws[1..]));
    }
  }

  lemma {:induction false} FreshSpec(seen: seq<Dn>, ks: seq<Dn>)
    ensures forall k :: k in Fresh(seen, ks) <==> k in ks && k !in seen
    ensures Distinct(Fresh(seen, ks))
    decreases |ks|
  {
    if |ks| > 0 {
      if ks[0] in seen {
        FreshSpec(seen, ks[1..]);
        assert ks == [ks[0]] + ks[1..];
      } else {
        FreshSpec(seen + [ks[0]], ks[1..]);
        assert ks == [ks[0]] + ks[1..];
        var f := Fresh(seen + [ks[0]], ks[1..]);
        assert Fresh(seen, ks) == [ks[0]] + f;
        forall a, b | 0 <= a < b < |Fresh(seen, ks)| ensures Fresh(seen, ks)[a] != Fresh(seen, ks)[b] {
          assert Fresh(seen, ks)[b] == f[b - 1];
          if a > 0 {
            assert Fresh(seen, ks)[a] == f[a - 1];
          } else {
            assert f[b - 1] in f;
          }
        }
      }
    }
  }

  /** A key written first is listed before a key written later for the first time. */
  lemma {:induction false} FreshOrder(seen: seq<Dn>, ks: seq<Dn>, a: nat, b: nat)
    requires a < b < |ks|
    requires ks[a] !in seen && ks[b] !in seen && ks[b] !in ks[..b]
    requires ks[a] != ks[b]
    ensures ks[a] in Fresh(seen, ks) && ks[b] in Fresh(seen, ks)
    ensures exists p, q :: 0 <= p < q < |Fresh(seen, ks)| && Fresh(seen, ks)[p] == ks[a] && Fresh(seen, ks)[q] == ks[b]
    decreases |ks|
  {
    FreshSpec(seen, ks);
    var rest := ks[1..];
    assert ks == [ks[0]] + rest;
    assert ks[b] == rest[b - 1];
    assert ks[b] !in rest[..b - 1] by {
      forall t | 1 <= t < b ensures ks[t] != ks[b] {
        assert ks[..b][t] == ks[t];
      }
      assert rest[..b - 1] == ks[1..b];
    }
    if a == 0 {
      assert ks[b] != ks[0] by { assert ks[..b][0] == ks[0]; }
      var f := Fresh(seen + [ks[0]], rest);
      FreshSpec(seen + [ks[0]], rest);
      assert ks[b] in f;
      var q :| 0 <= q < |f| && f[q] == ks[b];
      assert Fresh(seen, ks)[0] == ks[0] && Fresh(seen, ks)[q + 1] == ks[b];
    } else if ks[0] in seen {
      FreshOrder(seen, rest, a - 1, b - 1);
    } else {
      assert ks[0] != ks[b] by { assert ks[..b][0] == ks[0]; }
      if ks[0] == ks[a] {
        var f := Fresh(seen + [ks[0]], rest);
        FreshSpec(seen + [ks[0]], rest);
        var q :| 0 <= q < |f| && f[q] == ks[b];
        assert Fresh(seen, ks)[0] == ks[a] && Fresh(seen, ks)[q + 1] == ks[b];
      } else {
        FreshOrder(seen + [ks[0]], rest, a - 1, b - 1);
        var f := Fresh(seen + [ks[0]], rest);
        var p, q :| 0 <= p < q < |f| && f[p] == ks[a] && f[q] == ks[b];
        assert Fresh(seen, ks)[p + 1] == ks[a] && Fresh(seen, ks)[q + 1] == ks[b];
      }
    }
  }
  /** Writing `a` then `b` is writing `a + b`. */
  lemma {:induction false} PutAllAppend(db: Db, a: seq<Write>, b: seq<Write>)
    requires Valid(db)
    ensures PutAll(db, a + b) == PutAll(PutAll(db, a), b)
    decreases |a|
  {
    if |a| == 0 {
      assert a + b == b;
    } else {
      assert (a + b)[0] == a[0] && (a + b)[1..] == a[1..] + b;
      PutAllAppend(Put(db, a[0]), a[1..], b);
    }
  }

  /** A key that every write to it writes with the same entry holds that entry. */
  lemma {:induction false} PutAllUniform(db: Db, ws: seq<Write>, k: Dn, e: Entry)
    requires Valid(db)
    requires k in Keys(ws) || (k in db.entries && db.entries[k] == e)
    requires forall i :: 0 <= i < |ws| && ws[i].key == k ==> ws[i].entry == e
    ensures k in PutAll(db, ws).entries && PutAll(db, ws).entries[k] == e
    decreases |ws|
  {
    if |ws| > 0 {
      assert Keys(ws) == [ws[0].key] + Keys(ws[1..]);
      forall i | 0 <= i < |ws[1..]| && ws[1..][i].key == k ensures ws[1..][i].entry == e {
        assert ws[1..][i] == ws[i + 1];
      }
      PutAllUniform(Put(db, ws[0]), ws[1..], k, e);
    }
  }

  /** `Fresh` over a concatenation: the second part sees what the first added. */
  lemma {:induction false} FreshAppend(seen: seq<Dn>, a: seq<Dn>, b: seq<Dn>)
    ensures Fresh(seen, a + b) == Fresh(seen, a) + Fresh(seen + Fresh(seen, a), b)
    decreases |a|
  {
    if |a| == 0 {
      assert a + b == b;
      assert seen + [] == seen;
    } else {
      assert (a + b)[0] == a[0] && (a + b)[1..] == a[1..] + b;
      if a[0] in seen {
        FreshAppend(seen, a[1..], b);
      } else {
        FreshAppend(seen + [a[0]], a[1..], b);
        var f := Fresh(seen + [a[0]], a[1..]);
        assert seen + [a[0]] + f == seen + ([a[0]] + f);
      }
    }
  }
}
