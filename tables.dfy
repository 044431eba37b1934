/** A document table of the database: documents by id, and the ids in
    the order the documents were created (the order in which a query
    without `.order(...)` collects them). */
module Tables {
  import opened Common

  /** `order` without `k`, keeping the order of the rest. */
  function Without<K(==,!new)>(order: seq<K>, k: K): (r: seq<K>)
    ensures forall x :: x in r <==> x in order && x != k
    ensures |r| <= |order|
    ensures k in order && Distinct(order) ==> |r| == |order| - 1
    ensures k !in order ==> r == order
    ensures Distinct(order) ==> Distinct(r)
  {
    if order == [] then []
    else
      var rest := Without(order[1..], k);
      assert Distinct(order) ==> order[0] !in order[1..];
      if order[0] == k then rest else [order[0]] + rest
  }

  datatype Table<K(==,!new), V(!new)> = Table(rows: map<K, V>, order: seq<K>)
  {
    /** Each id is listed once, and the listed ids are exactly the ids
        that have a document. */
    ghost predicate WellFormed()
    {
      && Distinct(order)
      && (forall k :: k in rows <==> k in order)
    }

    /** `ctx.db.get(id)`: the document, or nothing when it is missing. */
    function Get(k: K): (r: Option<V>)
      ensures r.Some? <==> k in rows
    {
      if k in rows then Some(rows[k]) else None
    }

    /** `ctx.db.insert`: a new document under a fresh id, last in
        creation order. */
    function Insert(k: K, v: V): (t: Table<K, V>)
      requires k !in rows
      ensures WellFormed() ==> t.WellFormed() && |t.order| == |order| + 1
      ensures t.Get(k) == Some(v)
      ensures forall j :: j != k ==> t.Get(j) == Get(j)
    {
      Table(rows[k := v], order + [k])
    }

    /** `ctx.db.patch` / `replace`: the document under an existing id
        becomes `v`; the creation order is kept. */
    function Update(k: K, v: V): (t: Table<K, V>)
      requires k in rows
      ensures WellFormed() ==> t.WellFormed()
      ensures t.order == order && t.rows.Keys == rows.Keys
      ensures t.Get(k) == Some(v)
      ensures forall j :: j != k ==> t.Get(j) == Get(j)
    {
      Table(rows[k := v], order)
    }

    /** `ctx.db.delete`: the document under `k` is gone, nothing else
        changes. */
    function Delete(k: K): (t: Table<K, V>)
      ensures WellFormed() ==> t.WellFormed()
      ensures WellFormed() && k in rows ==> |t.order| == |order| - 1
      ensures t.Get(k) == None
      ensures forall j :: j != k ==> t.Get(j) == Get(j)
    {
      Table(rows - {k}, Without(order, k))
    }

    /** Number of documents. */
    function Size(): nat { |order| }

    /** The documents in creation order, each with its id. */
    function Docs(): (r: seq<Doc<K, V>>)
      requires WellFormed()
      ensures |r| == |order| == |rows|
      ensures forall i :: 0 <= i < |r| ==> r[i].id == order[i] && r[i].fields == rows[order[i]]
    {
      CountIds(this);
      seq(|order|, i requires 0 <= i < |order| => Doc(order[i], rows[order[i]]))
    }
  }

  /** A document is listed exactly when it is the stored document
      under its id. */
  lemma DocListed<K(!new), V(!new)>(t: Table<K, V>, d: Doc<K, V>)
    requires t.WellFormed()
    ensures d in t.Docs() <==> d.id in t.rows && d.fields == t.rows[d.id]
  {
    if d.id in t.rows && d.fields == t.rows[d.id] {
      var i :| 0 <= i < |t.order| && t.order[i] == d.id;
      assert t.Docs()[i] == d;
    }
  }

  /** The ids among `ks` whose stored document satisfies `p`. */
  ghost function PassingIn<K(!new), V(!new)>(t: Table<K, V>, ks: seq<K>, p: Doc<K, V> -> bool): set<K>
  {
    set k | k in ks && k in t.rows && p(Doc(k, t.rows[k]))
  }

  /** A prefix one longer is the shorter prefix and one more element. */
  lemma PrefixSnoc<T>(s: seq<T>, n: nat)
    requires 0 < n <= |s|
    ensures s[..n] == s[..n - 1] + [s[n - 1]]
  {
  }

  /** One more id adds itself to the passing ids when its document
      passes. */
  lemma PassingSnoc<K(!new), V(!new)>(t: Table<K, V>, ks: seq<K>, k: K, p: Doc<K, V> -> bool)
    requires k in t.rows
    ensures PassingIn(t, ks + [k], p) == PassingIn(t, ks, p) + (if p(Doc(k, t.rows[k])) then {k} else {})
  {
  }

  /** Filtering one more document keeps it when it passes. */
  lemma FilterSnoc<T(!new)>(s: seq<T>, x: T, p: T -> bool)
    ensures |Filter(s + [x], p)| == |Filter(s, p)| + (if p(x) then 1 else 0)
  {
    FilterAppend(s, [x], p);
    assert [x][1..] == [];
  }

  /** Filtering the first `n` listed documents keeps one document per
      passing id among the first `n` ids. */
  lemma {:induction false} CountPrefix<K(!new), V(!new)>(t: Table<K, V>, p: Doc<K, V> -> bool, n: nat)
    requires t.WellFormed() && n <= |t.order|
    ensures |Filter(t.Docs()[..n], p)| == |PassingIn(t, t.order[..n], p)|
  {
    var docs := t.Docs();
    if n == 0 {
      assert docs[..0] == [];
      assert PassingIn(t, t.order[..0], p) == {};
    } else {
      CountPrefix(t, p, n - 1);
      var d := docs[n - 1];
      var k := t.order[n - 1];
      var front := t.order[..n - 1];
      PrefixSnoc(docs, n);
      PrefixSnoc(t.order, n);
      FilterSnoc(docs[..n - 1], d, p);
      assert d == Doc(k, t.rows[k]);
      PassingSnoc(t, front, k, p);
      assert k !in front;
      assert k !in PassingIn(t, front, p);
    }
  }

  /** The ids the table lists are the ids that have a document. */
  lemma PassingAll<K(!new), V(!new)>(t: Table<K, V>, p: Doc<K, V> -> bool)
    requires t.WellFormed()
    ensures PassingIn(t, t.order, p) == set k | k in t.rows && p(Doc(k, t.rows[k]))
  {
  }

  /** Counting the listed documents that satisfy `p` counts the stored
      documents that do. */
  lemma CountPassing<K(!new), V(!new)>(t: Table<K, V>, p: Doc<K, V> -> bool)
    requires t.WellFormed()
    ensures |Filter(t.Docs(), p)| == |set k | k in t.rows && p(Doc(k, t.rows[k]))|
  {
    CountPrefix(t, p, |t.order|);
    assert t.Docs()[..|t.order|] == t.Docs();
    assert t.order[..|t.order|] == t.order;
    PassingAll(t, p);
  }

  /** Counting the listed documents that satisfy `p` counts the stored
      documents that do: none exactly when no stored document passes,
      all exactly when every one does. */
  lemma CountWhere<K(!new), V(!new)>(t: Table<K, V>, p: Doc<K, V> -> bool)
    requires t.WellFormed()
    ensures |Filter(t.Docs(), p)| == |set k | k in t.rows && p(Doc(k, t.rows[k]))|
    ensures |Filter(t.Docs(), p)| == 0 <==> forall k :: k in t.rows ==> !p(Doc(k, t.rows[k]))
    ensures |Filter(t.Docs(), p)| == |t.rows| <==> forall k :: k in t.rows ==> p(Doc(k, t.rows[k]))
  {
    CountPassing(t, p);
    var docs := t.Docs();
    FilterNoneIff(docs, p);
    FilterAllIff(docs, p);
    EveryDocListed(t);
    forall i | 0 <= i < |docs| ensures t.order[i] in t.rows && docs[i] == Doc(t.order[i], t.rows[t.order[i]]) {
    }
  }

  /** Every stored document is listed. */
  lemma EveryDocListed<K(!new), V(!new)>(t: Table<K, V>)
    requires t.WellFormed()
    ensures forall k :: k in t.rows ==> exists i :: 0 <= i < |t.Docs()| && t.Docs()[i] == Doc(k, t.rows[k])
  {
    forall k | k in t.rows ensures exists i :: 0 <= i < |t.Docs()| && t.Docs()[i] == Doc(k, t.rows[k]) {
      var i :| 0 <= i < |t.order| && t.order[i] == k;
      assert t.Docs()[i] == Doc(k, t.rows[k]);
    }
  }

  /** A document as a query returns it: its id and its fields. */
  datatype Doc<K, V> = Doc(id: K, fields: V)

  /** A well-formed table lists as many ids as it has documents. */
  lemma {:induction false} CountIds<K(!new), V(!new)>(t: Table<K, V>)
    requires t.WellFormed()
    ensures |t.order| == |t.rows|
    decreases |t.order|
  {
    if t.order != [] {
      var k := t.order[0];
      var rest := t.Delete(k);
      assert rest.rows.Keys == t.rows.Keys - {k};
      CountIds(rest);
    }
  }

  /** The empty table. */
  function Empty<K(==,!new), V(!new)>(): (t: Table<K, V>)
    ensures t.WellFormed() && t.rows == map[]
  {
    Table(map[], [])
  }
}
