/** Lists of rights, one entry to a key: adding to a key that is there merges the rights. */
module FactTables {
  import opened Bits
  import opened PolicyTerms

  datatype Entry<K> = Entry(key: K, rights: nat)

  /** The rights a table gives a key: those of its first entry, or none. */
  function Lookup<K(==)>(table: seq<Entry<K>>, key: K): nat {
    if table == [] then 0 else if table[0].key == key then table[0].rights else Lookup(table[1..], key)
  }

  function Merged<K(==)>(table: seq<Entry<K>>, x: Entry<K>): seq<Entry<K>> {
    if table == [] then [x]
    else if table[0].key == x.key then [Entry(x.key, Both(table[0].rights, x.rights))] + table[1..]
    else [table[0]] + Merged(table[1..], x)
  }

  lemma {:induction false} MergedAt<K>(table: seq<Entry<K>>, x: Entry<K>, i: nat)
    requires i <= |table| && (forall j :: 0 <= j < i ==> table[j].key != x.key)
             && (i < |table| ==> table[i].key == x.key)
    ensures Merged(table, x) == if i < |table| then table[i := Entry(x.key, Both(table[i].rights, x.rights))]
                                else table + [x]
  {
    hide Or;
    if i == 0 {
      if table != [] {
        var merged := Entry(x.key, Both(table[0].rights, x.rights));
        assert table[0 := merged] == [merged] + table[1..];
      }
    } else {
      MergedAt(table[1..], x, i - 1);
      assert table == [table[0]] + table[1..];
    }
  }

  /** Adds an entry in place. */
  method Push<K(==)>(table: seq<Entry<K>>, x: Entry<K>) returns (r: seq<Entry<K>>)
    ensures r == Merged(table, x)
  {
    hide Or, Merged;
    var i := 0;
    while i < |table|
      invariant i <= |table| && forall j :: 0 <= j < i ==> table[j].key != x.key
    {
      if table[i].key == x.key {
        MergedAt(table, x, i);
        return table[i := Entry(x.key, Both(table[i].rights, x.rights))];
      }
      i := i + 1;
    }
    MergedAt(table, x, i);
    return table + [x];
  }

  /** Adding an entry changes the rights of its key only, and there it adds exactly the entry's rights. */
  lemma {:induction false} LookupMerged<K>(table: seq<Entry<K>>, x: Entry<K>, key: K)
    requires x.rights < Pow2(16)
    ensures Lookup(Merged(table, x), key) == if key == x.key then Both(Lookup(table, key), x.rights)
                                             else Lookup(table, key)
  {
    if table == [] {
      OrZero(x.rights, 16);
    } else if table[0].key != x.key {
      LookupMerged(table[1..], x, key);
      var merged := Merged(table, x);
      assert merged[0] == table[0] && merged[1..] == Merged(table[1..], x);
    } else {
      var merged := Merged(table, x);
      assert merged[0].key == x.key && merged[1..] == table[1..];
    }
  }

  /** A key with rights has an entry. */
  lemma {:induction false} EntryOf<K>(table: seq<Entry<K>>, key: K) returns (i: nat)
    requires Lookup(table, key) != 0
    ensures i < |table| && table[i] == Entry(key, Lookup(table, key))
  {
    if table[0].key == key {
      i := 0;
    } else {
      i := EntryOf(table[1..], key);
      i := i + 1;
    }
  }

  /** No key twice. */
  ghost predicate Unique<K>(table: seq<Entry<K>>) {
    forall i, j :: 0 <= i < j < |table| ==> table[i].key != table[j].key
  }

  lemma {:induction false} KeysMerged<K>(table: seq<Entry<K>>, x: Entry<K>)
    ensures forall e :: e in Merged(table, x) ==> e.key == x.key || e in table
    ensures Unique(table) ==> Unique(Merged(table, x))
  {
    hide Or;
    if table != [] && table[0].key != x.key {
      KeysMerged(table[1..], x);
      assert forall e :: e in table[1..] ==> e in table;
    }
  }

  // ----- Many additions -----

  function MergedAll<K(==)>(table: seq<Entry<K>>, xs: seq<Entry<K>>): seq<Entry<K>> {
    if xs == [] then table else Merged(MergedAll(table, xs[..|xs| - 1]), xs[|xs| - 1])
  }

  ghost predicate Narrow<K>(xs: seq<Entry<K>>) {
    forall i :: 0 <= i < |xs| ==> xs[i].rights < Pow2(16)
  }

  lemma SmallNarrow()
    ensures 128 < Pow2(16)
  {
    assert Pow2(8) == 256;
    assert Pow2(16) == 256 * Pow2(8);
  }

  /** All rights added to a key. */
  function Added<K(==)>(xs: seq<Entry<K>>, key: K): nat {
    if xs == [] then 0
    else
      var rest, last := Added(xs[..|xs| - 1], key), xs[|xs| - 1];
      if last.key == key then Both(rest, last.rights) else rest
  }

  /** What a table gives a key is exactly the union of everything added to it. */
  lemma {:induction false} LookupAll<K>(xs: seq<Entry<K>>, key: K)
    requires Narrow(xs)
    ensures Lookup(MergedAll([], xs), key) == Added(xs, key)
  {
    hide Pow2, Or;
    if xs != [] {
      var n := |xs| - 1;
      LookupAll(xs[..n], key);
      LookupMerged(MergedAll([], xs[..n]), xs[n], key);
    }
  }

  lemma {:induction false} AddedHolds<K>(xs: seq<Entry<K>>, i: nat)
    requires i < |xs|
    ensures Allowed(xs[i].rights, Added(xs, xs[i].key))
  {
    hide Within, Or;
    var n := |xs| - 1;
    var rest := Added(xs[..n], xs[i].key);
    OrHolds(rest, xs[n].rights, 16);
    if i < n {
      AddedHolds(xs[..n], i);
      if xs[n].key == xs[i].key { WithinTrans(xs[i].rights, rest, Both(rest, xs[n].rights), 16); }
    }
  }

  /** Whatever was added is in the table. */
  lemma AllHeld<K>(xs: seq<Entry<K>>, x: Entry<K>)
    requires Narrow(xs) && x in xs
    ensures Allowed(x.rights, Lookup(MergedAll([], xs), x.key))
  {
    var i :| 0 <= i < |xs| && xs[i] == x;
    hide Within, Added;
    AddedHolds(xs, i);
    LookupAll(xs, x.key);
  }

  lemma {:induction false} UniqueAll<K>(xs: seq<Entry<K>>)
    ensures Unique(MergedAll([], xs))
    ensures forall e :: e in MergedAll([], xs) ==> exists i :: 0 <= i < |xs| && xs[i].key == e.key
  {
    hide Merged;
    if xs != [] {
      var n := |xs| - 1;
      UniqueAll(xs[..n]);
      KeysMerged(MergedAll([], xs[..n]), xs[n]);
      forall e | e in MergedAll([], xs)
        ensures exists i :: 0 <= i < |xs| && xs[i].key == e.key
      {
        if e.key == xs[n].key {
        } else {
          var i :| 0 <= i < n && xs[..n][i].key == e.key;
          assert xs[i].key == e.key;
        }
      }
    }
  }

  lemma {:induction false} KeysKept<K>(table: seq<Entry<K>>, x: Entry<K>, key: K)
    ensures (exists e :: e in Merged(table, x) && e.key == key) <==>
            key == x.key || exists e :: e in table && e.key == key
  {
    hide Or;
    if table == [] {
      assert x in Merged(table, x);
    } else if table[0].key == x.key {
      var merged := Merged(table, x);
      assert merged[0].key == x.key;
      assert forall i :: 1 <= i < |table| ==> merged[i] == table[i];
    } else {
      KeysKept(table[1..], x, key);
      var merged := Merged(table, x);
      assert merged[0] == table[0] && merged[1..] == Merged(table[1..], x);
      assert forall e :: e in merged <==> e == table[0] || e in merged[1..];
      assert forall e :: e in table <==> e == table[0] || e in table[1..];
    }
  }

  lemma {:induction false} AddedNarrow<K>(xs: seq<Entry<K>>, key: K)
    ensures Added(xs, key) < Pow2(16)
  {
    hide Or, Pow2;
    if xs != [] {
      AddedNarrow(xs[..|xs| - 1], key);
      OrHolds(Added(xs[..|xs| - 1], key), xs[|xs| - 1].rights, 16);
    }
  }

  lemma {:induction false} AddedSplit<K>(xs: seq<Entry<K>>, ys: seq<Entry<K>>, key: K)
    ensures Added(xs + ys, key) == Both(Added(xs, key), Added(ys, key))
  {
    hide Or, Pow2;
    if ys == [] {
      assert xs + ys == xs;
      AddedNarrow(xs, key);
      OrZero(Added(xs, key), 16);
    } else {
      var n := |ys| - 1;
      AddedSplit(xs, ys[..n], key);
      assert (xs + ys)[..|xs| + n] == xs + ys[..n];
      OrAssoc(Added(xs, key), Added(ys[..n], key), ys[n].rights, 16);
    }
  }

  lemma {:induction false} LookupUnique<K>(table: seq<Entry<K>>, i: nat)
    requires Unique(table) && i < |table|
    ensures Lookup(table, table[i].key) == table[i].rights
  {
    if i > 0 {
      assert table[0].key != table[i].key;
      LookupUnique(table[1..], i - 1);
    }
  }

  lemma {:induction false} AddedWithin<K>(xs: seq<Entry<K>>, key: K, c: nat)
    requires forall k :: 0 <= k < |xs| && xs[k].key == key ==> Allowed(xs[k].rights, c)
    ensures Allowed(Added(xs, key), c)
  {
    hide Within, Or;
    if xs == [] {
      WithinZero(c, 16);
    } else {
      var n := |xs| - 1;
      AddedWithin(xs[..n], key, c);
      if xs[n].key == key { OrLeast(Added(xs[..n], key), xs[n].rights, c, 16); }
    }
  }

  /** An entry of a table comes from contributions, and stays within what bounds them. */
  lemma TableEntry<K>(xs: seq<Entry<K>>, table: seq<Entry<K>>, i: nat, c: nat) returns (k: nat)
    requires table == MergedAll([], xs) && Narrow(xs) && i < |table|
    requires forall j :: 0 <= j < |xs| && xs[j].key == table[i].key ==>
          xs[j].rights != 0 && Allowed(xs[j].rights, c)
    ensures k < |xs| && xs[k].key == table[i].key
    ensures table[i].rights != 0 && Allowed(table[i].rights, c)
  {
    hide Within, MergedAll, Lookup, Added, Pow2;
    var key := table[i].key;
    UniqueAll(xs);
    LookupUnique(table, i);
    LookupAll(xs, key);
    assert table[i] in table;
    k :| 0 <= k < |xs| && xs[k].key == key;
    AddedHolds(xs, k);
    if Added(xs, key) == 0 { WithinNothing(xs[k].rights, 16); }
    AddedWithin(xs, key, c);
  }
}
