/**
 Last-writer-wins merging of versioned records. Merging keeps the highest version of every key, so order, batching
 and repetition do not matter: exactly as long as no two different records compete at the highest version.
 */
module Records {
  import opened Topology

  type Key = string

  datatype Version = Version(epoch: nat, sequence: nat, node: nat)

  datatype Record = Record(value: string, version: Version, deleted: bool, expiresAt: Option<nat>)

  type Store = map<Key, Record>

  datatype Item = Item(key: Key, record: Record)

  /** `compare_versions(a, b).is_gt()`: topology epoch, then owner sequence, then owner id. */
  predicate Newer(a: Version, b: Version) {
    a.epoch > b.epoch || (a.epoch == b.epoch && (a.sequence > b.sequence || (a.sequence == b.sequence && a.node > b.node)))
  }

  /** `apply_internal_record`. */
  function Apply(s: Store, x: Item): Store {
    if x.key !in s || Newer(x.record.version, s[x.key].version) then s[x.key := x.record] else s
  }

  function Merge(s: Store, items: seq<Item>): Store {
    if items == [] then s else Apply(Merge(s, items[..|items| - 1]), items[|items| - 1])
  }

  lemma {:induction false} MergeAppend(s: Store, a: seq<Item>, b: seq<Item>)
    ensures Merge(s, a + b) == Merge(Merge(s, a), b)
  {
    if b == [] {
      assert a + b == a;
    } else {
      MergeAppend(s, a, b[..|b| - 1]);
      assert (a + b)[..|a + b| - 1] == a + b[..|b| - 1];
    }
  }

  /** The record was there before the merge or is among the merged. */
  ghost predicate Offered(s: Store, items: seq<Item>, x: Item) {
    (x.key in s && s[x.key] == x.record) || x in items
  }

  /** Merging leaves, for exactly the keys on offer, a record that was offered and that no offer beats. */
  lemma {:induction false} MergeKeepsHighest(s: Store, items: seq<Item>)
    ensures forall k :: k in Merge(s, items) ==> Offered(s, items, Item(k, Merge(s, items)[k]))
    ensures forall x :: Offered(s, items, x)
                    ==> x.key in Merge(s, items) && !Newer(x.record.version, Merge(s, items)[x.key].version)
  {
    if items != [] {
      var init, last := items[..|items| - 1], items[|items| - 1];
      MergeKeepsHighest(s, init);
      assert items == init + [last];
      ApplyKeepsHighest(s, init, last, Merge(s, init));
    }
  }

  /** The store holds, for exactly the keys on offer, a record that was offered and that no offer beats. */
  ghost predicate HoldsHighest(s: Store, items: seq<Item>, m: Store) {
    && (forall k :: k in m ==> Offered(s, items, Item(k, m[k])))
    && (forall x :: Offered(s, items, x) ==> x.key in m && !Newer(x.record.version, m[x.key].version))
  }

  lemma ApplyKeepsHighest(s: Store, init: seq<Item>, last: Item, m: Store)
    requires HoldsHighest(s, init, m)
    ensures HoldsHighest(s, init + [last], Apply(m, last))
  {
    var after := Apply(m, last);
    forall k | k in after ensures Offered(s, init + [last], Item(k, after[k])) {
      assert k in m && after[k] == m[k] ==> Offered(s, init, Item(k, m[k]));
    }
    forall x | Offered(s, init + [last], x) ensures x.key in after && !Newer(x.record.version, after[x.key].version) {
      assert x == last || Offered(s, init, x);
    }
  }

  // ----- Order, batching and repetition -----

  ghost predicate SameItems(a: seq<Item>, b: seq<Item>) {
    forall x :: x in a <==> x in b
  }

  /** Two different records of a key, at the same version, that nothing on offer beats and the store does not settle. */
  ghost predicate Contested(s: Store, items: seq<Item>, x: Item, y: Item) {
    && x in items && y in items && x != y && x.key == y.key && x.record.version == y.record.version
    && (x.key in s ==> Newer(x.record.version, s[x.key].version))
    && forall z :: z in items && z.key == x.key ==> !Newer(z.record.version, x.record.version)
  }

  /** Every arrangement of the same records, repeated at will, gives the same store. */
  ghost predicate OrderFree(s: Store, items: seq<Item>) {
    forall a :: SameItems(items, a) ==> Merge(s, a) == Merge(s, items)
  }

  /** A store's own record is only replaced by a newer one. */
  lemma {:induction false} SettledStays(s: Store, items: seq<Item>, k: Key)
    requires k in s && forall x :: x in items && x.key == k ==> !Newer(x.record.version, s[k].version)
    ensures k in Merge(s, items) && Merge(s, items)[k] == s[k]
  {
    if items != [] {
      assert items[|items| - 1] in items;
      SettledStays(s, items[..|items| - 1], k);
    }
  }

  lemma {:induction false} SameTop(s: Store, a: seq<Item>, b: seq<Item>, k: Key)
    requires SameItems(a, b) && !exists x, y :: Contested(s, a, x, y)
    requires k in Merge(s, a)
    ensures k in Merge(s, b) && Merge(s, b)[k] == Merge(s, a)[k]
  {
    MergeKeepsHighest(s, a);
    MergeKeepsHighest(s, b);
    var x := Item(k, Merge(s, a)[k]);
    assert Offered(s, a, x) && Offered(s, b, x);
    var y := Item(k, Merge(s, b)[k]);
    assert Offered(s, b, y) && Offered(s, a, y);
    assert x.record.version == y.record.version;
    if k in s && !Newer(x.record.version, s[k].version) {
      assert Offered(s, a, Item(k, s[k]));
      SettledStays(s, a, k);
      SettledStays(s, b, k);
    } else if x != y {
      assert forall z :: z in a ==> Offered(s, a, z);
      assert Contested(s, a, x, y);
    }
  }

  lemma {:induction false} ContestedDecidesByOrder(s: Store, items: seq<Item>, x: Item, y: Item)
    requires Contested(s, items, x, y)
    ensures SameItems(items, [x] + items) && Merge(s, [x] + items) != Merge(s, [y] + items)
  {
    forall z | z == x || z == y ensures x.key in Merge(s, [z] + items) && Merge(s, [z] + items)[x.key] == z.record {
      MergeAppend(s, [z], items);
      assert [z][..0] == [] && Merge(s, [z]) == Apply(s, z);
      SettledStays(Apply(s, z), items, x.key);
    }
  }

  /** The order of arrival is irrelevant if and only if no key is contested at its highest version. */
  lemma OrderIsIrrelevant(s: Store, items: seq<Item>)
    ensures OrderFree(s, items) <==> !exists x, y :: Contested(s, items, x, y)
  {
    if x, y :| Contested(s, items, x, y) {
      ContestedDecidesByOrder(s, items, x, y);
      assert SameItems(items, [y] + items);
    } else {
      forall a | SameItems(items, a) ensures Merge(s, a) == Merge(s, items) {
        forall k | k in Merge(s, items) || k in Merge(s, a) ensures k in Merge(s, a) && k in Merge(s, items)
                                                                && Merge(s, a)[k] == Merge(s, items)[k] {
          if k in Merge(s, a) {
            MergeKeepsHighest(s, a);
            MergeKeepsHighest(s, items);
            assert Offered(s, a, Item(k, Merge(s, a)[k]));
            assert Offered(s, items, Item(k, Merge(s, a)[k]));
          }
          SameTop(s, items, a, k);
        }
      }
    }
  }
}
