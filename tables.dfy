/** Keyed tables as the store keeps them: a map from primary key to record, written with
    insert-or-replace, and read back as a sorted list of the records that match a condition. */
module Tables {
  import opened Text

  /** Every record is stored under its own primary key. */
  predicate Keyed<R>(rows: map<string, R>, key: R -> string)
  {
    forall k :: k in rows ==> key(rows[k]) == k
  }

  /** The primary keys of a batch. */
  function KeysOf<R>(batch: seq<R>, key: R -> string): set<string>
  {
    set i | 0 <= i < |batch| :: key(batch[i])
  }

  /** `batch[i]` is the last record of the batch with its key. */
  predicate LastOfItsKey<R>(batch: seq<R>, i: nat, key: R -> string)
    requires i < |batch|
  {
    forall j :: i < j < |batch| ==> key(batch[j]) != key(batch[i])
  }

  /** `INSERT ... ON CONFLICT REPLACE` of a batch, record by record in batch order: a record whose
      key is already present replaces the stored one, so of two records with one key the later wins. */
  function Upsert<R>(rows: map<string, R>, batch: seq<R>, key: R -> string): (r: map<string, R>)
    ensures r.Keys == rows.Keys + KeysOf(batch, key)
    ensures forall k :: k in rows && k !in KeysOf(batch, key) ==> r[k] == rows[k]
    ensures Keyed(rows, key) ==> Keyed(r, key)
  {
    if batch == [] then rows
    else
      var n := |batch| - 1;
      assert KeysOf(batch, key) == KeysOf(batch[..n], key) + {key(batch[n])};
      Upsert(rows, batch[..n], key)[key(batch[n]) := batch[n]]
  }

  /** Of the records of a batch that share a key, the last one is what the table holds. */
  lemma {:induction false} UpsertLastWins<R>(rows: map<string, R>, batch: seq<R>, key: R -> string, i: nat)
    requires i < |batch| && LastOfItsKey(batch, i, key)
    ensures key(batch[i]) in Upsert(rows, batch, key)
    ensures Upsert(rows, batch, key)[key(batch[i])] == batch[i]
  {
    var n := |batch| - 1;
    if i < n {
      assert LastOfItsKey(batch[..n], i, key) by {
        forall j | i < j < n ensures key(batch[..n][j]) != key(batch[..n][i]) {
          assert batch[..n][j] == batch[j];
        }
      }
      UpsertLastWins(rows, batch[..n], key, i);
      assert batch[..n][i] == batch[i];
    }
  }

  /** `le` is total and transitive, as an `ORDER BY` comparison is. */
  ghost predicate TotalPreorder<R(!new)>(le: (R, R) -> bool)
  {
    && (forall a, b :: le(a, b) || le(b, a))
    && (forall a, b, c :: le(a, b) && le(b, c) ==> le(a, c))
  }

  /** An `ORDER BY name` comparison, whatever the record type, is a total preorder. */
  lemma NameOrderIsTotalPreorder<R(!new)>(le: (R, R) -> bool, name: R -> string)
    requires forall a, b :: le(a, b) == NameLe(name(a), name(b))
    ensures TotalPreorder(le)
  {
    forall a, b ensures le(a, b) || le(b, a) {
      NameLeTotal(name(a), name(b));
    }
    forall a, b, c | le(a, b) && le(b, c) ensures le(a, c) {
      NameLeTransitive(name(a), name(b), name(c));
    }
  }

  predicate Sorted<R>(s: seq<R>, le: (R, R) -> bool)
  {
    forall i, j :: 0 <= i < j < |s| ==> le(s[i], s[j])
  }

  /** What a `SELECT * ... WHERE keep ORDER BY le` returns: every stored record satisfying `keep`,
      each exactly once, and nothing else, sorted by `le`. */
  predicate Lists<R(==)>(rows: map<string, R>, keep: R -> bool, key: R -> string, le: (R, R) -> bool, r: seq<R>)
  {
    && Sorted(r, le)
    && (forall i :: 0 <= i < |r| ==> key(r[i]) in rows && rows[key(r[i])] == r[i] && keep(r[i]))
    && (forall k :: k in rows && keep(rows[k]) ==> rows[k] in r)
    && DistinctKeys(r, key)
  }

  predicate DistinctKeys<R>(r: seq<R>, key: R -> string)
  {
    forall i, j :: 0 <= i < j < |r| ==> key(r[i]) != key(r[j])
  }

  /** Where each element of `s` lands when `x` is inserted at position `p`. */
  lemma InsertedAt<R>(s: seq<R>, x: R, p: nat)
    requires p <= |s|
    ensures |s[..p] + [x] + s[p..]| == |s| + 1
    ensures forall i :: 0 <= i < p ==> (s[..p] + [x] + s[p..])[i] == s[i]
    ensures (s[..p] + [x] + s[p..])[p] == x
    ensures forall i :: p < i <= |s| ==> (s[..p] + [x] + s[p..])[i] == s[i - 1]
  {
  }

  lemma InsertKeepsDistinct<R>(s: seq<R>, x: R, p: nat, key: R -> string)
    requires p <= |s| && DistinctKeys(s, key)
    requires forall i :: 0 <= i < |s| ==> key(s[i]) != key(x)
    ensures DistinctKeys(s[..p] + [x] + s[p..], key)
  {
    var r := s[..p] + [x] + s[p..];
    InsertedAt(s, x, p);
    forall i, j | 0 <= i < j < |r|
      ensures key(r[i]) != key(r[j])
    {
      var a := if i < p then i else i - 1;
      var b := if j < p then j else j - 1;
      if i != p && j != p {
        assert r[i] == s[a] && r[j] == s[b] && a < b;
      }
    }
  }

  /** The first position of `s` whose element does not come before `x`. */
  function InsertionPoint<R>(s: seq<R>, x: R, le: (R, R) -> bool): (p: nat)
    ensures p <= |s|
    ensures forall i :: 0 <= i < p ==> !le(x, s[i])
    ensures p < |s| ==> le(x, s[p])
  {
    if s == [] || le(x, s[0]) then 0 else 1 + InsertionPoint(s[1..], x, le)
  }

  lemma InsertKeepsSorted<R(!new)>(s: seq<R>, x: R, le: (R, R) -> bool)
    requires TotalPreorder(le) && Sorted(s, le)
    ensures Sorted(s[..InsertionPoint(s, x, le)] + [x] + s[InsertionPoint(s, x, le)..], le)
  {
    var p := InsertionPoint(s, x, le);
    var r := s[..p] + [x] + s[p..];
    forall i, j | 0 <= i < j < |r|
      ensures le(r[i], r[j])
    {
      if j < p {
        assert r[i] == s[i] && r[j] == s[j];
      } else if j == p {
        assert r[i] == s[i] && !le(x, s[i]);
      } else if i < p {
        assert r[i] == s[i] && r[j] == s[j - 1];
      } else if i == p {
        assert r[j] == s[j - 1] && le(x, s[p]);
        if j - 1 > p {
          assert le(s[p], s[j - 1]);
        }
      } else {
        assert r[i] == s[i - 1] && r[j] == s[j - 1];
      }
    }
  }

  /** Runs the query: visits the stored keys in an unspecified order and inserts each kept record
      at its place in the sorted result. */
  method Select<R(==,!new)>(rows: map<string, R>, keep: R -> bool, key: R -> string, le: (R, R) -> bool)
    returns (r: seq<R>)
    requires Keyed(rows, key)
    requires TotalPreorder(le)
    ensures Lists(rows, keep, key, le, r)
  {
    r := [];
    var rest := rows.Keys;
    while rest != {}
      invariant rest <= rows.Keys
      invariant Sorted(r, le)
      invariant forall i :: 0 <= i < |r| ==> key(r[i]) in rows && key(r[i]) !in rest && rows[key(r[i])] == r[i] && keep(r[i])
      invariant forall k :: k in rows && k !in rest && keep(rows[k]) ==> rows[k] in r
      invariant DistinctKeys(r, key)
      decreases rest
    {
      var k :| k in rest;
      rest := rest - {k};
      if keep(rows[k]) {
        var x := rows[k];
        var p := InsertionPoint(r, x, le);
        InsertKeepsSorted(r, x, le);
        InsertKeepsDistinct(r, x, p, key);
        InsertedAt(r, x, p);
        var r' := r[..p] + [x] + r[p..];
        assert forall i :: 0 <= i < |r'| ==> r'[i] == x || r'[i] in r;
        assert forall i :: 0 <= i < |r| ==> r[i] in r';
        r := r';
      }
    }
  }

  /** A filtered listing holds nothing that the unfiltered listing of the same table lacks. */
  lemma ListedWithinAll<R>(rows: map<string, R>, keep: R -> bool, all: R -> bool, key: R -> string,
                           le: (R, R) -> bool, r: seq<R>, everything: seq<R>)
    requires forall k :: k in rows ==> all(rows[k])
    requires Lists(rows, keep, key, le, r) && Lists(rows, all, key, le, everything)
    ensures forall i :: 0 <= i < |r| ==> r[i] in everything
  {
  }

  lemma {:induction false} DistinctKeysCount<R>(r: seq<R>, key: R -> string)
    requires DistinctKeys(r, key)
    ensures |KeysOf(r, key)| == |r|
  {
    if r != [] {
      var n := |r| - 1;
      assert DistinctKeys(r[..n], key);
      DistinctKeysCount(r[..n], key);
      assert KeysOf(r, key) == KeysOf(r[..n], key) + {key(r[n])};
      assert key(r[n]) !in KeysOf(r[..n], key);
    }
  }

  /** Listing every row of a table gives exactly as many records as the table has keys. */
  lemma ListingAllHasTableSize<R>(rows: map<string, R>, keep: R -> bool, key: R -> string,
                                  le: (R, R) -> bool, r: seq<R>)
    requires Keyed(rows, key) && forall k :: k in rows ==> keep(rows[k])
    requires Lists(rows, keep, key, le, r)
    ensures |r| == |rows|
  {
    DistinctKeysCount(r, key);
    assert KeysOf(r, key) == rows.Keys by {
      forall k | k in rows ensures k in KeysOf(r, key) {
        var i :| 0 <= i < |r| && r[i] == rows[k];
        assert key(r[i]) == k;
      }
    }
  }

  /** Inserting a batch with distinct keys into an empty table stores each record under its key. */
  lemma UpsertDistinctIntoEmpty<R>(batch: seq<R>, key: R -> string)
    requires DistinctKeys(batch, key)
    ensures |Upsert(map[], batch, key)| == |batch|
    ensures forall i :: 0 <= i < |batch| ==> Upsert(map[], batch, key)[key(batch[i])] == batch[i]
  {
    DistinctKeysCount(batch, key);
    forall i | 0 <= i < |batch| ensures Upsert(map[], batch, key)[key(batch[i])] == batch[i] {
      UpsertLastWins(map[], batch, key, i);
    }
  }

  /** Listing every row after inserting a batch with distinct keys into an empty table gives back
      exactly the batch's records, as many as the batch has. */
  lemma ListingAfterDistinctInsert<R>(batch: seq<R>, keep: R -> bool, key: R -> string, le: (R, R) -> bool, r: seq<R>)
    requires DistinctKeys(batch, key)
    requires forall i :: 0 <= i < |batch| ==> keep(batch[i])
    requires Lists(Upsert(map[], batch, key), keep, key, le, r)
    ensures |r| == |batch|
    ensures forall i :: 0 <= i < |batch| ==> batch[i] in r
    ensures forall i :: 0 <= i < |r| ==> r[i] in batch
  {
    var rows := Upsert(map[], batch, key);
    UpsertDistinctIntoEmpty(batch, key);
    forall i | 0 <= i < |batch| ensures key(batch[i]) in rows && rows[key(batch[i])] == batch[i] {
      assert key(batch[i]) in KeysOf(batch, key);
    }
    forall k | k in rows ensures keep(rows[k]) {
      var j :| 0 <= j < |batch| && key(batch[j]) == k;
    }
    ListingAllHasTableSize(rows, keep, key, le, r);
    forall i | 0 <= i < |r| ensures r[i] in batch {
      var k := key(r[i]);
      var j :| 0 <= j < |batch| && key(batch[j]) == k;
    }
  }
}
