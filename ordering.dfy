/**
 * `findMany({ where, orderBy: [desc(column)] })` over a table held as a map:
 * the rows the filter admits, each once, with the ordering column never increasing.
 */
module Ordering {

  /** Along `s`, `key` never increases. */
  ghost predicate SortedDesc<T>(s: seq<T>, key: T -> int) {
    forall i, j :: 0 <= i < j < |s| ==> key(s[i]) >= key(s[j])
  }

  /** The rows of `m` that `keep` admits. */
  ghost function Selected<K, T>(m: map<K, T>, keep: T -> bool): set<T> {
    set k | k in m && keep(m[k]) :: m[k]
  }

  /** Distinct keys hold distinct rows (true of every table whose rows carry their key). */
  ghost predicate Injective<K, T>(m: map<K, T>) {
    forall a, b :: a in m && b in m && m[a] == m[b] ==> a == b
  }

  /** `rows` is what the query answers: exactly the admitted rows, each once, newest first. */
  ghost predicate Listing<K, T>(rows: seq<T>, m: map<K, T>, keep: T -> bool, key: T -> int) {
    && SortedDesc(rows, key)
    && multiset(rows) == multiset(Selected(m, keep))
  }

  lemma ListingMembers<K, T>(rows: seq<T>, m: map<K, T>, keep: T -> bool, key: T -> int)
    requires Listing(rows, m, keep, key)
    ensures forall x :: x in rows <==> x in Selected(m, keep)
    ensures forall k :: k in m && keep(m[k]) ==> m[k] in rows
    ensures forall x :: x in rows ==> x in m.Values && keep(x)
  {
    forall x ensures x in rows <==> x in Selected(m, keep) {
      assert x in rows <==> x in multiset(rows);
    }
    forall x | x in rows ensures x in m.Values && keep(x) {
      var k :| k in m && keep(m[k]) && m[k] == x;
    }
  }

  /** Insert `x` into a sequence kept in descending `key` order. */
  function InsertDesc<T>(x: T, s: seq<T>, key: T -> int): (r: seq<T>)
    ensures multiset(r) == multiset(s) + multiset{x}
    ensures SortedDesc(s, key) ==> SortedDesc(r, key)
  {
    if s == [] then [x]
    else if key(x) >= key(s[0]) then [x] + s
    else
      var t := InsertDesc(x, s[1..], key);
      assert s == [s[0]] + s[1..];
      assert multiset([s[0]] + t) == multiset{s[0]} + multiset(t);
      assert SortedDesc(s, key) ==> SortedDesc([s[0]] + t, key) by {
        if SortedDesc(s, key) {
          ConsSorted(s[0], s[1..], x, t, key);
        }
      }
      [s[0]] + t
  }

  /** Putting the old head before the sorted tail with `x` inserted keeps the order. */
  lemma ConsSorted<T>(h: T, rest: seq<T>, x: T, t: seq<T>, key: T -> int)
    requires SortedDesc([h] + rest, key) && key(x) < key(h)
    requires multiset(t) == multiset(rest) + multiset{x} && SortedDesc(t, key)
    ensures SortedDesc([h] + t, key)
  {
    forall j | 0 <= j < |t| ensures key(h) >= key(t[j]) {
      assert t[j] in multiset(t);
      if t[j] != x {
        assert t[j] in multiset(rest);
        var i :| 0 <= i < |rest| && rest[i] == t[j];
        assert ([h] + rest)[0] == h && ([h] + rest)[i + 1] == t[j];
      }
    }
    var r := [h] + t;
    forall i, j | 0 <= i < j < |r| ensures key(r[i]) >= key(r[j]) {
      assert r[j] == t[j - 1];
      if i > 0 {
        assert r[i] == t[i - 1];
      }
    }
  }

  lemma SelectedStep<K, T>(m: map<K, T>, keep: T -> bool, todo: set<K>, k: K)
    requires Injective(m) && todo <= m.Keys && k in todo
    ensures keep(m[k]) ==> Selected(m - (todo - {k}), keep) == Selected(m - todo, keep) + {m[k]}
    ensures keep(m[k]) ==> m[k] !in Selected(m - todo, keep)
    ensures !keep(m[k]) ==> Selected(m - (todo - {k}), keep) == Selected(m - todo, keep)
  {
    var before, after := m - todo, m - (todo - {k});
    assert after == before[k := m[k]];
    forall x | x in Selected(after, keep) ensures x in Selected(before, keep) || (keep(m[k]) && x == m[k]) {
      var j :| j in after && keep(after[j]) && after[j] == x;
      if j != k {
        assert j in before;
      }
    }
    if keep(m[k]) {
      assert m[k] == after[k];
      forall x | x in Selected(before, keep) ensures x in Selected(after, keep) {
        var j :| j in before && keep(before[j]) && before[j] == x;
        assert j in after && after[j] == x;
      }
    } else {
      forall x | x in Selected(before, keep) ensures x in Selected(after, keep) {
        var j :| j in before && keep(before[j]) && before[j] == x;
        assert j in after && after[j] == x;
      }
    }
  }

  /** The query itself: scan the keys, keep the admitted rows in order. */
  method SelectDesc<K, T>(m: map<K, T>, keep: T -> bool, key: T -> int) returns (rows: seq<T>)
    requires Injective(m)
    ensures Listing(rows, m, keep, key)
  {
    var todo := m.Keys;
    rows := [];
    assert m - todo == map[];
    while todo != {}
      invariant todo <= m.Keys
      invariant SortedDesc(rows, key)
      invariant multiset(rows) == multiset(Selected(m - todo, keep))
      decreases |todo|
    {
      var k :| k in todo;
      SelectedStep(m, keep, todo, k);
      if keep(m[k]) {
        rows := InsertDesc(m[k], rows, key);
      }
      todo := todo - {k};
    }
    assert m - todo == m;
  }
}
