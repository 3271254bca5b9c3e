/**
 * Candidate ranking shared by both simulators: the prioritization methods,
 * their sort keys, and Python's `sorted(key=..., reverse=...)`, which is a
 * stable sort in both directions (with `reverse=True` records with equal
 * keys still keep their original order).
 */
module Ranking {
  import opened MarketData

  /** The prioritization methods; any other name is `Unknown`. */
  datatype Method = Rsi | RsiDesc | AToZ | ZToA | HvDesc | AdxDesc | Unknown(name: string)

  /** The configuration string of a prioritization method. */
  function ParseMethod(name: string): (m: Method)
    ensures m.Unknown? <==> name !in {"RSI", "RSI_DESC", "A-Z", "Z-A", "HV_DESC", "ADX_DESC"}
    ensures m.Unknown? ==> m.name == name
  {
    if name == "RSI" then Rsi
    else if name == "RSI_DESC" then RsiDesc
    else if name == "A-Z" then AToZ
    else if name == "Z-A" then ZToA
    else if name == "HV_DESC" then HvDesc
    else if name == "ADX_DESC" then AdxDesc
    else Unknown(name)
  }

  /** Which field of a candidate is the sort key. */
  datatype KeyKind = ByRsi | ByHv | ByAdx | ByTicker

  /** A key extractor and a direction: the `(key, reverse)` pair passed to `sorted`. */
  datatype SortSpec = SortSpec(key: KeyKind, descending: bool)

  /** A sort key value: a number or a string. */
  datatype Key = Num(x: real) | Text(s: string)

  /** The key of a candidate; a missing HV or ADX counts as 0. */
  function KeyOf(k: KeyKind, c: Candidate): Key {
    match k
    case ByRsi => Num(c.rsi)
    case ByHv => Num(c.hv.GetOr(0.0))
    case ByAdx => Num(c.adx.GetOr(0.0))
    case ByTicker => Text(c.ticker)
  }

  /** Python's `<` on strings: lexicographic by code point, a proper prefix first. */
  predicate StrLess(a: string, b: string)
    decreases |a|
  {
    if |a| == 0 then |b| > 0
    else if |b| == 0 then false
    else a[0] < b[0] || (a[0] == b[0] && StrLess(a[1..], b[1..]))
  }

  lemma {:induction false} StrLessIrreflexive(a: string)
    ensures !StrLess(a, a)
    decreases |a|
  {
    if |a| > 0 {
      StrLessIrreflexive(a[1..]);
    }
  }

  lemma {:induction false} StrLessTransitive(a: string, b: string, c: string)
    requires StrLess(a, b) && StrLess(b, c)
    ensures StrLess(a, c)
    decreases |a|
  {
    if |a| > 0 && a[0] == b[0] && b[0] == c[0] {
      StrLessTransitive(a[1..], b[1..], c[1..]);
    }
  }

  lemma {:induction false} StrLessTotal(a: string, b: string)
    requires a != b
    ensures StrLess(a, b) || StrLess(b, a)
    decreases |a|
  {
    if |a| > 0 && |b| > 0 && a[0] == b[0] {
      assert a == [a[0]] + a[1..] && b == [b[0]] + b[1..];
      StrLessTotal(a[1..], b[1..]);
    }
  }

  /** A strict total order on keys (numbers before strings; never mixed in one sort). */
  predicate KeyLess(a: Key, b: Key) {
    match (a, b)
    case (Num(x), Num(y)) => x < y
    case (Text(s), Text(t)) => StrLess(s, t)
    case (Num(_), Text(_)) => true
    case (Text(_), Num(_)) => false
  }

  lemma KeyLessIrreflexive(a: Key)
    ensures !KeyLess(a, a)
  {
    if a.Text? { StrLessIrreflexive(a.s); }
  }

  lemma KeyLessTransitive(a: Key, b: Key, c: Key)
    requires KeyLess(a, b) && KeyLess(b, c)
    ensures KeyLess(a, c)
  {
    if a.Text? && b.Text? && c.Text? { StrLessTransitive(a.s, b.s, c.s); }
  }

  lemma KeyLessTotal(a: Key, b: Key)
    requires a != b
    ensures KeyLess(a, b) || KeyLess(b, a)
  {
    if a.Text? && b.Text? { StrLessTotal(a.s, b.s); }
  }

  /** `a` is placed strictly before `b` by the sort. */
  predicate Before(spec: SortSpec, a: Candidate, b: Candidate) {
    if spec.descending then KeyLess(KeyOf(spec.key, b), KeyOf(spec.key, a))
    else KeyLess(KeyOf(spec.key, a), KeyOf(spec.key, b))
  }

  lemma BeforeSameKey(spec: SortSpec, a: Candidate, b: Candidate)
    requires KeyOf(spec.key, a) == KeyOf(spec.key, b)
    ensures !Before(spec, a, b)
  {
    KeyLessIrreflexive(KeyOf(spec.key, a));
  }

  lemma BeforeAsymmetric(spec: SortSpec, a: Candidate, b: Candidate)
    requires Before(spec, a, b)
    ensures !Before(spec, b, a)
  {
    var ka, kb := KeyOf(spec.key, a), KeyOf(spec.key, b);
    if Before(spec, b, a) {
      if spec.descending { KeyLessTransitive(ka, kb, ka); } else { KeyLessTransitive(ka, kb, ka); }
      KeyLessIrreflexive(ka);
    }
  }

  /** `x` before `y`, and `z` not before `y`, put `x` before `z`. */
  lemma BeforeThenNotBefore(spec: SortSpec, x: Candidate, y: Candidate, z: Candidate)
    requires Before(spec, x, y) && !Before(spec, z, y)
    ensures Before(spec, x, z)
  {
    var kx, ky, kz := KeyOf(spec.key, x), KeyOf(spec.key, y), KeyOf(spec.key, z);
    if ky != kz {
      KeyLessTotal(ky, kz);
      if spec.descending { KeyLessTransitive(kz, ky, kx); } else { KeyLessTransitive(kx, ky, kz); }
    }
  }

  /** No later element is placed strictly before an earlier one. */
  predicate Sorted(spec: SortSpec, s: seq<Candidate>) {
    forall i, j :: 0 <= i < j < |s| ==> !Before(spec, s[j], s[i])
  }

  /** Inserts `x` after every element it is not strictly before. */
  function Insert(spec: SortSpec, x: Candidate, s: seq<Candidate>): (r: seq<Candidate>)
    ensures multiset(r) == multiset(s) + multiset{x}
    ensures |r| == |s| + 1
  {
    if s == [] then [x]
    else if Before(spec, x, s[0]) then [x] + s
    else
      assert s == [s[0]] + s[1..];
      [s[0]] + Insert(spec, x, s[1..])
  }

  /** The stable sort: each element, in input order, is inserted into the sorted prefix. */
  function Sort(spec: SortSpec, s: seq<Candidate>): (r: seq<Candidate>)
    ensures multiset(r) == multiset(s)
    ensures |r| == |s|
  {
    if s == [] then []
    else
      assert s == s[..|s| - 1] + [s[|s| - 1]];
      Insert(spec, s[|s| - 1], Sort(spec, s[..|s| - 1]))
  }

  /** The elements of `s` whose key is `k`, in their order in `s`. */
  function WithKey(spec: SortSpec, s: seq<Candidate>, k: Key): seq<Candidate> {
    if s == [] then []
    else (if KeyOf(spec.key, s[0]) == k then [s[0]] else []) + WithKey(spec, s[1..], k)
  }

  lemma {:induction false} WithKeyAppend(spec: SortSpec, a: seq<Candidate>, b: seq<Candidate>, k: Key)
    ensures WithKey(spec, a + b, k) == WithKey(spec, a, k) + WithKey(spec, b, k)
  {
    if a == [] {
      assert a + b == b;
    } else {
      assert (a + b)[1..] == a[1..] + b;
      WithKeyAppend(spec, a[1..], b, k);
    }
  }

  lemma WithKeyCons(spec: SortSpec, c: Candidate, s: seq<Candidate>, k: Key)
    ensures WithKey(spec, [c] + s, k) == (if KeyOf(spec.key, c) == k then [c] else []) + WithKey(spec, s, k)
  {
    assert ([c] + s)[1..] == s;
  }

  lemma SortedTail(spec: SortSpec, s: seq<Candidate>)
    requires Sorted(spec, s) && s != []
    ensures Sorted(spec, s[1..])
  {
    forall i, j | 0 <= i < j < |s[1..]| ensures !Before(spec, s[1..][j], s[1..][i]) {
      assert s[1..][j] == s[j + 1] && s[1..][i] == s[i + 1];
    }
  }

  /** Every element of a sorted `s` is not before its first element. */
  lemma SortedHead(spec: SortSpec, s: seq<Candidate>, j: int)
    requires Sorted(spec, s) && 0 < j < |s|
    ensures !Before(spec, s[j], s[0])
  {
  }

  lemma {:induction false} InsertSorted(spec: SortSpec, x: Candidate, s: seq<Candidate>)
    requires Sorted(spec, s)
    ensures Sorted(spec, Insert(spec, x, s))
  {
    if s == [] {
    } else if Before(spec, x, s[0]) {
      InsertSortedFront(spec, x, s);
    } else {
      var t := Insert(spec, x, s[1..]);
      SortedTail(spec, s);
      InsertSorted(spec, x, s[1..]);
      InsertMembers(spec, x, s[1..]);
      InsertSortedLater(spec, x, s, t);
      assert Insert(spec, x, s) == [s[0]] + t;
    }
  }

  /** Putting `x` in front of a sorted `s` whose head it is before keeps it sorted. */
  lemma InsertSortedFront(spec: SortSpec, x: Candidate, s: seq<Candidate>)
    requires Sorted(spec, s) && s != [] && Before(spec, x, s[0])
    ensures Sorted(spec, [x] + s)
  {
    var r := [x] + s;
    forall i, j | 0 <= i < j < |r| ensures !Before(spec, r[j], r[i]) {
      if i == 0 {
        if j == 1 {
          BeforeAsymmetric(spec, x, s[0]);
        } else {
          BeforeThenNotBefore(spec, x, s[0], s[j - 1]);
          BeforeAsymmetric(spec, x, s[j - 1]);
        }
      } else {
        assert r[i] == s[i - 1] && r[j] == s[j - 1];
      }
    }
  }

  /**
   * Keeping the head of a sorted `s` in front of a sorted `t` made of `x`
   * and the tail of `s` keeps it sorted, when `x` is not before the head.
   */
  lemma InsertSortedLater(spec: SortSpec, x: Candidate, s: seq<Candidate>, t: seq<Candidate>)
    requires Sorted(spec, s) && s != [] && !Before(spec, x, s[0]) && Sorted(spec, t)
    requires forall c :: c in t <==> c == x || c in s[1..]
    ensures Sorted(spec, [s[0]] + t)
  {
    var r := [s[0]] + t;
    forall i, j | 0 <= i < j < |r| ensures !Before(spec, r[j], r[i]) {
      if i == 0 {
        assert r[j] == t[j - 1] && r[j] in t;
        if r[j] != x {
          var k :| 0 <= k < |s[1..]| && s[1..][k] == r[j];
          assert s[k + 1] == r[j];
        }
      } else {
        assert r[i] == t[i - 1] && r[j] == t[j - 1];
      }
    }
  }

  /** Membership in the result of `Insert`, element-wise. */
  lemma InsertMembers(spec: SortSpec, x: Candidate, s: seq<Candidate>)
    ensures forall c :: c in Insert(spec, x, s) <==> c == x || c in s
  {
    var r := Insert(spec, x, s);
    forall c ensures c in r <==> c == x || c in s {
      assert c in r <==> c in multiset(r);
      assert c in s <==> c in multiset(s);
    }
  }

  /** The free-standing result of sorting is ordered. */
  lemma {:induction false} SortIsSorted(spec: SortSpec, s: seq<Candidate>)
    ensures Sorted(spec, Sort(spec, s))
  {
    if s != [] {
      SortIsSorted(spec, s[..|s| - 1]);
      InsertSorted(spec, s[|s| - 1], Sort(spec, s[..|s| - 1]));
    }
  }

  lemma {:induction false} InsertWithKey(spec: SortSpec, x: Candidate, s: seq<Candidate>, k: Key)
    requires Sorted(spec, s)
    ensures WithKey(spec, Insert(spec, x, s), k) ==
            WithKey(spec, s, k) + (if KeyOf(spec.key, x) == k then [x] else [])
    decreases |s|
  {
    if s == [] {
      WithKeyCons(spec, x, [], k);
    } else if Before(spec, x, s[0]) {
      InsertWithKeyFront(spec, x, s, k);
    } else {
      SortedTail(spec, s);
      InsertWithKey(spec, x, s[1..], k);
      InsertWithKeyLater(spec, x, s, k);
    }
  }

  /** `InsertWithKey` when `x` goes in front. */
  lemma InsertWithKeyFront(spec: SortSpec, x: Candidate, s: seq<Candidate>, k: Key)
    requires Sorted(spec, s) && s != [] && Before(spec, x, s[0])
    ensures WithKey(spec, Insert(spec, x, s), k) ==
            WithKey(spec, s, k) + (if KeyOf(spec.key, x) == k then [x] else [])
  {
    assert Insert(spec, x, s) == [x] + s;
    WithKeyCons(spec, x, s, k);
    if KeyOf(spec.key, x) == k {
      NoneWithKey(spec, x, s, k);
    }
  }

  /** `InsertWithKey` when `x` goes after the head, given the result for the tail. */
  lemma InsertWithKeyLater(spec: SortSpec, x: Candidate, s: seq<Candidate>, k: Key)
    requires s != [] && !Before(spec, x, s[0])
    requires WithKey(spec, Insert(spec, x, s[1..]), k) ==
             WithKey(spec, s[1..], k) + (if KeyOf(spec.key, x) == k then [x] else [])
    ensures WithKey(spec, Insert(spec, x, s), k) ==
            WithKey(spec, s, k) + (if KeyOf(spec.key, x) == k then [x] else [])
  {
    var t := Insert(spec, x, s[1..]);
    assert Insert(spec, x, s) == [s[0]] + t;
    assert s == [s[0]] + s[1..];
    ConsWithKey(spec, s[0], t, s[1..], k, if KeyOf(spec.key, x) == k then [x] else []);
  }

  /** Putting the same head in front of two lists keeps a relation between their key classes. */
  lemma ConsWithKey(spec: SortSpec, h: Candidate, t: seq<Candidate>, u: seq<Candidate>, k: Key, xe: seq<Candidate>)
    requires WithKey(spec, t, k) == WithKey(spec, u, k) + xe
    ensures WithKey(spec, [h] + t, k) == WithKey(spec, [h] + u, k) + xe
  {
    var e := if KeyOf(spec.key, h) == k then [h] else [];
    WithKeyCons(spec, h, t, k);
    WithKeyCons(spec, h, u, k);
    ConcatAssoc(e, WithKey(spec, u, k), xe);
  }

  lemma ConcatAssoc(a: seq<Candidate>, b: seq<Candidate>, c: seq<Candidate>)
    ensures a + (b + c) == (a + b) + c
  {
  }

  /** When `x` is before the head of a sorted `s`, no element of `s` shares its key. */
  lemma {:induction false} NoneWithKey(spec: SortSpec, x: Candidate, s: seq<Candidate>, k: Key)
    requires Sorted(spec, s) && s != [] && Before(spec, x, s[0]) && KeyOf(spec.key, x) == k
    ensures WithKey(spec, s, k) == []
  {
    forall j | 0 <= j < |s| ensures KeyOf(spec.key, s[j]) != k {
      if j > 0 { BeforeThenNotBefore(spec, x, s[0], s[j]); }
      if KeyOf(spec.key, s[j]) == k {
        BeforeSameKey(spec, x, s[j]);
      }
    }
    NoKeyNoneWithKey(spec, s, k);
  }

  lemma {:induction false} NoKeyNoneWithKey(spec: SortSpec, s: seq<Candidate>, k: Key)
    requires forall j :: 0 <= j < |s| ==> KeyOf(spec.key, s[j]) != k
    ensures WithKey(spec, s, k) == []
  {
    if s != [] {
      NoKeyNoneWithKey(spec, s[1..], k);
    }
  }

  /**
   * Stability: for every key, the elements with that key appear in the sorted
   * result in exactly their input order.
   */
  lemma {:induction false} SortIsStable(spec: SortSpec, s: seq<Candidate>, k: Key)
    ensures WithKey(spec, Sort(spec, s), k) == WithKey(spec, s, k)
  {
    if s != [] {
      var p, x := s[..|s| - 1], s[|s| - 1];
      assert s == p + [x];
      SortIsStable(spec, p, k);
      SortIsSorted(spec, p);
      InsertWithKey(spec, x, Sort(spec, p), k);
      WithKeyAppend(spec, p, [x], k);
      WithKeyCons(spec, x, [], k);
      SortLast(spec, s);
    }
  }

  /** Unfolds `Sort` once at the last element. */
  lemma SortLast(spec: SortSpec, s: seq<Candidate>)
    requires s != []
    ensures Sort(spec, s) == Insert(spec, s[|s| - 1], Sort(spec, s[..|s| - 1]))
  {
  }

  /** The result of `Sort` is an ordered permutation of its input that keeps every key class in input order. */
  lemma SortSpecified(spec: SortSpec, s: seq<Candidate>)
    ensures multiset(Sort(spec, s)) == multiset(s)
    ensures Sorted(spec, Sort(spec, s))
    ensures forall k :: WithKey(spec, Sort(spec, s), k) == WithKey(spec, s, k)
  {
    SortIsSorted(spec, s);
    forall k ensures WithKey(spec, Sort(spec, s), k) == WithKey(spec, s, k) {
      SortIsStable(spec, s, k);
    }
  }

  // ---------------------------------------------------------------------
  // Candidates are keyed by ticker: sorting keeps the tickers distinct
  // ---------------------------------------------------------------------

  /** No two candidates share a ticker. */
  predicate DistinctTickers(s: seq<Candidate>) {
    forall i, j :: 0 <= i < j < |s| ==> s[i].ticker != s[j].ticker
  }

  /** Inserting a candidate with a new ticker keeps the tickers distinct. */
  lemma {:induction false} InsertKeepsDistinct(spec: SortSpec, x: Candidate, s: seq<Candidate>)
    requires DistinctTickers(s)
    requires forall c :: c in s ==> c.ticker != x.ticker
    ensures DistinctTickers(Insert(spec, x, s))
  {
    var r := Insert(spec, x, s);
    if s == [] {
    } else if Before(spec, x, s[0]) {
      forall i, j | 0 <= i < j < |r| ensures r[i].ticker != r[j].ticker {
        assert r[j] == s[j - 1];
        if i == 0 {
          assert s[j - 1] in s;
        } else {
          assert r[i] == s[i - 1];
        }
      }
    } else {
      var t := s[1..];
      forall c | c in t ensures c.ticker != x.ticker {
        assert c in s;
      }
      InsertKeepsDistinct(spec, x, t);
      InsertMembers(spec, x, t);
      var r' := Insert(spec, x, t);
      assert r == [s[0]] + r';
      forall i, j | 0 <= i < j < |r| ensures r[i].ticker != r[j].ticker {
        assert r[j] == r'[j - 1] && r[j] in r';
        if i == 0 {
          if r[j] != x {
            var k :| 0 <= k < |t| && t[k] == r[j];
            assert s[k + 1] == r[j];
          }
        } else {
          assert r[i] == r'[i - 1];
        }
      }
    }
  }

  /** The sorted list of candidates with distinct tickers has distinct tickers. */
  lemma {:induction false} SortKeepsDistinct(spec: SortSpec, s: seq<Candidate>)
    requires DistinctTickers(s)
    ensures DistinctTickers(Sort(spec, s))
  {
    if s != [] {
      var pre, x := s[..|s| - 1], s[|s| - 1];
      assert DistinctTickers(pre) by {
        forall i, j | 0 <= i < j < |pre| ensures pre[i].ticker != pre[j].ticker {
          assert pre[i] == s[i] && pre[j] == s[j];
        }
      }
      SortKeepsDistinct(spec, pre);
      forall c | c in Sort(spec, pre) ensures c.ticker != x.ticker {
        assert c in multiset(Sort(spec, pre));
        assert c in multiset(pre);
        var k :| 0 <= k < |pre| && pre[k] == c;
        assert s[k] == c;
      }
      InsertKeepsDistinct(spec, x, Sort(spec, pre));
      SortLast(spec, s);
    }
  }

  /** Sorting neither adds nor drops a candidate. */
  lemma SortMembers(spec: SortSpec, s: seq<Candidate>)
    ensures forall c :: c in Sort(spec, s) <==> c in s
  {
    forall c ensures c in Sort(spec, s) <==> c in s {
      assert c in Sort(spec, s) <==> c in multiset(Sort(spec, s));
      assert c in s <==> c in multiset(s);
    }
  }
}
