/**
 * The debtor and creditor lists of `calculateSettlements` (src/App.tsx, lines 96-101):
 * the dictionary's entries filtered by sign and sorted with `Array.prototype.sort`,
 * which is stable.
 */
module Ordering {
  import opened Types
  import opened Lists
  import opened Ledger

  /** The sort key: the balance for `a[1] - b[1]`, its negation for `b[1] - a[1]`. */
  function Rank(e: Entry, descending: bool): real
  {
    if descending then -e.bal else e.bal
  }

  predicate Sorted(s: seq<Entry>, descending: bool)
  {
    forall i, j :: 0 <= i < j < |s| ==> Rank(s[i], descending) <= Rank(s[j], descending)
  }

  /** `a` comes strictly before `b` by rank, ties broken by ascending id. */
  predicate Before(a: Entry, b: Entry, descending: bool)
  {
    Rank(a, descending) < Rank(b, descending) || (Rank(a, descending) == Rank(b, descending) && a.id < b.id)
  }

  predicate Ordered(s: seq<Entry>, descending: bool)
  {
    forall i, j :: 0 <= i < j < |s| ==> Before(s[i], s[j], descending)
  }

  /** Puts `x` in front of the first entry that does not rank strictly lower. */
  function Insert(x: Entry, s: seq<Entry>, descending: bool): (r: seq<Entry>)
    ensures multiset(r) == multiset(s) + multiset{x}
  {
    if s == [] || Rank(x, descending) <= Rank(s[0], descending) then [x] + s
    else
      assert s == [s[0]] + s[1..];
      [s[0]] + Insert(x, s[1..], descending)
  }

  /** A head ranked no higher than every later entry extends a sorted list. */
  lemma ConsSorted(h: Entry, t: seq<Entry>, descending: bool)
    requires Sorted(t, descending)
    requires forall k :: 0 <= k < |t| ==> Rank(h, descending) <= Rank(t[k], descending)
    ensures Sorted([h] + t, descending)
  {
    var r := [h] + t;
    forall i, j | 0 <= i < j < |r| ensures Rank(r[i], descending) <= Rank(r[j], descending) {
      if i == 0 {
        assert r[j] == t[j - 1];
      } else {
        assert r[i] == t[i - 1] && r[j] == t[j - 1];
      }
    }
  }

  lemma {:induction false} InsertSorted(x: Entry, s: seq<Entry>, descending: bool)
    requires Sorted(s, descending)
    ensures Sorted(Insert(x, s, descending), descending)
  {
    if s == [] || Rank(x, descending) <= Rank(s[0], descending) {
      forall k | 0 <= k < |s| ensures Rank(x, descending) <= Rank(s[k], descending) {
        if k > 0 {
          assert Rank(s[0], descending) <= Rank(s[k], descending);
        }
      }
      ConsSorted(x, s, descending);
    } else {
      var rest := Insert(x, s[1..], descending);
      assert Sorted(s[1..], descending) by {
        forall i, j | 0 <= i < j < |s[1..]| ensures Rank(s[1..][i], descending) <= Rank(s[1..][j], descending) {
          assert s[1..][i] == s[i + 1] && s[1..][j] == s[j + 1];
        }
      }
      InsertSorted(x, s[1..], descending);
      forall k | 0 <= k < |rest| ensures Rank(s[0], descending) <= Rank(rest[k], descending) {
        assert rest[k] in multiset(rest);
        if rest[k] != x {
          assert rest[k] in s[1..];
          var m :| 0 <= m < |s[1..]| && s[1..][m] == rest[k];
          assert s[m + 1] == rest[k];
        }
      }
      ConsSorted(s[0], rest, descending);
    }
  }

  /**
   * `sort` with a comparator that subtracts ranks: a stable insertion sort, each entry
   * going in front of the later entries of equal rank.
   */
  function SortByRank(s: seq<Entry>, descending: bool): (r: seq<Entry>)
    ensures multiset(r) == multiset(s)
    ensures Sorted(r, descending)
  {
    if s == [] then []
    else
      assert s == [s[0]] + s[1..];
      InsertSorted(s[0], SortByRank(s[1..], descending), descending);
      Insert(s[0], SortByRank(s[1..], descending), descending)
  }

  /** Lines 96-98: the entries with a negative balance, most negative first. */
  function Debtors(b: seq<Entry>): (r: seq<Entry>)
    ensures forall e :: e in r <==> e in b && e.bal < 0.0
    ensures forall e :: multiset(r)[e] == if e.bal < 0.0 then multiset(b)[e] else 0
    ensures forall i, j :: 0 <= i < j < |r| ==> r[i].bal <= r[j].bal
  {
    var r := SortByRank(Filter(b, (e: Entry) => e.bal < 0.0), false);
    assert forall e :: e in r <==> e in multiset(r);
    r
  }

  /** Lines 99-101: the entries with a positive balance, largest first. */
  function Creditors(b: seq<Entry>): (r: seq<Entry>)
    ensures forall e :: e in r <==> e in b && e.bal > 0.0
    ensures forall e :: multiset(r)[e] == if e.bal > 0.0 then multiset(b)[e] else 0
    ensures forall i, j :: 0 <= i < j < |r| ==> r[i].bal >= r[j].bal
  {
    var r := SortByRank(Filter(b, (e: Entry) => e.bal > 0.0), true);
    assert forall e :: e in r <==> e in multiset(r);
    r
  }

  // ---------------------------------------------------------------------------
  // Ties: stability over an id-ascending dictionary
  // ---------------------------------------------------------------------------

  lemma ConsOrdered(h: Entry, t: seq<Entry>, descending: bool)
    requires Ordered(t, descending)
    requires forall k :: 0 <= k < |t| ==> Before(h, t[k], descending)
    ensures Ordered([h] + t, descending)
  {
    var r := [h] + t;
    forall i, j | 0 <= i < j < |r| ensures Before(r[i], r[j], descending) {
      if i == 0 {
        assert r[j] == t[j - 1];
      } else {
        assert r[i] == t[i - 1] && r[j] == t[j - 1];
      }
    }
  }

  lemma {:induction false} InsertOrdered(x: Entry, s: seq<Entry>, descending: bool)
    requires Ordered(s, descending)
    requires forall e :: e in s ==> x.id < e.id
    ensures Ordered(Insert(x, s, descending), descending)
  {
    if s == [] || Rank(x, descending) <= Rank(s[0], descending) {
      forall k | 0 <= k < |s| ensures Before(x, s[k], descending) {
        assert s[k] in s;
        if k > 0 { assert Before(s[0], s[k], descending); }
      }
      ConsOrdered(x, s, descending);
    } else {
      var rest := Insert(x, s[1..], descending);
      assert forall e :: e in s[1..] ==> e in s;
      InsertOrdered(x, s[1..], descending);
      forall k | 0 <= k < |rest| ensures Before(s[0], rest[k], descending) {
        assert rest[k] in multiset(rest);
        if rest[k] != x {
          assert rest[k] in s[1..];
          var m :| 0 <= m < |s[1..]| && s[1..][m] == rest[k];
          assert s[m + 1] == rest[k];
        }
      }
      ConsOrdered(s[0], rest, descending);
    }
  }

  /** A stable sort of an id-ascending list orders it by rank, then by ascending id. */
  lemma {:induction false} SortOrdered(s: seq<Entry>, descending: bool)
    requires Ascending(s)
    ensures Ordered(SortByRank(s, descending), descending)
  {
    if s != [] {
      assert IdsOf(s)[1..] == IdsOf(s[1..]);
      SortOrdered(s[1..], descending);
      var sorted := SortByRank(s[1..], descending);
      IdsOfMembers(s[1..]);
      forall e | e in sorted ensures s[0].id < e.id {
        assert e in multiset(sorted);
        assert e in s[1..];
      }
      InsertOrdered(s[0], sorted, descending);
    }
  }

  /** Dropping entries keeps the remaining keys ascending. */
  lemma {:induction false} SubseqAscending(a: seq<Entry>, b: seq<Entry>)
    requires IsSubseq(a, b) && Ascending(b)
    ensures Ascending(a)
    decreases |b|
  {
    if a != [] {
      assert IdsOf(b)[1..] == IdsOf(b[1..]);
      if a[0] == b[0] && IsSubseq(a[1..], b[1..]) {
        SubseqAscending(a[1..], b[1..]);
        SubseqMembers(a[1..], b[1..]);
        IdsOfMembers(a[1..]);
        IdsOfMembers(b[1..]);
        assert IdsOf(a)[1..] == IdsOf(a[1..]);
        forall x | x in IdsOf(a[1..]) ensures a[0].id < x {
          var e :| e in a[1..] && e.id == x;
          assert e.id in IdsOf(b[1..]);
        }
      } else {
        SubseqAscending(a, b[1..]);
      }
    }
  }

  /**
   * Over the balances dictionary (keys ascending), the debtors are ordered by balance
   * and the creditors by balance descending, equal balances in ascending id order.
   */
  lemma TiesByAscendingId(b: seq<Entry>)
    requires Ascending(b)
    ensures Ordered(Debtors(b), false) && Ordered(Creditors(b), true)
  {
    var neg := Filter(b, (e: Entry) => e.bal < 0.0);
    var pos := Filter(b, (e: Entry) => e.bal > 0.0);
    SubseqAscending(neg, b);
    SubseqAscending(pos, b);
    SortOrdered(neg, false);
    SortOrdered(pos, true);
  }
}
