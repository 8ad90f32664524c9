/**
 * The balances dictionary of `calculateSettlements` (src/App.tsx, lines 83-93).
 *
 * The JavaScript object keyed by friend id is modelled as the sequence of its
 * `[id, balance]` entries in the order `Object.entries` lists them: ascending id.
 * Writing `balances[id] = 0` inserts or overwrites the entry; `balances[id] += x`
 * on a key that is not there produces `NaN`, which both filters of the settlement
 * step drop, so here it leaves the dictionary unchanged.
 */
module Ledger {
  import opened Types

  /** The keys of the dictionary, in enumeration order. */
  function IdsOf(b: seq<Entry>): seq<int>
  {
    if b == [] then [] else [b[0].id] + IdsOf(b[1..])
  }

  lemma {:induction false} IdsOfLength(b: seq<Entry>)
    ensures |IdsOf(b)| == |b|
  {
    if b != [] {
      IdsOfLength(b[1..]);
    }
  }

  /** In a dictionary with ascending keys, an entry is what its key reads. */
  lemma {:induction false} BalanceOfMember(b: seq<Entry>, e: Entry)
    requires Ascending(b) && e in b
    ensures BalanceOf(b, e.id) == e.bal
  {
    if e != b[0] {
      assert e in b[1..];
      IdsOfMembers(b[1..]);
      assert IdsOf(b)[1..] == IdsOf(b[1..]);
      BalanceOfMember(b[1..], e);
    }
  }

  /** The keys are the ids of the entries. */
  lemma {:induction false} IdsOfMembers(b: seq<Entry>)
    ensures forall e :: e in b ==> e.id in IdsOf(b)
    ensures forall x :: x in IdsOf(b) ==> exists e :: e in b && e.id == x
  {
    if b != [] {
      IdsOfMembers(b[1..]);
      assert forall e :: e in b ==> e == b[0] || e in b[1..];
    }
  }

  /** Every key is smaller than all keys after it. */
  predicate Increasing(s: seq<int>)
  {
    s == [] || ((forall x :: x in s[1..] ==> s[0] < x) && Increasing(s[1..]))
  }

  /** The keys are listed in strictly ascending order (so each key appears once). */
  predicate Ascending(b: seq<Entry>)
  {
    Increasing(IdsOf(b))
  }

  /** `balances[id]` for a present key, 0 for an absent one. */
  function BalanceOf(b: seq<Entry>, id: int): real
  {
    if b == [] then 0.0 else if b[0].id == id then b[0].bal else BalanceOf(b[1..], id)
  }

  /** The sum of all balances in the dictionary. */
  function Sum(b: seq<Entry>): real
  {
    if b == [] then 0.0 else b[0].bal + Sum(b[1..])
  }

  /** `balances[id] = v`: the key `id` now holds `v`, every other key keeps its value. */
  function Put(b: seq<Entry>, id: int, v: real): (r: seq<Entry>)
    requires Ascending(b)
    ensures Ascending(r)
    ensures forall x :: x in IdsOf(r) <==> x in IdsOf(b) || x == id
    ensures forall e :: e in r ==> e in b || e == Entry(id, v)
    ensures |r| <= |b| + 1
  {
    if b == [] then [Entry(id, v)]
    else if id < b[0].id then
      assert forall x :: x in IdsOf(b) ==> id < x;
      [Entry(id, v)] + b
    else if id == b[0].id then [Entry(id, v)] + b[1..]
    else
      var rest := Put(b[1..], id, v);
      assert forall x :: x in IdsOf(rest) ==> b[0].id < x;
      [b[0]] + rest
  }

  /** `balances[id] += d`: the entry of `id`, if there is one, grows by `d`; the keys stay. */
  function Adjust(b: seq<Entry>, id: int, d: real): (r: seq<Entry>)
    ensures IdsOf(r) == IdsOf(b)
  {
    if b == [] then []
    else if b[0].id == id then [Entry(id, b[0].bal + d)] + b[1..]
      else [b[0]] + Adjust(b[1..], id, d)
  }

  /** The part of `amount` that a share of `pct` percent stands for (line 91). */
  function Charge(amount: real, pct: real): real
  {
    amount * pct / 100.0
  }

  /** Lines 90-92: every share of the split charges its friend `amount * pct / 100`. */
  function ApplySplits(b: seq<Entry>, splits: seq<Share>, amount: real): (r: seq<Entry>)
    ensures IdsOf(r) == IdsOf(b)
    decreases splits
  {
    if splits == [] then b
    else ApplySplits(Adjust(b, splits[0].friend, -Charge(amount, splits[0].pct)), splits[1..], amount)
  }

  /** Lines 89-92: the payer is credited the amount, then the split is charged. */
  function ApplyExpense(b: seq<Entry>, e: Expense): (r: seq<Entry>)
    ensures IdsOf(r) == IdsOf(b)
  {
    ApplySplits(Adjust(b, e.paidBy, e.amount), e.splits, e.amount)
  }

  /** Line 88: the expenses are applied in list order. */
  function ApplyExpenses(b: seq<Entry>, es: seq<Expense>): (r: seq<Entry>)
    ensures IdsOf(r) == IdsOf(b)
    decreases es
  {
    if es == [] then b else ApplyExpenses(ApplyExpense(b, es[0]), es[1..])
  }

  /** Lines 84-86, from a given dictionary: every roster id is set to 0. */
  function SeedFrom(b: seq<Entry>, friends: seq<Friend>): (r: seq<Entry>)
    requires Ascending(b)
    ensures Ascending(r)
    ensures forall x :: x in IdsOf(r) <==> x in IdsOf(b) || x in RosterIds(friends)
    ensures (forall e :: e in b ==> e.bal == 0.0) ==> forall e :: e in r ==> e.bal == 0.0
    ensures |r| <= |b| + |friends|
    decreases friends
  {
    if friends == [] then b
    else
      assert RosterIds(friends) == {friends[0].id} + RosterIds(friends[1..]) by {
        assert friends == [friends[0]] + friends[1..];
      }
      SeedFrom(Put(b, friends[0].id, 0.0), friends[1..])
  }

  /** The dictionary after lines 83-86. */
  function Seed(friends: seq<Friend>): seq<Entry>
  {
    SeedFrom([], friends)
  }

  /** The dictionary after lines 83-93. */
  function Balances(friends: seq<Friend>, expenses: seq<Expense>): (r: seq<Entry>)
    ensures Ascending(r)
    ensures forall x :: x in IdsOf(r) <==> x in RosterIds(friends)
    ensures |r| <= |friends|
  {
    var seed := Seed(friends);
    IdsOfLength(seed);
    IdsOfLength(ApplyExpenses(seed, expenses));
    ApplyExpenses(seed, expenses)
  }

  /** Lines 83-86: a fresh dictionary with every roster id set to 0. */
  method SeedBalances(friends: seq<Friend>) returns (balances: seq<Entry>)
    ensures balances == Seed(friends)
  {
    balances := [];
    var i := 0;
    while i < |friends|
      invariant 0 <= i <= |friends|
      invariant Ascending(balances)
      invariant SeedFrom(balances, friends[i..]) == Seed(friends)
    {
      assert friends[i..][1..] == friends[i + 1..];
      balances := Put(balances, friends[i].id, 0.0);
      i := i + 1;
    }
    assert friends[i..] == [];
  }

  /** Lines 89-92: one expense credits its payer and charges its split. */
  method ChargeExpense(balances0: seq<Entry>, e: Expense) returns (balances: seq<Entry>)
    ensures balances == ApplyExpense(balances0, e)
  {
    balances := Adjust(balances0, e.paidBy, e.amount);
    var k := 0;
    while k < |e.splits|
      invariant 0 <= k <= |e.splits|
      invariant ApplySplits(balances, e.splits[k..], e.amount) == ApplyExpense(balances0, e)
    {
      var share := e.splits[k];
      assert e.splits[k..][1..] == e.splits[k + 1..];
      balances := Adjust(balances, share.friend, -Charge(e.amount, share.pct));
      k := k + 1;
    }
    assert e.splits[k..] == [];
  }

  /** Lines 83-93: the `forEach` loops that build the balances dictionary. */
  method ComputeBalances(friends: seq<Friend>, expenses: seq<Expense>) returns (balances: seq<Entry>)
    ensures balances == Balances(friends, expenses)
    ensures Ascending(balances)
    ensures forall x :: x in IdsOf(balances) <==> x in RosterIds(friends)
  {
    balances := SeedBalances(friends);
    var j := 0;
    while j < |expenses|
      invariant 0 <= j <= |expenses|
      invariant ApplyExpenses(balances, expenses[j..]) == Balances(friends, expenses)
    {
      assert expenses[j..][1..] == expenses[j + 1..];
      balances := ChargeExpense(balances, expenses[j]);
      j := j + 1;
    }
    assert expenses[j..] == [];
  }

  // ---------------------------------------------------------------------------
  // What one friend's balance is
  // ---------------------------------------------------------------------------

  /** Charges add up percentage by percentage. */
  lemma ChargeAdds(amount: real, p: real, q: real)
    ensures Charge(amount, p) + Charge(amount, q) == Charge(amount, p + q)
  {
  }

  /** The total percentage a split assigns to friend `x`. */
  function SharePct(splits: seq<Share>, x: int): real
  {
    if splits == [] then 0.0 else (if splits[0].friend == x then splits[0].pct else 0.0) + SharePct(splits[1..], x)
  }

  /** The total `x` paid over the expense list. */
  function Paid(es: seq<Expense>, x: int): real
  {
    if es == [] then 0.0 else (if es[0].paidBy == x then es[0].amount else 0.0) + Paid(es[1..], x)
  }

  /** The total `x` was charged over the expense list. */
  function Owed(es: seq<Expense>, x: int): real
  {
    if es == [] then 0.0 else Charge(es[0].amount, SharePct(es[0].splits, x)) + Owed(es[1..], x)
  }

  lemma {:induction false} PutAt(b: seq<Entry>, id: int, v: real, x: int)
    requires Ascending(b)
    ensures BalanceOf(Put(b, id, v), x) == if x == id then v else BalanceOf(b, x)
  {
    if b != [] && id > b[0].id {
      PutAt(b[1..], id, v, x);
    }
  }

  lemma {:induction false} AdjustAt(b: seq<Entry>, id: int, d: real, x: int)
    ensures BalanceOf(Adjust(b, id, d), x) == BalanceOf(b, x) + (if x == id && id in IdsOf(b) then d else 0.0)
  {
    if b != [] && b[0].id != id {
      AdjustAt(b[1..], id, d, x);
    }
  }

  lemma {:induction false} AdjustSum(b: seq<Entry>, id: int, d: real)
    ensures Sum(Adjust(b, id, d)) == Sum(b) + (if id in IdsOf(b) then d else 0.0)
  {
    if b != [] && b[0].id != id {
      AdjustSum(b[1..], id, d);
    }
  }

  /** A dictionary whose every value is 0 reads 0 everywhere and sums to 0. */
  lemma {:induction false} ZeroEntries(b: seq<Entry>, x: int)
    requires forall e :: e in b ==> e.bal == 0.0
    ensures BalanceOf(b, x) == 0.0 && Sum(b) == 0.0
  {
    if b != [] {
      ZeroEntries(b[1..], x);
    }
  }

  lemma {:induction false} ApplySplitsAt(b: seq<Entry>, splits: seq<Share>, amount: real, x: int)
    ensures BalanceOf(ApplySplits(b, splits, amount), x)
         == BalanceOf(b, x) - (if x in IdsOf(b) then Charge(amount, SharePct(splits, x)) else 0.0)
    decreases splits
  {
    if splits != [] {
      var sh := splits[0];
      var b1 := Adjust(b, sh.friend, -Charge(amount, sh.pct));
      AdjustAt(b, sh.friend, -Charge(amount, sh.pct), x);
      ApplySplitsAt(b1, splits[1..], amount, x);
      var own := if sh.friend == x then sh.pct else 0.0;
      ChargeAdds(amount, own, SharePct(splits[1..], x));
      assert sh.friend != x ==> Charge(amount, 0.0) == 0.0;
    }
  }

  lemma ApplyExpenseAt(b: seq<Entry>, e: Expense, x: int)
    ensures BalanceOf(ApplyExpense(b, e), x)
         == BalanceOf(b, x) + (if x in IdsOf(b) then (if e.paidBy == x then e.amount else 0.0) - Charge(e.amount, SharePct(e.splits, x)) else 0.0)
  {
    AdjustAt(b, e.paidBy, e.amount, x);
    ApplySplitsAt(Adjust(b, e.paidBy, e.amount), e.splits, e.amount, x);
  }

  lemma {:induction false} ApplyExpensesAt(b: seq<Entry>, es: seq<Expense>, x: int)
    ensures BalanceOf(ApplyExpenses(b, es), x) == BalanceOf(b, x) + (if x in IdsOf(b) then Paid(es, x) - Owed(es, x) else 0.0)
    decreases es
  {
    if es != [] {
      ApplyExpenseAt(b, es[0], x);
      ApplyExpensesAt(ApplyExpense(b, es[0]), es[1..], x);
    }
  }

  /**
   * Every roster friend starts at 0, gains what they paid and loses what their shares
   * charge them; an id outside the roster has no entry.
   */
  lemma BalancesAt(friends: seq<Friend>, expenses: seq<Expense>, x: int)
    ensures x in IdsOf(Balances(friends, expenses)) <==> x in RosterIds(friends)
    ensures x in RosterIds(friends) ==> BalanceOf(Balances(friends, expenses), x) == Paid(expenses, x) - Owed(expenses, x)
  {
    ZeroEntries(Seed(friends), x);
    ApplyExpensesAt(Seed(friends), expenses, x);
  }

  // ---------------------------------------------------------------------------
  // The sum of all balances
  // ---------------------------------------------------------------------------

  /** The part of each amount that its split leaves uncharged, summed over the list. */
  function Unallocated(es: seq<Expense>): real
  {
    if es == [] then 0.0 else es[0].amount - Charge(es[0].amount, SplitTotal(es[0].splits)) + Unallocated(es[1..])
  }

  /** Every payer and every split id of the list has an entry in the dictionary. */
  predicate Known(b: seq<Entry>, es: seq<Expense>)
  {
    forall e :: e in es ==> e.paidBy in IdsOf(b) && forall sh :: sh in e.splits ==> sh.friend in IdsOf(b)
  }

  lemma {:induction false} ApplySplitsSum(b: seq<Entry>, splits: seq<Share>, amount: real)
    requires forall sh :: sh in splits ==> sh.friend in IdsOf(b)
    ensures Sum(ApplySplits(b, splits, amount)) == Sum(b) - Charge(amount, SplitTotal(splits))
    decreases splits
  {
    if splits != [] {
      var sh := splits[0];
      var b1 := Adjust(b, sh.friend, -Charge(amount, sh.pct));
      AdjustSum(b, sh.friend, -Charge(amount, sh.pct));
      assert IdsOf(b1) == IdsOf(b);
      assert forall s :: s in splits[1..] ==> s in splits;
      ApplySplitsSum(b1, splits[1..], amount);
      ChargeAdds(amount, sh.pct, SplitTotal(splits[1..]));
    } else {
      assert Charge(amount, 0.0) == 0.0;
    }
  }

  lemma {:induction false} ApplyExpensesSum(b: seq<Entry>, es: seq<Expense>)
    requires Known(b, es)
    ensures Sum(ApplyExpenses(b, es)) == Sum(b) + Unallocated(es)
    decreases es
  {
    if es != [] {
      var e := es[0];
      AdjustSum(b, e.paidBy, e.amount);
      ApplySplitsSum(Adjust(b, e.paidBy, e.amount), e.splits, e.amount);
      ApplyExpensesSum(ApplyExpense(b, e), es[1..]);
    }
  }

  /**
   * When every payer and split id is on the roster, the balances sum to what the
   * splits leave uncharged.
   */
  lemma SumOfBalances(friends: seq<Friend>, expenses: seq<Expense>)
    requires forall e :: e in expenses ==> e.paidBy in RosterIds(friends) && forall sh :: sh in e.splits ==> sh.friend in RosterIds(friends)
    ensures Sum(Balances(friends, expenses)) == Unallocated(expenses)
  {
    var seed := Seed(friends);
    ZeroEntries(seed, 0);
    ApplyExpensesSum(seed, expenses);
  }

  lemma {:induction false} FullSplitsAllocateAll(es: seq<Expense>)
    requires forall e :: e in es ==> SplitTotal(e.splits) == 100.0
    ensures Unallocated(es) == 0.0
  {
    if es != [] {
      FullSplitsAllocateAll(es[1..]);
    }
  }

  /**
   * Zero sum: with every payer and split id on the roster and every split totalling
   * exactly 100, the balances add up to 0.
   */
  lemma ZeroSum(friends: seq<Friend>, expenses: seq<Expense>)
    requires forall e :: e in expenses ==> e.paidBy in RosterIds(friends) && forall sh :: sh in e.splits ==> sh.friend in RosterIds(friends)
    requires forall e :: e in expenses ==> SplitTotal(e.splits) == 100.0
    ensures Sum(Balances(friends, expenses)) == 0.0
  {
    SumOfBalances(friends, expenses);
    FullSplitsAllocateAll(expenses);
  }
}
