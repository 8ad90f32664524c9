/**
 * `calculateSettlements` (src/App.tsx, lines 82-123): balances, then debtors and
 * creditors, then the greedy loop, over the session's friend and expense lists.
 */
module Engine {
  import opened Types
  import opened Lists
  import opened Ledger
  import opened Ordering
  import opened Pairing
  import Handlers

  /** What `calculateSettlements` returns for a roster and an expense list. */
  function Settlements(friends: seq<Friend>, expenses: seq<Expense>): seq<Settlement>
  {
    var balances := Balances(friends, expenses);
    Greedy(Debtors(balances), Creditors(balances))
  }

  /** Lines 82-123. The loop of lines 103-120 runs over local copies of the two lists. */
  method CalculateSettlements(friends: seq<Friend>, expenses: seq<Expense>) returns (settlements: seq<Settlement>)
    ensures settlements == Settlements(friends, expenses)
    ensures forall s :: s in settlements ==>
      s.from in RosterIds(friends) && s.to in RosterIds(friends) && s.from != s.to
    ensures settlements != [] ==> |settlements| < |friends|
  {
    var balances := ComputeBalances(friends, expenses);
    var debtors := Debtors(balances);
    var creditors := Creditors(balances);
    settlements := SettleGreedy(debtors, creditors);
    SettlementParties(friends, expenses);
    SettlementCount(friends, expenses);
  }

  /**
   * Every transfer goes from a roster friend whose balance is negative to a roster
   * friend whose balance is positive (so nobody pays themselves).
   */
  lemma SettlementParties(friends: seq<Friend>, expenses: seq<Expense>)
    ensures forall s :: s in Settlements(friends, expenses) ==>
      s.from in RosterIds(friends) && s.to in RosterIds(friends)
      && BalanceOf(Balances(friends, expenses), s.from) < 0.0
      && BalanceOf(Balances(friends, expenses), s.to) > 0.0
  {
    var b := Balances(friends, expenses);
    var debtors, creditors := Debtors(b), Creditors(b);
    GreedyParties(debtors, creditors);
    IdsOfMembers(b);
    IdsOfMembers(debtors);
    IdsOfMembers(creditors);
    forall s | s in Settlements(friends, expenses)
      ensures s.from in RosterIds(friends) && s.to in RosterIds(friends)
      ensures BalanceOf(b, s.from) < 0.0 && BalanceOf(b, s.to) > 0.0
    {
      var d :| d in debtors && d.id == s.from;
      var c :| c in creditors && c.id == s.to;
      BalanceOfMember(b, d);
      BalanceOfMember(b, c);
    }
  }

  /** At most one transfer fewer than there are friends. */
  lemma SettlementCount(friends: seq<Friend>, expenses: seq<Expense>)
    ensures Settlements(friends, expenses) != [] ==> |Settlements(friends, expenses)| < |friends|
  {
    var b := Balances(friends, expenses);
    var neg := Filter(b, (e: Entry) => e.bal < 0.0);
    var pos := Filter(b, (e: Entry) => e.bal > 0.0);
    FilterDisjoint(b, (e: Entry) => e.bal < 0.0, (e: Entry) => e.bal > 0.0);
    assert |Debtors(b)| == |SortByRank(neg, false)| == |multiset(neg)|;
    assert |Creditors(b)| == |SortByRank(pos, true)| == |multiset(pos)|;
  }

  /** When every roster friend paid exactly what they were charged, nothing is emitted. */
  lemma AllSettledNoTransfers(friends: seq<Friend>, expenses: seq<Expense>)
    requires forall x :: x in RosterIds(friends) ==> Paid(expenses, x) == Owed(expenses, x)
    ensures Settlements(friends, expenses) == []
  {
    var b := Balances(friends, expenses);
    IdsOfMembers(b);
    forall e | e in b ensures e.bal == 0.0 {
      BalanceOfMember(b, e);
      BalancesAt(friends, expenses, e.id);
    }
    assert Debtors(b) == [];
  }

  /** After a friend is removed, no transfer names them. */
  lemma RemovedFriendSettlesNothing(s: Session, id: int)
    ensures var r := Handlers.RemoveFriend(s, id);
      forall t :: t in Settlements(r.friends, r.expenses) ==> t.from != id && t.to != id
  {
    var r := Handlers.RemoveFriend(s, id);
    SettlementParties(r.friends, r.expenses);
  }

  // ---------------------------------------------------------------------------
  // The settlements the loop evidently means to produce
  // ---------------------------------------------------------------------------

  /** The same pipeline with the adjustment applied to the two parties of each transfer. */
  function SettlementsCorrected(friends: seq<Friend>, expenses: seq<Expense>): seq<Settlement>
  {
    var balances := Balances(friends, expenses);
    GreedyCorrected(Debtors(balances), Creditors(balances))
  }

  /** What `x` pays out in `settlements` less what `x` receives in them. */
  function Net(settlements: seq<Settlement>, x: int): real
  {
    if settlements == [] then 0.0
    else
      var s := settlements[0];
      (if s.from == x then s.amount else 0.0) - (if s.to == x then s.amount else 0.0) + Net(settlements[1..], x)
  }

  /** Inserting an entry adds its balance to the sum. */
  lemma {:induction false} SumInsert(x: Entry, s: seq<Entry>, descending: bool)
    ensures Sum(Insert(x, s, descending)) == x.bal + Sum(s)
  {
    if s != [] && Rank(x, descending) > Rank(s[0], descending) {
      SumInsert(x, s[1..], descending);
      assert Insert(x, s, descending)[1..] == Insert(x, s[1..], descending);
    }
  }

  /** Sorting keeps the sum. */
  lemma {:induction false} SumSorted(s: seq<Entry>, descending: bool)
    ensures Sum(SortByRank(s, descending)) == Sum(s)
  {
    if s != [] {
      SumSorted(s[1..], descending);
      SumInsert(s[0], SortByRank(s[1..], descending), descending);
    }
  }

  /** The dictionary's sum is what the positive entries hold less what the negative ones owe. */
  lemma {:induction false} SumBySign(b: seq<Entry>)
    ensures Sum(b) == Sum(Filter(b, (e: Entry) => e.bal > 0.0)) + Sum(Filter(b, (e: Entry) => e.bal < 0.0))
  {
    if b != [] {
      SumBySign(b[1..]);
    }
  }

  /** `Debts` and `Credits` are sums of balances. */
  lemma {:induction false} DebtsCreditsSum(s: seq<Entry>)
    ensures Debts(s) == -Sum(s) && Credits(s) == Sum(s)
  {
    if s != [] {
      DebtsCreditsSum(s[1..]);
    }
  }

  /** What the creditors are owed less what the debtors owe is the sum of all balances. */
  lemma SidesBalance(b: seq<Entry>)
    ensures Credits(Creditors(b)) - Debts(Debtors(b)) == Sum(b)
  {
    SumBySign(b);
    SumSorted(Filter(b, (e: Entry) => e.bal > 0.0), true);
    SumSorted(Filter(b, (e: Entry) => e.bal < 0.0), false);
    DebtsCreditsSum(Creditors(b));
    DebtsCreditsSum(Debtors(b));
  }

  /**
   * When every payer and every share is on the roster and every split totals 100,
   * the intended transfers add up to everything the debtors owe, which is everything
   * the creditors are owed, up to half a cent of rounding per transfer.
   */
  lemma CorrectedSettlesEverything(friends: seq<Friend>, expenses: seq<Expense>)
    requires forall e :: e in expenses ==> e.paidBy in RosterIds(friends) && forall sh :: sh in e.splits ==> sh.friend in RosterIds(friends)
    requires forall e :: e in expenses ==> SplitTotal(e.splits) == 100.0
    ensures var b := Balances(friends, expenses);
      var r := SettlementsCorrected(friends, expenses);
      var slack := (|r| as real) * 0.005;
      Debts(Debtors(b)) == Credits(Creditors(b))
      && Credits(Creditors(b)) - slack <= Total(r) <= Credits(Creditors(b)) + slack
      && forall s :: s in r ==> s.amount >= 0.0
  {
    var b := Balances(friends, expenses);
    ZeroSum(friends, expenses);
    SidesBalance(b);
    CorrectedConserves(Debtors(b), Creditors(b));
  }
}
