/**
 * The worked scenarios of the settlement engine, end to end from the roster and the
 * expense list: friends A, B and C have ids 1, 2 and 3.
 */
module Scenarios {
  import opened Types
  import opened Lists
  import opened Ledger
  import opened Ordering
  import opened Pairing
  import opened Engine

  // ---------------------------------------------------------------------------
  // Two friends, one dinner of 100 paid by A and split evenly
  // ---------------------------------------------------------------------------

  lemma TwoSeed()
    ensures Seed([Friend(1, "A"), Friend(2, "B")]) == [Entry(1, 0.0), Entry(2, 0.0)]
  {
    assert Put([], 1, 0.0) == [Entry(1, 0.0)];
    assert Put([Entry(1, 0.0)], 2, 0.0) == [Entry(1, 0.0), Entry(2, 0.0)];
    assert [Friend(1, "A"), Friend(2, "B")][1..] == [Friend(2, "B")];
  }

  lemma TwoBalances()
    ensures Balances([Friend(1, "A"), Friend(2, "B")], [Expense(10, "Dinner", 100.0, 1, [Share(1, 50.0), Share(2, 50.0)])])
         == [Entry(1, 50.0), Entry(2, -50.0)]
  {
    TwoSeed();
    var e := Expense(10, "Dinner", 100.0, 1, [Share(1, 50.0), Share(2, 50.0)]);
    assert Charge(100.0, 50.0) == 50.0;
    assert Adjust([Entry(1, 0.0), Entry(2, 0.0)], 1, 100.0) == [Entry(1, 100.0), Entry(2, 0.0)];
    assert Adjust([Entry(1, 100.0), Entry(2, 0.0)], 1, -50.0) == [Entry(1, 50.0), Entry(2, 0.0)];
    assert Adjust([Entry(1, 50.0), Entry(2, 0.0)], 2, -50.0) == [Entry(1, 50.0), Entry(2, -50.0)];
    assert e.splits[1..] == [Share(2, 50.0)];
    assert ApplyExpense([Entry(1, 0.0), Entry(2, 0.0)], e) == [Entry(1, 50.0), Entry(2, -50.0)];
    assert [e][1..] == [];
  }

  lemma TwoSides()
    ensures Debtors([Entry(1, 50.0), Entry(2, -50.0)]) == [Entry(2, -50.0)]
    ensures Creditors([Entry(1, 50.0), Entry(2, -50.0)]) == [Entry(1, 50.0)]
  {
    var b := [Entry(1, 50.0), Entry(2, -50.0)];
    assert Filter(b, (e: Entry) => e.bal < 0.0) == [Entry(2, -50.0)] by {
      assert b[1..][1..] == [];
    }
    assert Filter(b, (e: Entry) => e.bal > 0.0) == [Entry(1, 50.0)] by {
      assert b[1..][1..] == [];
    }
  }

  /** B owes A 50 and pays it in one transfer. */
  lemma TwoParty()
    ensures Settlements([Friend(1, "A"), Friend(2, "B")], [Expense(10, "Dinner", 100.0, 1, [Share(1, 50.0), Share(2, 50.0)])])
         == [Settlement(2, 1, 50.0)]
  {
    TwoBalances();
    TwoSides();
    SinglePair(Entry(2, -50.0), Entry(1, 50.0));
    assert Round2(50.0) == 50.0;
  }

  // ---------------------------------------------------------------------------
  // Three friends: 90 of groceries paid by A split 33.33/33.33/33.34, then a taxi
  // of 60 paid by B split 50/0/50
  // ---------------------------------------------------------------------------

  function Trio(): seq<Friend> { [Friend(1, "A"), Friend(2, "B"), Friend(3, "C")] }
  function Groceries(): Expense { Expense(11, "Groceries", 90.0, 1, [Share(1, 33.33), Share(2, 33.33), Share(3, 33.34)]) }
  function Taxi(): Expense { Expense(12, "Taxi", 60.0, 2, [Share(1, 50.0), Share(2, 0.0), Share(3, 50.0)]) }

  lemma TrioSeed()
    ensures Seed(Trio()) == [Entry(1, 0.0), Entry(2, 0.0), Entry(3, 0.0)]
  {
    assert Put([], 1, 0.0) == [Entry(1, 0.0)];
    assert Put([Entry(1, 0.0)], 2, 0.0) == [Entry(1, 0.0), Entry(2, 0.0)];
    assert Put([Entry(1, 0.0), Entry(2, 0.0)], 3, 0.0) == [Entry(1, 0.0), Entry(2, 0.0), Entry(3, 0.0)];
    assert Trio()[1..] == [Friend(2, "B"), Friend(3, "C")];
    assert Trio()[1..][1..] == [Friend(3, "C")];
  }

  lemma GroceriesApplied()
    ensures ApplyExpense([Entry(1, 0.0), Entry(2, 0.0), Entry(3, 0.0)], Groceries())
         == [Entry(1, 60.003), Entry(2, -29.997), Entry(3, -30.006)]
  {
    var sp := Groceries().splits;
    assert Charge(90.0, 33.33) == 29.997;
    assert Charge(90.0, 33.34) == 30.006;
    assert sp[1..] == [Share(2, 33.33), Share(3, 33.34)];
    assert sp[1..][1..] == [Share(3, 33.34)];
    assert Adjust([Entry(1, 0.0), Entry(2, 0.0), Entry(3, 0.0)], 1, 90.0) == [Entry(1, 90.0), Entry(2, 0.0), Entry(3, 0.0)];
    assert Adjust([Entry(1, 90.0), Entry(2, 0.0), Entry(3, 0.0)], 1, -29.997) == [Entry(1, 60.003), Entry(2, 0.0), Entry(3, 0.0)];
    assert Adjust([Entry(1, 60.003), Entry(2, 0.0), Entry(3, 0.0)], 2, -29.997) == [Entry(1, 60.003), Entry(2, -29.997), Entry(3, 0.0)];
    assert Adjust([Entry(1, 60.003), Entry(2, -29.997), Entry(3, 0.0)], 3, -30.006) == [Entry(1, 60.003), Entry(2, -29.997), Entry(3, -30.006)];
  }

  lemma TaxiApplied()
    ensures ApplyExpense([Entry(1, 60.003), Entry(2, -29.997), Entry(3, -30.006)], Taxi())
         == [Entry(1, 30.003), Entry(2, 30.003), Entry(3, -60.006)]
  {
    var sp := Taxi().splits;
    assert Charge(60.0, 50.0) == 30.0;
    assert Charge(60.0, 0.0) == 0.0;
    assert sp[1..] == [Share(2, 0.0), Share(3, 50.0)];
    assert sp[1..][1..] == [Share(3, 50.0)];
    assert Adjust([Entry(1, 60.003), Entry(2, -29.997), Entry(3, -30.006)], 2, 60.0) == [Entry(1, 60.003), Entry(2, 30.003), Entry(3, -30.006)];
    assert Adjust([Entry(1, 60.003), Entry(2, 30.003), Entry(3, -30.006)], 1, -30.0) == [Entry(1, 30.003), Entry(2, 30.003), Entry(3, -30.006)];
    assert Adjust([Entry(1, 30.003), Entry(2, 30.003), Entry(3, -30.006)], 2, -0.0) == [Entry(1, 30.003), Entry(2, 30.003), Entry(3, -30.006)];
    assert Adjust([Entry(1, 30.003), Entry(2, 30.003), Entry(3, -30.006)], 3, -30.0) == [Entry(1, 30.003), Entry(2, 30.003), Entry(3, -60.006)];
  }

  lemma TrioBalances()
    ensures Balances(Trio(), [Groceries(), Taxi()]) == [Entry(1, 30.003), Entry(2, 30.003), Entry(3, -60.006)]
  {
    TrioSeed();
    GroceriesApplied();
    TaxiApplied();
    var s0 := [Entry(1, 0.0), Entry(2, 0.0), Entry(3, 0.0)];
    var s1 := [Entry(1, 60.003), Entry(2, -29.997), Entry(3, -30.006)];
    var s2 := [Entry(1, 30.003), Entry(2, 30.003), Entry(3, -60.006)];
    assert [Groceries(), Taxi()][1..] == [Taxi()];
    assert ApplyExpenses(s1, [Taxi()]) == ApplyExpenses(s2, []) == s2;
    assert ApplyExpenses(s0, [Groceries(), Taxi()]) == ApplyExpenses(s1, [Taxi()]);
  }

  lemma TrioSides()
    ensures Debtors([Entry(1, 30.003), Entry(2, 30.003), Entry(3, -60.006)]) == [Entry(3, -60.006)]
    ensures Creditors([Entry(1, 30.003), Entry(2, 30.003), Entry(3, -60.006)]) == [Entry(1, 30.003), Entry(2, 30.003)]
  {
    var b := [Entry(1, 30.003), Entry(2, 30.003), Entry(3, -60.006)];
    assert b[1..] == [Entry(2, 30.003), Entry(3, -60.006)];
    assert b[1..][1..] == [Entry(3, -60.006)];
    assert Filter(b, (e: Entry) => e.bal < 0.0) == [Entry(3, -60.006)];
    assert Filter(b, (e: Entry) => e.bal > 0.0) == [Entry(1, 30.003), Entry(2, 30.003)];
    assert SortByRank([Entry(2, 30.003)], true) == [Entry(2, 30.003)];
    assert [Entry(1, 30.003), Entry(2, 30.003)][1..] == [Entry(2, 30.003)];
  }

  lemma TrioGreedy()
    ensures Greedy([Entry(3, -60.006)], [Entry(1, 30.003), Entry(2, 30.003)])
         == [Settlement(3, 1, 30.0), Settlement(3, 2, 0.0)]
  {
    assert Round2(30.003) == 30.0 by {
      assert (30.003 * 100.0 + 0.5).Floor == 3000;
    }
    assert Round2(0.0) == 0.0;
    assert [Entry(1, 30.003), Entry(2, 30.003)][1..] == [Entry(2, 30.003)];
    assert MoveFront([Entry(3, -60.006)], 30.003) == [Entry(3, -30.003)];
    assert MoveFront([Entry(2, 30.003)], -30.003) == [Entry(2, 0.0)];
    assert MoveFront([Entry(3, -30.003)], 0.0) == [Entry(3, -30.003)];
    assert Min(60.006, 30.003) == 30.003;
    assert Min(30.003, 0.0) == 0.0;
    assert Step([Entry(3, -60.006)], [Entry(1, 30.003), Entry(2, 30.003)])
        == (Settlement(3, 1, 30.0), [Entry(3, -30.003)], [Entry(2, 0.0)]);
    assert Step([Entry(3, -30.003)], [Entry(2, 0.0)]) == (Settlement(3, 2, 0.0), [Entry(3, -30.003)], []);
  }

  /**
   * As written, C pays A 30.00 and then pays B nothing: after A is shifted out, the
   * 30.003 meant for A is taken off B's credit, and B, owed 30.003, is never paid.
   */
  lemma ThreeParty()
    ensures Settlements(Trio(), [Groceries(), Taxi()]) == [Settlement(3, 1, 30.0), Settlement(3, 2, 0.0)]
    ensures BalanceOf(Balances(Trio(), [Groceries(), Taxi()]), 2) == 30.003
  {
    TrioBalances();
    TrioSides();
    TrioGreedy();
  }

  /**
   * The intended loop has C pay A and B 30.00 each, which leaves every balance within
   * a cent of zero once the transfers are made.
   */
  lemma ThreePartyCorrected()
    ensures SettlementsCorrected(Trio(), [Groceries(), Taxi()]) == [Settlement(3, 1, 30.0), Settlement(3, 2, 30.0)]
    ensures var r := SettlementsCorrected(Trio(), [Groceries(), Taxi()]);
      forall x | x in {1, 2, 3} :: -0.01 < BalanceOf(Balances(Trio(), [Groceries(), Taxi()]), x) + Net(r, x) < 0.01
  {
    TrioBalances();
    TrioSides();
    TrioGreedyCorrected();
    TrioSettled();
  }

  /** After the intended transfers, A, B and C each hold less than a cent either way. */
  lemma TrioSettled()
    ensures var b := [Entry(1, 30.003), Entry(2, 30.003), Entry(3, -60.006)];
      var r := [Settlement(3, 1, 30.0), Settlement(3, 2, 30.0)];
      forall x | x in {1, 2, 3} :: -0.01 < BalanceOf(b, x) + Net(r, x) < 0.01
  {
    var b := [Entry(1, 30.003), Entry(2, 30.003), Entry(3, -60.006)];
    var r := [Settlement(3, 1, 30.0), Settlement(3, 2, 30.0)];
    assert r[1..] == [Settlement(3, 2, 30.0)] && r[1..][1..] == [];
    assert Net(r, 1) == -30.0 && Net(r, 2) == -30.0 && Net(r, 3) == 60.0;
    assert b[1..] == [Entry(2, 30.003), Entry(3, -60.006)] && b[1..][1..] == [Entry(3, -60.006)];
    assert BalanceOf(b, 1) == 30.003 && BalanceOf(b, 2) == 30.003 && BalanceOf(b, 3) == -60.006;
  }

  lemma TrioGreedyCorrected()
    ensures GreedyCorrected([Entry(3, -60.006)], [Entry(1, 30.003), Entry(2, 30.003)])
         == [Settlement(3, 1, 30.0), Settlement(3, 2, 30.0)]
  {
    assert Round2(30.003) == 30.0 by {
      assert (30.003 * 100.0 + 0.5).Floor == 3000;
    }
    assert [Entry(1, 30.003), Entry(2, 30.003)][1..] == [Entry(2, 30.003)];
    assert MoveFront([Entry(3, -60.006)], 30.003) == [Entry(3, -30.003)];
    assert Min(60.006, 30.003) == 30.003;
    assert Min(30.003, 30.003) == 30.003;
    assert StepCorrected([Entry(3, -60.006)], [Entry(1, 30.003), Entry(2, 30.003)])
        == (Settlement(3, 1, 30.0), [Entry(3, -30.003)], [Entry(2, 30.003)]);
    assert StepCorrected([Entry(3, -30.003)], [Entry(2, 30.003)]) == (Settlement(3, 2, 30.0), [], []);
  }
}
