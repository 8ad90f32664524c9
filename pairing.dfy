/**
 * The settlement loop of `calculateSettlements` (src/App.tsx, lines 103-120), as a
 * function of the debtor and creditor lists, and the variant the code evidently meant.
 */
module Pairing {
  import opened Types
  import opened Ledger

  /** `Math.min`. */
  function Min(a: real, b: real): real
  {
    if a <= b then a else b
  }

  /** `Math.round(x * 100) / 100`: to cents, halves rounded up. */
  function Round2(x: real): (r: real)
    ensures x - 0.005 < r <= x + 0.005
    ensures x > 0.0 ==> r >= 0.0
  {
    ((x * 100.0 + 0.5).Floor as real) / 100.0
  }

  /** The front entry of a list with its balance moved by `delta` (`list[0][1] += delta`). */
  function MoveFront(list: seq<Entry>, delta: real): (r: seq<Entry>)
    requires list != []
    ensures |r| == |list| && r[0] == Entry(list[0].id, list[0].bal + delta) && r[1..] == list[1..]
  {
    list[0 := Entry(list[0].id, list[0].bal + delta)]
  }

  /** Moving the front balance keeps the keys. */
  lemma MoveFrontIds(list: seq<Entry>, delta: real)
    requires list != []
    ensures IdsOf(MoveFront(list, delta)) == IdsOf(list)
  {
    var r := MoveFront(list, delta);
    assert r == [r[0]] + r[1..];
  }

  /**
   * One pass of the loop body as written: the front debtor pays the front creditor
   * the smaller of the debt and the credit; a party that is paid off is shifted out;
   * then the amount is applied to whatever entry is now at the front of each list.
   */
  function Step(debtors: seq<Entry>, creditors: seq<Entry>): (r: (Settlement, seq<Entry>, seq<Entry>))
    requires debtors != [] && creditors != []
    ensures |debtors| - 1 <= |r.1| <= |debtors| && |creditors| - 1 <= |r.2| <= |creditors|
    ensures |r.1| + |r.2| < |debtors| + |creditors|
  {
    var amount := Min(-debtors[0].bal, creditors[0].bal);
    var d := if -debtors[0].bal == amount then debtors[1..] else debtors;
    var c := if creditors[0].bal == amount then creditors[1..] else creditors;
    (Settlement(debtors[0].id, creditors[0].id, Round2(amount)),
     if d != [] then MoveFront(d, amount) else d,
     if c != [] then MoveFront(c, -amount) else c)
  }

  /**
   * One pass names the two front parties, and each list keeps its keys in order,
   * less its front key when that party was shifted out.
   */
  lemma StepIds(debtors: seq<Entry>, creditors: seq<Entry>)
    requires debtors != [] && creditors != []
    ensures var r := Step(debtors, creditors);
      r.0.from == debtors[0].id && r.0.to == creditors[0].id
      && IdsOf(r.1) == IdsOf(debtors)[|debtors| - |r.1|..]
      && IdsOf(r.2) == IdsOf(creditors)[|creditors| - |r.2|..]
  {
    var amount := Min(-debtors[0].bal, creditors[0].bal);
    var d := if -debtors[0].bal == amount then debtors[1..] else debtors;
    var c := if creditors[0].bal == amount then creditors[1..] else creditors;
    assert IdsOf(debtors)[1..] == IdsOf(debtors[1..]);
    assert IdsOf(creditors)[1..] == IdsOf(creditors[1..]);
    if d != [] {
      MoveFrontIds(d, amount);
    }
    if c != [] {
      MoveFrontIds(c, -amount);
    }
  }

  /**
   * The settlements the loop emits. It stops as soon as either list is empty: it emits
   * nothing when one starts empty, and otherwise at least one transfer and at most one
   * fewer than the two lengths together.
   */
  function Greedy(debtors: seq<Entry>, creditors: seq<Entry>): (r: seq<Settlement>)
    ensures debtors == [] || creditors == [] ==> r == []
    ensures debtors != [] && creditors != [] ==> 1 <= |r| <= |debtors| + |creditors| - 1
    decreases |debtors| + |creditors|
  {
    if debtors == [] || creditors == [] then []
    else
      var (s, d, c) := Step(debtors, creditors);
      [s] + Greedy(d, c)
  }

  /** Every transfer goes from a listed debtor to a listed creditor. */
  lemma {:induction false} GreedyParties(debtors: seq<Entry>, creditors: seq<Entry>)
    ensures forall s :: s in Greedy(debtors, creditors) ==> s.from in IdsOf(debtors) && s.to in IdsOf(creditors)
    decreases |debtors| + |creditors|
  {
    if debtors != [] && creditors != [] {
      var (s, d, c) := Step(debtors, creditors);
      StepIds(debtors, creditors);
      GreedyParties(d, c);
      assert forall x :: x in IdsOf(d) ==> x in IdsOf(debtors);
      assert forall x :: x in IdsOf(c) ==> x in IdsOf(creditors);
    }
  }

  /**
   * A front debtor that owes more than the front creditor is owed pays that credit in
   * full and stays in front, owing the rest.
   */
  lemma PartialDebtorStays(debtors: seq<Entry>, creditors: seq<Entry>)
    requires debtors != [] && creditors != []
    requires creditors[0].bal < -debtors[0].bal
    ensures Step(debtors, creditors).0 == Settlement(debtors[0].id, creditors[0].id, Round2(creditors[0].bal))
    ensures Step(debtors, creditors).1 == debtors[0 := Entry(debtors[0].id, debtors[0].bal + creditors[0].bal)]
    ensures IdsOf(Step(debtors, creditors).2) == IdsOf(creditors[1..])
  {
  }

  /**
   * A front creditor owed more than the front debtor owes receives that debt in full
   * and stays in front, owed the rest.
   */
  lemma PartialCreditorStays(debtors: seq<Entry>, creditors: seq<Entry>)
    requires debtors != [] && creditors != []
    requires -debtors[0].bal < creditors[0].bal
    ensures Step(debtors, creditors).0 == Settlement(debtors[0].id, creditors[0].id, Round2(-debtors[0].bal))
    ensures Step(debtors, creditors).2 == creditors[0 := Entry(creditors[0].id, creditors[0].bal + debtors[0].bal)]
    ensures IdsOf(Step(debtors, creditors).1) == IdsOf(debtors[1..])
  {
  }

  /** One debtor and one creditor: a single transfer of the smaller amount. */
  lemma SinglePair(d: Entry, c: Entry)
    ensures Greedy([d], [c]) == [Settlement(d.id, c.id, Round2(Min(-d.bal, c.bal)))]
  {
  }

  // ---------------------------------------------------------------------------
  // The adjustment lands on the wrong party
  // ---------------------------------------------------------------------------

  /** The sum of the transferred amounts. */
  function Total(ss: seq<Settlement>): real
  {
    if ss == [] then 0.0 else ss[0].amount + Total(ss[1..])
  }

  /** What the debtors owe altogether. */
  function Debts(debtors: seq<Entry>): real
  {
    if debtors == [] then 0.0 else -debtors[0].bal + Debts(debtors[1..])
  }

  /** What the creditors are owed altogether. */
  function Credits(creditors: seq<Entry>): real
  {
    if creditors == [] then 0.0 else creditors[0].bal + Credits(creditors[1..])
  }

  /**
   * Debtors -30 and -20 against one creditor of 50: the first transfer of 30 pays the
   * first debtor off, and the 30 is then added to the second debtor, who was not part
   * of it. The second transfer comes out as -10, and 20 of the 50 is never settled.
   */
  lemma AsWrittenMisdirectsAdjustment()
    ensures var debtors := [Entry(2, -30.0), Entry(3, -20.0)];
            var creditors := [Entry(1, 50.0)];
            Greedy(debtors, creditors) == [Settlement(2, 1, 30.0), Settlement(3, 1, -10.0)]
            && Total(Greedy(debtors, creditors)) == 20.0
            && Debts(debtors) == Credits(creditors) == 50.0
  {
    var debtors := [Entry(2, -30.0), Entry(3, -20.0)];
    var creditors := [Entry(1, 50.0)];
    var first := Settlement(2, 1, 30.0);
    var second := Settlement(3, 1, -10.0);
    ExampleFirstStep();
    ExampleSecondStep();
    assert Greedy([Entry(3, 10.0)], [Entry(1, 20.0)]) == [second] by {
      assert Greedy([Entry(3, 10.0)], [Entry(1, 20.0)]) == [second] + Greedy([], [Entry(1, 30.0)]);
    }
    assert Greedy(debtors, creditors) == [first, second] by {
      assert Greedy(debtors, creditors) == [first] + Greedy([Entry(3, 10.0)], [Entry(1, 20.0)]);
    }
    assert Total([first, second]) == 20.0 by {
      assert [first, second][1..] == [second];
      assert Total([second]) == -10.0 + Total([]);
    }
    assert Debts(debtors) == 50.0 by {
      assert debtors[1..] == [Entry(3, -20.0)];
      assert Debts([Entry(3, -20.0)]) == 20.0 + Debts([]);
    }
    assert Credits(creditors) == 50.0 + Credits([]);
  }

  lemma ExampleFirstStep()
    ensures Step([Entry(2, -30.0), Entry(3, -20.0)], [Entry(1, 50.0)])
         == (Settlement(2, 1, 30.0), [Entry(3, 10.0)], [Entry(1, 20.0)])
  {
    assert Round2(30.0) == 30.0;
    assert [Entry(2, -30.0), Entry(3, -20.0)][1..] == [Entry(3, -20.0)];
    assert MoveFront([Entry(3, -20.0)], 30.0) == [Entry(3, 10.0)];
    assert MoveFront([Entry(1, 50.0)], -30.0) == [Entry(1, 20.0)];
  }

  lemma ExampleSecondStep()
    ensures Step([Entry(3, 10.0)], [Entry(1, 20.0)]) == (Settlement(3, 1, -10.0), [], [Entry(1, 30.0)])
  {
    assert Round2(-10.0) == -10.0;
    assert MoveFront([Entry(1, 20.0)], 10.0) == [Entry(1, 30.0)];
  }

  /**
   * The loop as evidently intended: the amount is taken off the two parties of the
   * transfer, and a party that is paid off leaves the list untouched.
   */
  function StepCorrected(debtors: seq<Entry>, creditors: seq<Entry>): (r: (Settlement, seq<Entry>, seq<Entry>))
    requires debtors != [] && creditors != []
    ensures |r.1| + |r.2| < |debtors| + |creditors|
    ensures r.0.from == debtors[0].id && r.0.to == creditors[0].id
  {
    var amount := Min(-debtors[0].bal, creditors[0].bal);
    (Settlement(debtors[0].id, creditors[0].id, Round2(amount)),
     if -debtors[0].bal == amount then debtors[1..] else MoveFront(debtors, amount),
     if creditors[0].bal == amount then creditors[1..] else MoveFront(creditors, -amount))
  }

  function GreedyCorrected(debtors: seq<Entry>, creditors: seq<Entry>): (r: seq<Settlement>)
    ensures debtors == [] || creditors == [] ==> r == []
    decreases |debtors| + |creditors|
  {
    if debtors == [] || creditors == [] then []
    else
      var (s, d, c) := StepCorrected(debtors, creditors);
      [s] + GreedyCorrected(d, c)
  }

  predicate AllNegative(debtors: seq<Entry>)
  {
    forall e :: e in debtors ==> e.bal < 0.0
  }

  predicate AllPositive(creditors: seq<Entry>)
  {
    forall e :: e in creditors ==> e.bal > 0.0
  }

  lemma {:induction false} DebtsNonNegative(debtors: seq<Entry>)
    requires AllNegative(debtors)
    ensures Debts(debtors) >= 0.0
  {
    if debtors != [] {
      assert forall e :: e in debtors[1..] ==> e in debtors;
      DebtsNonNegative(debtors[1..]);
    }
  }

  lemma {:induction false} CreditsNonNegative(creditors: seq<Entry>)
    requires AllPositive(creditors)
    ensures Credits(creditors) >= 0.0
  {
    if creditors != [] {
      assert forall e :: e in creditors[1..] ==> e in creditors;
      CreditsNonNegative(creditors[1..]);
    }
  }

  /**
   * One corrected transfer of `amount` takes it off both the total debt and the total
   * credit, and what remains on each side keeps its sign.
   */
  lemma CorrectedStepShrinks(debtors: seq<Entry>, creditors: seq<Entry>)
    requires debtors != [] && creditors != []
    requires AllNegative(debtors) && AllPositive(creditors)
    ensures var amount := Min(-debtors[0].bal, creditors[0].bal);
      var (_, d, c) := StepCorrected(debtors, creditors);
      Debts(d) == Debts(debtors) - amount && Credits(c) == Credits(creditors) - amount
      && AllNegative(d) && AllPositive(c)
  {
    var d0, c0 := debtors[0], creditors[0];
    var amount := Min(-d0.bal, c0.bal);
    var (s, d, c) := StepCorrected(debtors, creditors);
    assert forall e :: e in debtors[1..] ==> e in debtors;
    assert forall e :: e in creditors[1..] ==> e in creditors;
    assert Debts(d) == Debts(debtors) - amount by {
      if -d0.bal != amount {
        assert d[1..] == debtors[1..];
      }
    }
    assert Credits(c) == Credits(creditors) - amount by {
      if c0.bal != amount {
        assert c[1..] == creditors[1..];
      }
    }
    assert AllNegative(d) by {
      if -d0.bal != amount {
        assert forall e :: e in d ==> e == d[0] || e in debtors[1..];
      }
    }
    assert AllPositive(c) by {
      if c0.bal != amount {
        assert forall e :: e in c ==> e == c[0] || e in creditors[1..];
      }
    }
  }

  /**
   * Total conservation for the intended loop: the transfers add up to what the smaller
   * side owes or is owed (so to the total credit when debts and credits balance), up to
   * half a cent of rounding per transfer, and none is negative.
   */
  lemma {:induction false} CorrectedConserves(debtors: seq<Entry>, creditors: seq<Entry>)
    requires AllNegative(debtors) && AllPositive(creditors)
    ensures var r := GreedyCorrected(debtors, creditors);
      var bound := Min(Debts(debtors), Credits(creditors));
      var slack := (|r| as real) * 0.005;
      bound - slack <= Total(r) <= bound + slack
      && forall s :: s in r ==> s.amount >= 0.0
    decreases |debtors| + |creditors|
  {
    var r := GreedyCorrected(debtors, creditors);
    if debtors == [] {
      CreditsNonNegative(creditors);
    } else if creditors == [] {
      DebtsNonNegative(debtors);
    } else {
      var amount := Min(-debtors[0].bal, creditors[0].bal);
      var (s, d, c) := StepCorrected(debtors, creditors);
      CorrectedStepShrinks(debtors, creditors);
      CorrectedConserves(d, c);
      assert r == [s] + GreedyCorrected(d, c);
      assert r[1..] == GreedyCorrected(d, c);
    }
  }

  /** On the same input as above the intended loop settles both debtors in full. */
  lemma CorrectedSettlesExample()
    ensures GreedyCorrected([Entry(2, -30.0), Entry(3, -20.0)], [Entry(1, 50.0)])
         == [Settlement(2, 1, 30.0), Settlement(3, 1, 20.0)]
  {
    assert Round2(30.0) == 30.0;
    assert Round2(20.0) == 20.0;
    assert [Entry(2, -30.0), Entry(3, -20.0)][1..] == [Entry(3, -20.0)];
    assert MoveFront([Entry(1, 50.0)], -30.0) == [Entry(1, 20.0)];
    assert StepCorrected([Entry(2, -30.0), Entry(3, -20.0)], [Entry(1, 50.0)])
        == (Settlement(2, 1, 30.0), [Entry(3, -20.0)], [Entry(1, 20.0)]);
  }

  /**
   * One pass of the loop body, lines 104-119: the front debtor pays the front
   * creditor, exhausted entries are shifted off, and the adjustment is then
   * applied to whatever entries are now at the front.
   */
  method Transfer(debtors0: seq<Entry>, creditors0: seq<Entry>)
    returns (settlement: Settlement, debtors: seq<Entry>, creditors: seq<Entry>)
    requires debtors0 != [] && creditors0 != []
    ensures settlement == Step(debtors0, creditors0).0
    ensures debtors == Step(debtors0, creditors0).1
    ensures creditors == Step(debtors0, creditors0).2
  {
    debtors, creditors := debtors0, creditors0;
    var debtor, creditor := debtors[0], creditors[0];
    var amount := Min(-debtor.bal, creditor.bal);
    settlement := Settlement(debtor.id, creditor.id, Round2(amount));
    if -debtor.bal == amount {
      debtors := debtors[1..];
    }
    if creditor.bal == amount {
      creditors := creditors[1..];
    }
    if debtors != [] {
      debtors := debtors[0 := Entry(debtors[0].id, debtors[0].bal + amount)];
    }
    if creditors != [] {
      creditors := creditors[0 := Entry(creditors[0].id, creditors[0].bal - amount)];
    }
  }

  /**
   * Lines 103-120: while both lists are non-empty, one transfer is emitted.
   */
  method SettleGreedy(debtors0: seq<Entry>, creditors0: seq<Entry>) returns (settlements: seq<Settlement>)
    ensures settlements == Greedy(debtors0, creditors0)
  {
    var debtors, creditors := debtors0, creditors0;
    settlements := [];
    while debtors != [] && creditors != []
      invariant settlements + Greedy(debtors, creditors) == Greedy(debtors0, creditors0)
      decreases |debtors| + |creditors|
    {
      var settlement, debtors', creditors' := Transfer(debtors, creditors);
      assert Greedy(debtors, creditors) == [settlement] + Greedy(debtors', creditors');
      assert settlements + [settlement] + Greedy(debtors', creditors') == settlements + ([settlement] + Greedy(debtors', creditors'));
      settlements := settlements + [settlement];
      debtors, creditors := debtors', creditors';
    }
  }
}
