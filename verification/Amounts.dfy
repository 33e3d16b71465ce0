/**
 * Settlement arithmetic (internal/settlement/settlement.go): 64-bit entries and their
 * summary. Go's int64 wraps around and its division truncates toward zero.
 */
module Amounts {
  import opened Prelude

  predicate Fits(x: int) { -TWO_63 <= x < TWO_63 }

  function Truncated(a: int, d: int): int
    requires d > 0
  {
    if a >= 0 then a / d else -((-a) / d)
  }

  /** Truncation is symmetric, and rounds down what is not negative. */
  lemma TruncatesTowardZero(a: int, d: int)
    requires d > 0
    ensures Truncated(-a, d) == -Truncated(a, d)
    ensures a >= 0 ==> 0 <= a - d * Truncated(a, d) < d
  {
    ZeroDivided(d);
    if a >= 0 {
      assert a == d * (a / d) + a % d;
    }
  }

  lemma ZeroDivided(d: int)
    requires d > 0
    ensures 0 / d == 0
  {
  }

  datatype Entry = Entry(periodId: Id, planId: Id, plannedWh: int, actualWh: int, deviationWh: int, amountMilliCent: int)

  function NewEntry(periodId: Id, planId: Id, plannedWh: int, actualWh: int, price: int): Result<Entry> {
    if Blank(periodId) || Blank(planId) then Err(Fault(Invalid, "missing_entry_owner"))
    else if plannedWh <= 0 || actualWh < 0 then Err(Fault(Invalid, "invalid_energy"))
    else if price < 0 then Err(Fault(Invalid, "invalid_price"))
    else Ok(Entry(periodId, planId, plannedWh, actualWh, Wrap(actualWh - plannedWh), Truncated(Wrap(actualWh * price), 1000)))
  }

  datatype Summary = Summary(plannedWh: int, actualWh: int, deviationWh: int, amountMilliCent: int, entryCount: nat)

  // ----- Wrap-around -----

  /** Wrapping is reduction modulo 2^64: it may be delayed to the end of a sum. */
  lemma WrapShifts(x: int, k: int)
    ensures Wrap(x + k * TWO_64) == Wrap(x)
  {
    ModuloShifts(x + TWO_63, k, TWO_64);
  }

  lemma ModuloShifts(a: int, k: int, m: int)
    requires m > 0
    ensures (a + k * m) % m == a % m
  {
    var (q, r) := (a / m, a % m);
    assert a + k * m == (q + k) * m + r by { assert (q + k) * m == q * m + k * m; }
    DivisionIsUnique(a + k * m, q + k, r, m);
  }

  lemma WrapIsModular(x: int)
    ensures exists k :: Wrap(x) == x + k * TWO_64
  {
    var k := -((x + TWO_63) / TWO_64);
    assert Wrap(x) == x + k * TWO_64;
  }

  lemma WrapAbsorbs(x: int, y: int)
    ensures Wrap(Wrap(x) + y) == Wrap(x + y)
  {
    WrapIsModular(x);
    var k :| Wrap(x) == x + k * TWO_64;
    WrapShifts(x + y, k);
    assert Wrap(x) + y == (x + y) + k * TWO_64;
  }

  lemma WrapAbsorbsBoth(x: int, y: int)
    ensures Wrap(Wrap(x) + Wrap(y)) == Wrap(x + y)
  {
    WrapAbsorbs(x, Wrap(y));
    WrapAbsorbs(y, x);
  }

  lemma WrapIsExactIffItFits(x: int)
    ensures Wrap(x) == x <==> Fits(x)
  {
  }

  // ----- Summaries -----

  function Planned(entries: seq<Entry>): int {
    if entries == [] then 0 else Planned(entries[..|entries| - 1]) + entries[|entries| - 1].plannedWh
  }

  function Actual(entries: seq<Entry>): int {
    if entries == [] then 0 else Actual(entries[..|entries| - 1]) + entries[|entries| - 1].actualWh
  }

  function Deviation(entries: seq<Entry>): int {
    if entries == [] then 0 else Deviation(entries[..|entries| - 1]) + entries[|entries| - 1].deviationWh
  }

  function Amount(entries: seq<Entry>): int {
    if entries == [] then 0 else Amount(entries[..|entries| - 1]) + entries[|entries| - 1].amountMilliCent
  }

  /** Each column's exact total, wrapped once. */
  function Totals(entries: seq<Entry>): Summary {
    Summary(Wrap(Planned(entries)), Wrap(Actual(entries)), Wrap(Deviation(entries)), Wrap(Amount(entries)), |entries|)
  }

  method Summarize(entries: seq<Entry>) returns (result: Summary)
    ensures result == Totals(entries)
  {
    result := Summary(0, 0, 0, 0, |entries|);
    for i := 0 to |entries|
      invariant result == Totals(entries[..i]).(entryCount := |entries|)
    {
      var e := entries[i];
      assert entries[..i + 1][..i] == entries[..i];
      WrapAbsorbs(Planned(entries[..i]), e.plannedWh);
      WrapAbsorbs(Actual(entries[..i]), e.actualWh);
      WrapAbsorbs(Deviation(entries[..i]), e.deviationWh);
      WrapAbsorbs(Amount(entries[..i]), e.amountMilliCent);
      hide Wrap;
      result := result.(plannedWh := Wrap(result.plannedWh + e.plannedWh), actualWh := Wrap(result.actualWh + e.actualWh),
                        deviationWh := Wrap(result.deviationWh + e.deviationWh),
                        amountMilliCent := Wrap(result.amountMilliCent + e.amountMilliCent));
    }
    assert entries[..|entries|] == entries;
  }

  function Added(a: Summary, b: Summary): Summary {
    Summary(Wrap(a.plannedWh + b.plannedWh), Wrap(a.actualWh + b.actualWh), Wrap(a.deviationWh + b.deviationWh),
            Wrap(a.amountMilliCent + b.amountMilliCent), a.entryCount + b.entryCount)
  }

  lemma {:induction false} SumsSplit(a: seq<Entry>, b: seq<Entry>)
    ensures Planned(a + b) == Planned(a) + Planned(b) && Actual(a + b) == Actual(a) + Actual(b)
    ensures Deviation(a + b) == Deviation(a) + Deviation(b) && Amount(a + b) == Amount(a) + Amount(b)
  {
    if b == [] {
      assert a + b == a;
    } else {
      var n := |b| - 1;
      SumsSplit(a, b[..n]);
      assert (a + b)[..|a + b| - 1] == a + b[..n];
    }
  }

  /** Summaries are additive over concatenation, wrap-around included. */
  lemma SummariesAdd(a: seq<Entry>, b: seq<Entry>)
    ensures Totals(a + b) == Added(Totals(a), Totals(b))
  {
    hide Wrap;
    SumsSplit(a, b);
    WrapAbsorbsBoth(Planned(a), Planned(b));
    WrapAbsorbsBoth(Actual(a), Actual(b));
    WrapAbsorbsBoth(Deviation(a), Deviation(b));
    WrapAbsorbsBoth(Amount(a), Amount(b));
  }

  /** Entries made by NewEntry at one price. */
  ghost predicate Priced(entries: seq<Entry>, price: int) {
    forall i :: 0 <= i < |entries| ==>
      var e := entries[i]; NewEntry(e.periodId, e.planId, e.plannedWh, e.actualWh, price) == Ok(e)
  }

  lemma {:induction false} DeviationsAgree(entries: seq<Entry>, price: int)
    requires Priced(entries, price)
    ensures Wrap(Deviation(entries)) == Wrap(Actual(entries) - Planned(entries))
  {
    if entries != [] {
      var (n, e) := (|entries| - 1, entries[|entries| - 1]);
      DeviationsAgree(entries[..n], price);
      var before := Actual(entries[..n]) - Planned(entries[..n]);
      WrapAbsorbsBoth(Deviation(entries[..n]), e.actualWh - e.plannedWh);
      WrapAbsorbs(e.actualWh - e.plannedWh, Deviation(entries[..n]));
      WrapAbsorbsBoth(before, e.actualWh - e.plannedWh);
      hide Wrap;
      assert Wrap(Deviation(entries)) == Wrap(Deviation(entries[..n]) + Wrap(e.actualWh - e.plannedWh));
    }
  }

  /** The deviation of a summary is the difference of its energies, in int64 and, while that fits, exactly. */
  lemma DeviationIsDifference(entries: seq<Entry>, price: int)
    requires Priced(entries, price)
    ensures var s := Totals(entries);
            && s.deviationWh == Wrap(s.actualWh - s.plannedWh)
            && (Fits(s.actualWh - s.plannedWh) <==> s.deviationWh == s.actualWh - s.plannedWh)
  {
    hide Wrap, Deviation, Actual, Planned, Priced;
    DeviationsAgree(entries, price);
    WrapSubtracts(Actual(entries), Planned(entries));
    WrapIsExactIffItFits(Wrap(Actual(entries)) - Wrap(Planned(entries)));
  }

  lemma WrapSubtracts(a: int, p: int)
    ensures Wrap(Wrap(a) - Wrap(p)) == Wrap(a - p)
  {
    hide Wrap;
    WrapAbsorbs(a, -Wrap(p));
    WrapIsModular(p);
    var k :| Wrap(p) == p + k * TWO_64;
    WrapShifts(a - p, -k);
    assert a - Wrap(p) == (a - p) + (-k) * TWO_64;
  }

  // ----- Rounding -----

  /** An amount is the exact product rounded down if and only if the product fits in 63 bits. */
  lemma AmountIsExactIff(periodId: Id, planId: Id, plannedWh: int, actualWh: int, price: int)
    requires NewEntry(periodId, planId, plannedWh, actualWh, price).Ok?
    ensures NewEntry(periodId, planId, plannedWh, actualWh, price).value.amountMilliCent == actualWh * price / 1000
            <==> actualWh * price < TWO_63
  {
    var product := actualWh * price;
    NonNegativeProduct(actualWh, price);
    TruncatedWrap(product);
  }

  lemma NonNegativeProduct(a: int, b: int)
    requires a >= 0 && b >= 0
    ensures a * b >= 0
  {
  }

  lemma TruncatedWrap(x: int)
    requires x >= 0
    ensures Truncated(Wrap(x), 1000) == x / 1000 <==> x < TWO_63
  {
    if x >= TWO_63 {
      if Wrap(x) >= 0 {
        assert Wrap(x) < TWO_63 && x >= TWO_64;
      }
    }
  }

  /** A large enough reading at a price makes an accepted entry with a negative amount. */
  lemma AmountCanBeNegative(periodId: Id, planId: Id)
    requires !Blank(periodId) && !Blank(planId)
    ensures NewEntry(periodId, planId, 1, 0x4000_0000_0000_0000, 2).Ok?
            && NewEntry(periodId, planId, 1, 0x4000_0000_0000_0000, 2).value.amountMilliCent < 0
  {
  }

  ghost predicate NoProductOverflows(entries: seq<Entry>, price: int) {
    forall i :: 0 <= i < |entries| ==> entries[i].actualWh * price < TWO_63
  }

  /** Rounding down each entry loses less than one thousandth-unit each, and never gains. */
  lemma {:induction false} RoundingLoss(entries: seq<Entry>, price: int)
    requires Priced(entries, price) && NoProductOverflows(entries, price)
    ensures 1000 * Amount(entries) <= Actual(entries) * price <= 1000 * Amount(entries) + 999 * |entries|
    ensures 0 <= Amount(entries)
  {
    if entries != [] {
      var (n, e) := (|entries| - 1, entries[|entries| - 1]);
      RoundingLoss(entries[..n], price);
      AmountIsExactIff(e.periodId, e.planId, e.plannedWh, e.actualWh, price);
      NonNegativeProduct(e.actualWh, price);
      assert (Actual(entries[..n]) + e.actualWh) * price == Actual(entries[..n]) * price + e.actualWh * price;
    }
  }

  /** The summed amount is at most the rounded amount of the total, and short of it by at most n - 1. */
  lemma SummedAmountIsClose(entries: seq<Entry>, price: int)
    requires Priced(entries, price) && NoProductOverflows(entries, price) && entries != []
    ensures var whole := Actual(entries) * price / 1000;
            whole - (|entries| - 1) <= Amount(entries) <= whole
    ensures Fits(Amount(entries)) <==> Totals(entries).amountMilliCent == Amount(entries)
  {
    RoundingLoss(entries, price);
    WrapIsExactIffItFits(Amount(entries));
  }

  /** The shortfall is reached: two readings of half a unit each. */
  lemma ShortfallIsReached(periodId: Id, planId: Id)
    requires !Blank(periodId) && !Blank(planId)
    ensures exists e :: NewEntry(periodId, planId, 1, 999, 1) == Ok(e)
              && Amount([e, e]) == Actual([e, e]) * 1 / 1000 - 1
  {
    var e := NewEntry(periodId, planId, 1, 999, 1).value;
    assert [e, e][..1] == [e] && [e][..0] == [];
    assert e.amountMilliCent == 0 && e.actualWh == 999;
    assert Amount([e]) == Amount([e][..0]) + 0 && Actual([e]) == Actual([e][..0]) + 999;
    assert Amount([e, e]) == Amount([e, e][..1]) + 0 && Actual([e, e]) == Actual([e, e][..1]) + 999;
  }
}
