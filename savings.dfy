/**
 * The summary page of js/main.js: the BENCHMARKS table, calculateSavings
 * over the completion set, and the once-only guard of
 * triggerSummaryCounters.
 */
module Savings {
  import PageProgress

  /** One row of BENCHMARKS.caseSavings: a case id and the hours it saves a month. */
  datatype Benchmark = Benchmark(id: int, hours: nat)

  const CaseSavings: seq<Benchmark> := [
    Benchmark(1, 40), Benchmark(2, 8), Benchmark(3, 30),
    Benchmark(4, 15), Benchmark(5, 15), Benchmark(6, 20)
  ]
  const HourlyRate: int := 600
  const AiToolCost: int := 2000
  const ErrorReductionBase: int := 95

  /** The object calculateSavings returns. */
  datatype Result = Result(hours: int, cost: int, errorReduction: int)

  predicate DistinctIds(table: seq<Benchmark>)
  {
    forall i, j :: 0 <= i < j < |table| ==> table[i].id != table[j].id
  }

  /** BENCHMARKS.caseSavings[caseNum].hours, or 0 when there is no such row. */
  function HoursFor(table: seq<Benchmark>, caseNum: int): nat
  {
    if table == [] then 0
    else if table[0].id == caseNum then table[0].hours
    else HoursFor(table[1..], caseNum)
  }

  /** The hours of every row whose id is in the set (the reference sum). */
  function HoursIn(table: seq<Benchmark>, ids: set<int>): nat
  {
    if table == [] then 0
    else (if table[0].id in ids then table[0].hours else 0) + HoursIn(table[1..], ids)
  }

  /** The potential total: the sum of every row's hours. */
  function TableTotal(table: seq<Benchmark>): nat
  {
    if table == [] then 0 else table[0].hours + TableTotal(table[1..])
  }

  function Max(a: int, b: int): int { if a < b then b else a }

  function MinReal(a: real, b: real): real { if a < b then a else b }

  /** Math.round on the values it meets here: the nearest integer, halves up. */
  function JsRound(x: real): int { (x + 0.5).Floor }

  // ---------------------------------------------------------------- lemmas

  /** Adding one completed id adds that id's row (if any) to the sum. */
  lemma {:induction false} HoursInSplit(table: seq<Benchmark>, ids: set<int>, c: int)
    requires DistinctIds(table) && c in ids
    ensures HoursIn(table, ids) == HoursFor(table, c) + HoursIn(table, ids - {c})
  {
    if table != [] {
      HoursInSplit(table[1..], ids, c);
      if table[0].id == c {
        HoursForAbsent(table[1..], c);
        HoursInIgnores(table[1..], ids, c);
      }
    }
  }

  lemma {:induction false} HoursForAbsent(table: seq<Benchmark>, c: int)
    requires forall i :: 0 <= i < |table| ==> table[i].id != c
    ensures HoursFor(table, c) == 0
  {
    if table != [] {
      HoursForAbsent(table[1..], c);
    }
  }

  lemma {:induction false} HoursInIgnores(table: seq<Benchmark>, ids: set<int>, c: int)
    requires forall i :: 0 <= i < |table| ==> table[i].id != c
    ensures HoursIn(table, ids) == HoursIn(table, ids - {c})
  {
    if table != [] {
      HoursInIgnores(table[1..], ids, c);
    }
  }

  lemma {:induction false} HoursInEmpty(table: seq<Benchmark>)
    ensures HoursIn(table, {}) == 0
  {
    if table != [] {
      HoursInEmpty(table[1..]);
    }
  }

  /** A non-zero sum is at least the smallest row. */
  lemma {:induction false} HoursInAtLeast(table: seq<Benchmark>, ids: set<int>, least: nat)
    requires forall i :: 0 <= i < |table| ==> table[i].hours >= least
    ensures HoursIn(table, ids) == 0 || HoursIn(table, ids) >= least
  {
    if table != [] {
      HoursInAtLeast(table[1..], ids, least);
    }
  }

  lemma TableIsDistinct()
    ensures DistinctIds(CaseSavings)
  {
  }

  /** Ids that have no row (8 and 9, say) never contribute hours. */
  lemma {:induction false} OnlyTableIdsCount(table: seq<Benchmark>, ids: set<int>)
    ensures HoursIn(table, ids) == HoursIn(table, ids * (set b | b in table :: b.id))
  {
    if table != [] {
      OnlyTableIdsCount(table[1..], ids);
      var all := set b | b in table :: b.id;
      var rest := set b | b in table[1..] :: b.id;
      assert rest <= all;
      HoursInRestrict(table[1..], ids * rest, ids * all);
    }
  }

  lemma {:induction false} HoursInRestrict(table: seq<Benchmark>, a: set<int>, b: set<int>)
    requires a <= b
    requires forall i :: 0 <= i < |table| ==> (table[i].id in a <==> table[i].id in b)
    ensures HoursIn(table, a) == HoursIn(table, b)
  {
    if table != [] {
      HoursInRestrict(table[1..], a, b);
    }
  }

  /** The sum is 0 exactly when no completed id has a row (every row's hours are positive). */
  lemma {:induction false} HoursInZero(table: seq<Benchmark>, ids: set<int>)
    requires forall i :: 0 <= i < |table| ==> table[i].hours > 0
    ensures HoursIn(table, ids) == 0 <==> forall i :: 0 <= i < |table| ==> table[i].id !in ids
  {
    if table != [] {
      HoursInZero(table[1..], ids);
    }
  }

  lemma {:induction false} HoursInAtMostTotal(table: seq<Benchmark>, ids: set<int>)
    ensures HoursIn(table, ids) <= TableTotal(table)
  {
    if table != [] {
      HoursInAtMostTotal(table[1..], ids);
    }
  }

  /**
   * The integer form the method computes equals Math.round of the
   * capped percentage: round(min(95 + n/2, 99)).
   */
  lemma ErrorReductionIsRounded(n: nat)
    ensures (if (191 + n) / 2 < 99 then (191 + n) / 2 else 99)
            == JsRound(MinReal(95.0 + n as real * 0.5, 99.0))
  {
    var k := (191 + n) / 2;
    if n >= 8 {
      assert MinReal(95.0 + n as real * 0.5, 99.0) == 99.0;
    } else if n % 2 == 0 {
      assert 95.0 + n as real * 0.5 + 0.5 == (k as real) + 0.5;
    } else {
      assert 95.0 + n as real * 0.5 + 0.5 == k as real;
    }
  }

  /** The ids of Array.from(set): each id once. */
  predicate NoDuplicates(ids: seq<int>)
  {
    forall i, j :: 0 <= i < j < |ids| ==> ids[i] != ids[j]
  }

  function Elements(ids: seq<int>): set<int> { set x | x in ids }

  /**
   * The accumulation loop of calculateSavings: every completed id, in the
   * order Array.from lists the set, adds the hours of its row if it has one.
   */
  method SumCompletedHours(table: seq<Benchmark>, completedCases: seq<int>) returns (totalHours: nat)
    requires DistinctIds(table) && NoDuplicates(completedCases)
    ensures totalHours == HoursIn(table, Elements(completedCases))
  {
    totalHours := 0;
    HoursInEmpty(table);
    assert Elements(completedCases[..0]) == {};
    for i := 0 to |completedCases|
      invariant totalHours == HoursIn(table, Elements(completedCases[..i]))
    {
      var caseNum := completedCases[i];
      var before, after := Elements(completedCases[..i]), Elements(completedCases[..i + 1]);
      assert completedCases[..i + 1] == completedCases[..i] + [caseNum];
      assert after == before + {caseNum};
      assert caseNum !in before;
      assert after - {caseNum} == before;
      HoursInSplit(table, after, caseNum);
      totalHours := totalHours + HoursFor(table, caseNum);
    }
    assert completedCases[..|completedCases|] == completedCases;
  }

  /**
   * calculateSavings: sums the table hours of the completed ids (falling
   * back to the table total when that sum is 0), prices them at the hourly
   * rate less the tool cost (never below 0), and derives the error
   * reduction from how many ids are completed.
   */
  method CalculateSavings(completedCases: seq<int>) returns (r: Result)
    requires NoDuplicates(completedCases)
    ensures var done := HoursIn(CaseSavings, Elements(completedCases));
      r.hours == if done == 0 then TableTotal(CaseSavings) else done
    ensures r.cost == Max(r.hours * HourlyRate - AiToolCost, 0)
    ensures r.errorReduction
            == JsRound(MinReal(ErrorReductionBase as real + |completedCases| as real * 0.5, 99.0))
    ensures 8 <= r.hours <= 128 && 95 <= r.errorReduction <= 99
  {
    TableIsDistinct();
    var totalHours := SumCompletedHours(CaseSavings, completedCases);
    if totalHours == 0 {
      totalHours := TableTotal(CaseSavings);
    }
    var costSaved := totalHours * HourlyRate - AiToolCost;
    var n := |completedCases|;
    var errorReduction := if (191 + n) / 2 < 99 then (191 + n) / 2 else 99;
    ErrorReductionIsRounded(n);
    HoursInAtMostTotal(CaseSavings, Elements(completedCases));
    HoursInAtLeast(CaseSavings, Elements(completedCases), 8);
    r := Result(totalHours, Max(costSaved, 0), errorReduction);
  }

  lemma TableIds()
    ensures forall i :: 0 <= i < |CaseSavings| ==> CaseSavings[i].id == i + 1 && CaseSavings[i].hours >= 8
    ensures (set b | b in CaseSavings :: b.id) == {1, 2, 3, 4, 5, 6}
  {
    assert CaseSavings[0] in CaseSavings && CaseSavings[1] in CaseSavings
      && CaseSavings[2] in CaseSavings && CaseSavings[3] in CaseSavings
      && CaseSavings[4] in CaseSavings && CaseSavings[5] in CaseSavings;
  }

  /**
   * With no table id completed the potential total is shown, whatever
   * other ids (8 and 9, say) are present; ids without a row never count.
   */
  lemma FallbackExactlyWhenNoTableId(ids: set<int>)
    ensures HoursIn(CaseSavings, ids) == 0 <==> ids * {1, 2, 3, 4, 5, 6} == {}
    ensures HoursIn(CaseSavings, ids) == HoursIn(CaseSavings, ids * {1, 2, 3, 4, 5, 6})
  {
    TableIds();
    HoursInZero(CaseSavings, ids);
    OnlyTableIdsCount(CaseSavings, ids);
    if HoursIn(CaseSavings, ids) == 0 {
      assert ids * {1, 2, 3, 4, 5, 6} == {};
    }
    assert forall i :: 0 <= i < |CaseSavings| ==>
      (CaseSavings[i].id in ids ==> CaseSavings[i].id in ids * {1, 2, 3, 4, 5, 6});
  }

  /**
   * The table totals 128 hours, and the cost floor of 0 never binds, since
   * at least 8 hours are always counted.
   */
  lemma CostFloorNeverBinds(ids: set<int>)
    ensures TableTotal(CaseSavings) == 128
    ensures var h := HoursIn(CaseSavings, ids);
      var hours := if h == 0 then TableTotal(CaseSavings) else h;
      hours * HourlyRate - AiToolCost > 0
  {
    TableIds();
    HoursInAtLeast(CaseSavings, ids, 8);
  }

  /**
   * The demos the start-up list installs add only ids 1..totalCases, all of
   * them table rows, so the summary falls back to the potential total only
   * when none of them has been completed.
   */
  lemma WiredCompletionsNeverFallBack(done: seq<PageProgress.Demo>)
    requires forall i :: 0 <= i < |done| ==> PageProgress.Wired(done[i])
    ensures var ids := set i | 0 <= i < |done| :: PageProgress.CaseId(done[i]);
      (forall x :: x in ids ==> 1 <= x <= PageProgress.TotalCases)
      && (HoursIn(CaseSavings, ids) == 0 <==> done == [])
  {
    var ids := set i | 0 <= i < |done| :: PageProgress.CaseId(done[i]);
    assert forall x :: x in ids ==> 1 <= x <= PageProgress.TotalCases;
    FallbackExactlyWhenNoTableId(ids);
    if done != [] {
      assert PageProgress.CaseId(done[0]) in ids * {1, 2, 3, 4, 5, 6};
    }
  }

  /** The once-only animation guard of the summary counters. */
  class SummaryCounters {
    /** summaryAnimated */
    var animated: bool

    constructor ()
      ensures !animated
    {
      animated := false;
    }

    /**
     * triggerSummaryCounters: the first call sets the flag and animates the
     * counters if the summary section exists; every later call does nothing.
     */
    method Trigger(summaryPresent: bool) returns (animate: bool)
      modifies this
      ensures animated
      ensures animate <==> !old(animated) && summaryPresent
    {
      if animated {
        return false;
      }
      animated := true;
      if !summaryPresent {
        return false;
      }
      animate := true;
    }
  }
}
