/**
 * The page state of backup-20260123-152753/main.js, where progress counts
 * completed cases rather than the section in view: the `state` object,
 * updateProgress, the case-section observer, the ids the six demos add and
 * the state part of resetAllDemos.
 */
module LegacyProgress {
  import opened Common

  /** state.totalCases */
  const TotalCases: int := 6

  datatype Demo = Reconciliation | Resume | Maintenance | Invoice | Quality | Service

  /** The id each demo of this file adds on completion: one per demo, 1 to 6. */
  function CaseId(d: Demo): (id: int)
    ensures 1 <= id <= TotalCases
  {
    match d
    case Reconciliation => 1
    case Resume => 2
    case Maintenance => 3
    case Invoice => 4
    case Quality => 5
    case Service => 6
  }

  /** The ids the demos can add. */
  function CaseIds(): set<int> { {1, 2, 3, 4, 5, 6} }

  /** A set of case ids never holds more ids than there are cases. */
  lemma CompletedAtMostTotal(s: set<int>)
    requires s <= CaseIds()
    ensures |s| <= TotalCases
  {
    var all := CaseIds();
    assert s + all == all;
    assert s * all == s;
    assert s - all == {};
    assert |s - all| + |all - s| + |s * all| == |s + all|;
  }

  class LegacyPage {
    /** state.completedCases */
    var completed: set<int>
    /** state.currentCase */
    var currentCase: int

    /** Only the demos of this file add ids, so the set stays within 1..6. */
    ghost predicate Valid()
      reads this
    {
      completed <= CaseIds()
    }

    constructor ()
      ensures Valid() && completed == {} && currentCase == 0
    {
      completed := {};
      currentCase := 0;
    }

    /**
     * updateProgress: the label shows how many cases are completed and the
     * bar is that count out of state.totalCases; the count never exceeds it.
     */
    method UpdateProgress() returns (p: Progress)
      requires Valid()
      ensures p == Progress(|completed|, TotalCases)
      ensures 0 <= p.current <= p.total
    {
      CompletedAtMostTotal(completed);
      p := Progress(|completed|, TotalCases);
    }

    /**
     * A demo finishes: its id joins the set and progress is recomputed. A
     * demo completed again leaves the count as it was.
     */
    method Complete(d: Demo) returns (p: Progress)
      requires Valid()
      modifies this`completed
      ensures Valid() && completed == old(completed) + {CaseId(d)}
      ensures p.total == TotalCases
      ensures p.current == |old(completed)| + (if CaseId(d) in old(completed) then 0 else 1)
    {
      if CaseId(d) in completed {
        assert completed + {CaseId(d)} == completed;
      }
      completed := completed + {CaseId(d)};
      p := UpdateProgress();
    }

    /**
     * The case-section observer: a section coming into view sets the current
     * case from its data-case attribute, and leaves it when there is none.
     */
    method OnCaseVisible(dataCase: Option<int>)
      modifies this`currentCase
      ensures currentCase == if dataCase.Some? then dataCase.value else old(currentCase)
    {
      if dataCase.Some? {
        currentCase := dataCase.value;
      }
    }

    /** The state part of resetAllDemos: nothing completed, case 0, progress 0 of 6. */
    method ResetAllDemos() returns (p: Progress)
      requires Valid()
      modifies this`completed, this`currentCase
      ensures Valid() && completed == {} && currentCase == 0
      ensures p == Progress(0, TotalCases)
    {
      completed := {};
      currentCase := 0;
      p := UpdateProgress();
    }
  }
}
