/**
 * The page-wide state of js/main.js: the `state` object (completed case ids,
 * current case) and the "active-section" flag each page section carries,
 * with updateProgress, the visibility handler of observeSections, the
 * completion step every demo ends with, showSavings and the state part of
 * resetAllDemos.
 */
module PageProgress {
  import opened Common

  /** state.totalCases; js/main.js keeps it but its progress never reads it. */
  const TotalCases: int := 6

  /** The demos whose completion adds an id to the completion set. */
  datatype Demo =
    | Reconciliation | Resume | Maintenance | Invoice | Quality
    | Service | Office | Sales | Meeting | HRGen

  /**
   * The id each demo adds when it finishes, exactly as written: the ids
   * collide (Resume and Maintenance add 2, Quality and HRGen add 5).
   */
  function CaseId(d: Demo): int
  {
    match d
    case Reconciliation => 1
    case Resume => 2
    case Maintenance => 2
    case Invoice => 8
    case Quality => 5
    case Service => 6
    case Office => 3
    case Sales => 4
    case Meeting => 9
    case HRGen => 5
  }

  /** Whether the page's start-up list installs the demo's handlers at all. */
  predicate Wired(d: Demo)
  {
    d !in {Resume, Invoice, Quality, Meeting}
  }

  /**
   * The index updateProgress settles on: the last flagged section, or 0
   * when no section is flagged.
   */
  function LastActive(flags: seq<bool>): (r: nat)
    ensures flags == [] ==> r == 0
    ensures flags != [] ==> r < |flags|
    ensures forall j :: r < j < |flags| ==> !flags[j]
    ensures (exists j :: 0 <= j < |flags| && flags[j]) ==> flags[r]
    ensures (forall j :: 0 <= j < |flags| ==> !flags[j]) ==> r == 0
  {
    if flags == [] then 0
    else if flags[|flags| - 1] then |flags| - 1
    else LastActive(flags[..|flags| - 1])
  }

  /** The flags after a visibility event for section k: k alone is flagged. */
  ghost function OnlyFlagged(n: nat, k: nat): seq<bool>
  {
    seq(n, j => j == k)
  }

  lemma OnlyFlaggedProgress(n: nat, k: nat)
    requires k < n
    ensures LastActive(OnlyFlagged(n, k)) == k
  {
    assert OnlyFlagged(n, k)[k];
  }

  /** The reading updateProgress produces from a row of flags. */
  lemma ProgressInRange(flags: seq<bool>)
    requires flags != []
    ensures 1 <= LastActive(flags) + 1 <= |flags|
  {
  }

  class Page {
    /** The "active-section" flag of each page section, in document order. */
    var active: seq<bool>
    /** state.completedCases */
    var completed: set<int>
    /** state.currentCase */
    var currentCase: int

    /** The page at load time: n sections, none flagged, nothing completed. */
    constructor (n: nat)
      ensures active == seq(n, _ => false)
      ensures completed == {} && currentCase == 0
    {
      active := seq(n, _ => false);
      completed := {};
      currentCase := 0;
    }

    /**
     * updateProgress: scans the sections for the last flagged one and
     * reports (index + 1) of (number of sections).
     */
    method UpdateProgress() returns (p: Progress)
      ensures p == Progress(LastActive(active) + 1, |active|)
      ensures active != [] ==> 1 <= p.current <= p.total
    {
      var currentIndex := 0;
      var i := 0;
      while i < |active|
        invariant 0 <= i <= |active|
        invariant currentIndex == LastActive(active[..i])
      {
        assert active[..i + 1][..i] == active[..i];
        if active[i] {
          currentIndex := i;
        }
        i := i + 1;
      }
      assert active[..i] == active;
      p := Progress(currentIndex + 1, |active|);
    }

    /**
     * The IntersectionObserver callback for section k crossing the
     * threshold: every flag is cleared, k's is set, progress recomputed.
     */
    method OnSectionVisible(k: nat) returns (p: Progress)
      requires k < |active|
      modifies this`active
      ensures active == OnlyFlagged(|old(active)|, k)
      ensures p == Progress(k + 1, |active|)
    {
      var i := 0;
      while i < |active|
        invariant 0 <= i <= |active| == |old(active)|
        invariant forall j :: 0 <= j < i ==> !active[j]
      {
        active := active[i := false];
        i := i + 1;
      }
      active := active[k := true];
      assert active == OnlyFlagged(|old(active)|, k);
      OnlyFlaggedProgress(|active|, k);
      p := UpdateProgress();
    }

    /**
     * The completion step of demo d: its id is added to the set and
     * progress recomputed; the page reading does not depend on the set.
     */
    method Complete(d: Demo) returns (p: Progress)
      modifies this`completed
      ensures completed == old(completed) + {CaseId(d)}
      ensures p == Progress(LastActive(active) + 1, |active|)
    {
      completed := completed + {CaseId(d)};
      p := UpdateProgress();
    }

    /** showSavings: adds whatever case number it is given. */
    method ShowSavings(caseNum: int) returns (p: Progress)
      modifies this`completed
      ensures completed == old(completed) + {caseNum}
      ensures p == Progress(LastActive(active) + 1, |active|)
    {
      completed := completed + {caseNum};
      p := UpdateProgress();
    }

    /**
     * The state part of resetAllDemos: the set is emptied and currentCase
     * zeroed, but the section flags stay, so progress is still that of
     * the flagged section.
     */
    method ResetAllDemos() returns (p: Progress)
      modifies this`completed, this`currentCase
      ensures completed == {} && currentCase == 0
      ensures p == Progress(LastActive(active) + 1, |active|)
    {
      completed := {};
      currentCase := 0;
      p := UpdateProgress();
    }
  }

  /** The flags after a run of visibility events, handled in the order reported. */
  ghost function AfterEvents(flags: seq<bool>, events: seq<nat>): seq<bool>
    requires forall e :: e in events ==> e < |flags|
    decreases |events|
  {
    if events == [] then flags
    else
      assert events[0] in events && forall e :: e in events[1..] ==> e in events;
      AfterEvents(OnlyFlagged(|flags|, events[0]), events[1..])
  }

  /**
   * After any non-empty run of visibility events, exactly one section is
   * flagged, the last one reported, and progress reads (its index + 1) of
   * the section count.
   */
  lemma {:induction false} EventsLeaveOneActive(flags: seq<bool>, events: seq<nat>)
    requires events != []
    requires forall e :: e in events ==> e < |flags|
    ensures var f := AfterEvents(flags, events);
      |f| == |flags|
      && (forall j :: 0 <= j < |f| ==> (f[j] <==> j == events[|events| - 1]))
      && LastActive(f) == events[|events| - 1]
    decreases |events|
  {
    assert events[0] in events;
    var next := OnlyFlagged(|flags|, events[0]);
    if |events| == 1 {
      OnlyFlaggedProgress(|flags|, events[0]);
    } else {
      assert forall e :: e in events[1..] ==> e in events;
      EventsLeaveOneActive(next, events[1..]);
    }
  }
}
