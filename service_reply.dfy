/**
 * The customer-service reply generator of js/main.js (initServiceDemo):
 * three closure flags (currentTone, hasGenerated, isGenerating), the
 * re-entrant-safe generateReply and the tone buttons. The two timers of a
 * generation (the loading delay, then the typewriter) are explicit steps.
 */
module ServiceReply {
  import opened Common
  import PageProgress

  datatype Tone = Professional | Friendly | Concise

  /** Where the timer chain of a generation stands. */
  datatype Stage =
    | Idle                  // nothing scheduled
    | Waiting(delay: nat)   // the loading timeout is pending
    | Typing(tone: Tone)    // the reply text of `tone` is being typed out

  /** The id the service demo adds when a reply has been typed out. */
  const ServiceCaseId: int := 6

  class ServiceDemo {
    /** The page whose completion set the demo adds to. */
    const page: PageProgress.Page
    var currentTone: Tone
    var hasGenerated: bool
    var isGenerating: bool
    /** The pending timer chain. */
    var stage: Stage
    /** The tone of the reply on display (its label), once one was revealed. */
    var shownTone: Option<Tone>

    /** A generation is in flight exactly while a timer of it is pending. */
    ghost predicate Valid()
      reads this
    {
      (isGenerating <==> !stage.Idle?)
      && (stage.Typing? ==> shownTone == Some(stage.tone))
      && (hasGenerated ==> shownTone.Some?)
    }

    /**
     * What the tone buttons promise ("auto regenerate on switch"): once a
     * reply has been generated and nothing is pending, the reply on display
     * is in the selected tone.
     */
    ghost predicate ShowsSelected()
      reads this
    {
      stage.Idle? && hasGenerated ==> shownTone == Some(currentTone)
    }

    constructor (page: PageProgress.Page)
      ensures Valid() && this.page == page
      ensures currentTone == Professional && !hasGenerated && !isGenerating
      ensures stage == Idle && shownTone == None
    {
      this.page := page;
      currentTone := Professional;
      hasGenerated := false;
      isGenerating := false;
      stage := Idle;
      shownTone := None;
    }

    /**
     * generateReply(showLoadingDelay): ignored while a generation is in
     * flight; otherwise marks one in flight and schedules the reveal after
     * 300 ms without the loading delay, 800 ms for a regeneration, 1500 ms
     * for the first one.
     */
    method GenerateReply(showLoadingDelay: bool) returns (started: bool)
      requires Valid()
      modifies this`isGenerating, this`stage
      ensures Valid()
      ensures started <==> !old(isGenerating)
      ensures !started ==> isGenerating == old(isGenerating) && stage == old(stage)
      ensures started ==> isGenerating
      ensures started ==> stage == Waiting(if !showLoadingDelay then 300 else if hasGenerated then 800 else 1500)
      ensures old(ShowsSelected()) ==> ShowsSelected()
    {
      if isGenerating {
        return false;
      }
      isGenerating := true;
      var delay := if showLoadingDelay then (if hasGenerated then 800 else 1500) else 300;
      stage := Waiting(delay);
      started := true;
    }

    /**
     * The loading timeout fires: the reply panel shows the label of the tone
     * selected NOW and the typewriter starts on that tone's text.
     */
    method DelayElapsed() returns (tone: Tone)
      requires Valid() && stage.Waiting?
      modifies this`stage, this`shownTone
      ensures Valid()
      ensures tone == currentTone && stage == Typing(tone) && shownTone == Some(tone)
      ensures ShowsSelected()
    {
      tone := currentTone;
      shownTone := Some(tone);
      stage := Typing(tone);
    }

    /**
     * The typewriter's completion callback: the demo is marked generated and
     * idle, and id 6 joins the completion set.
     */
    method TypingFinished() returns (p: Progress)
      requires Valid() && stage.Typing?
      modifies this`hasGenerated, this`isGenerating, this`stage, page`completed
      ensures Valid()
      ensures hasGenerated && !isGenerating && stage == Idle && shownTone == old(shownTone)
      ensures currentTone == old(currentTone)
      ensures page.completed == old(page.completed) + {ServiceCaseId}
      ensures p == Progress(PageProgress.LastActive(page.active) + 1, |page.active|)
      ensures ShowsSelected() <==> old(stage).tone == currentTone
    {
      hasGenerated := true;
      isGenerating := false;
      stage := Idle;
      p := page.Complete(PageProgress.Service);
    }

    /**
     * A tone button: the tone already selected changes nothing; a new one
     * becomes current and, once a reply has been generated, asks for a
     * regeneration (which the in-flight guard may drop).
     */
    method SelectTone(newTone: Tone) returns (regenerating: bool)
      requires Valid()
      modifies this`currentTone, this`isGenerating, this`stage
      ensures Valid()
      ensures currentTone == newTone && hasGenerated == old(hasGenerated)
      ensures newTone == old(currentTone) ==> !regenerating && isGenerating == old(isGenerating) && stage == old(stage)
      ensures regenerating <==> newTone != old(currentTone) && hasGenerated && !old(isGenerating)
      ensures regenerating ==> isGenerating && stage == Waiting(800)
      ensures !regenerating ==> isGenerating == old(isGenerating) && stage == old(stage)
      ensures old(ShowsSelected()) ==> ShowsSelected()
    {
      if newTone == currentTone {
        return false;
      }
      currentTone := newTone;
      regenerating := false;
      if hasGenerated {
        regenerating := GenerateReply(true);
      }
    }

    /**
     * The completion callback as it evidently should behave: when the tone
     * was switched while the reply was being typed, the switch is not lost
     * but a regeneration in the selected tone is scheduled.
     */
    method TypingFinishedKeepingTone() returns (regenerating: bool)
      requires Valid() && stage.Typing?
      modifies this`hasGenerated, this`isGenerating, this`stage, page`completed
      ensures Valid()
      ensures hasGenerated && currentTone == old(currentTone)
      ensures page.completed == old(page.completed) + {ServiceCaseId}
      ensures regenerating <==> old(stage).tone != currentTone
      ensures !regenerating ==> stage == Idle && shownTone == Some(currentTone)
      ensures regenerating ==> stage == Waiting(800)
      ensures ShowsSelected()
    {
      var _ := TypingFinished();
      regenerating := false;
      if shownTone != Some(currentTone) {
        regenerating := GenerateReply(true);
      }
    }
  }

  /**
   * The code as written, first generation: generate, let the delay pass,
   * switch to Friendly while the professional reply is being typed, let it
   * finish. No reply has been generated yet, so the tone button does not
   * ask for one; the Friendly button ends up selected, the professional
   * reply is shown, and nothing is left scheduled to fix it.
   */
  method ToneSwitchWhileTyping() returns (selected: Tone, shown: Option<Tone>, pending: bool, regenerated: bool)
    ensures selected == Friendly && shown == Some(Professional) && !pending && !regenerated
  {
    var page := new PageProgress.Page(3);
    var demo := new ServiceDemo(page);
    var _ := demo.GenerateReply(true);
    var _ := demo.DelayElapsed();
    regenerated := demo.SelectTone(Friendly);
    var _ := demo.TypingFinished();
    selected, shown, pending := demo.currentTone, demo.shownTone, demo.isGenerating;
  }

  /**
   * The same run with the corrected callback: the lost switch is turned into
   * a regeneration, after which the reply shown matches the selected tone.
   */
  method ToneSwitchWhileTypingKept() returns (selected: Tone, shown: Option<Tone>, pending: bool)
    ensures selected == Friendly && shown == Some(Friendly) && !pending
  {
    var page := new PageProgress.Page(3);
    var demo := new ServiceDemo(page);
    var _ := demo.GenerateReply(true);
    var _ := demo.DelayElapsed();
    var _ := demo.SelectTone(Friendly);
    var again := demo.TypingFinishedKeepingTone();
    var _ := demo.DelayElapsed();
    var _ := demo.TypingFinished();
    selected, shown, pending := demo.currentTone, demo.shownTone, demo.isGenerating;
  }

  /**
   * The code as written, regeneration: after a first reply, switch to
   * Concise, and while the concise reply is being typed switch to Friendly.
   * That button does ask for a regeneration, but the in-flight guard drops
   * it; the run ends with Friendly selected, the concise reply shown, and
   * nothing pending.
   */
  method ToneSwitchDuringRegeneration() returns (selected: Tone, shown: Option<Tone>, pending: bool, regenerated: bool)
    ensures selected == Friendly && shown == Some(Concise) && !pending && !regenerated
  {
    var page := new PageProgress.Page(3);
    var demo := new ServiceDemo(page);
    var _ := demo.GenerateReply(true);
    var _ := demo.DelayElapsed();
    var _ := demo.TypingFinished();
    var _ := demo.SelectTone(Concise);
    var _ := demo.DelayElapsed();
    regenerated := demo.SelectTone(Friendly);
    var _ := demo.TypingFinished();
    selected, shown, pending := demo.currentTone, demo.shownTone, demo.isGenerating;
  }

  /** The regeneration run with the corrected callback ends with the Friendly reply shown. */
  method ToneSwitchDuringRegenerationKept() returns (selected: Tone, shown: Option<Tone>, pending: bool)
    ensures selected == Friendly && shown == Some(Friendly) && !pending
  {
    var page := new PageProgress.Page(3);
    var demo := new ServiceDemo(page);
    var _ := demo.GenerateReply(true);
    var _ := demo.DelayElapsed();
    var _ := demo.TypingFinished();
    var _ := demo.SelectTone(Concise);
    var _ := demo.DelayElapsed();
    var _ := demo.SelectTone(Friendly);
    var again := demo.TypingFinishedKeepingTone();
    var _ := demo.DelayElapsed();
    var _ := demo.TypingFinished();
    selected, shown, pending := demo.currentTone, demo.shownTone, demo.isGenerating;
  }
}
