/**
 * typewriterEffect (js/main.js and backup-20260123-152753/main.js, identical
 * in both): the element is emptied, then each call of the inner `type` step
 * appends the next character and schedules another call; the call that
 * finds no character left runs the callback, if there is one, and stops.
 * The first call is made at once, every later one by a timer.
 */
module Typewriter {

  class Typewriter {
    /** The full text being revealed. */
    const text: string
    /** Whether a completion callback was passed. */
    const hasCallback: bool
    /** element.textContent */
    var content: string
    /** The index of the next character to append. */
    var i: nat
    /** Whether another call of the step is scheduled. */
    var scheduled: bool
    /** How many times the callback has run. */
    var callbackRuns: nat

    /**
     * The content is always the first i characters of the text; once the
     * chain has stopped the whole text is shown and the callback has run
     * exactly once (if given); before that it has not run.
     */
    ghost predicate Valid()
      reads this
    {
      i <= |text| && content == text[..i]
      && (!scheduled ==> i == |text|)
      && callbackRuns == (if !scheduled && hasCallback then 1 else 0)
    }

    /** typewriterEffect(element, text, callback): empty the element and make the first step. */
    constructor Start(text: string, hasCallback: bool)
      ensures Valid() && this.text == text && this.hasCallback == hasCallback
      ensures text != [] ==> content == text[..1] && i == 1 && scheduled
      ensures text == [] ==> content == [] && !scheduled
    {
      this.text := text;
      this.hasCallback := hasCallback;
      content := [];
      i := 0;
      scheduled := true;
      callbackRuns := 0;
      new;
      Step();
    }

    /** One call of the inner step function. */
    method Step()
      requires Valid() && scheduled
      modifies this`content, this`i, this`scheduled, this`callbackRuns
      ensures Valid()
      ensures old(i) < |text| ==> content == old(content) + [text[old(i)]] && i == old(i) + 1 && scheduled
      ensures old(i) == |text| ==> content == old(content) && i == old(i) && !scheduled
    {
      if i < |text| {
        assert text[..i + 1] == text[..i] + [text[i]];
        content := content + [text[i]];
        i := i + 1;
      } else {
        scheduled := false;
        if hasCallback {
          callbackRuns := callbackRuns + 1;
        }
      }
    }
  }

  /**
   * Runs a whole reveal, each pending timer firing in turn. It ends with the
   * whole text shown, the callback run exactly once (when given) and
   * exactly |text| timer-driven steps after the first, immediate one.
   */
  method RevealAll(text: string, hasCallback: bool) returns (content: string, callbacks: nat, timedSteps: nat)
    ensures content == text
    ensures callbacks == if hasCallback then 1 else 0
    ensures timedSteps == |text|
  {
    var writer := new Typewriter.Start(text, hasCallback);
    timedSteps := 0;
    while writer.scheduled
      invariant writer.Valid() && writer.text == text && writer.hasCallback == hasCallback
      invariant timedSteps == (if writer.scheduled then writer.i - 1 else |text|)
      invariant text != [] ==> writer.i >= 1
      decreases |text| - writer.i, writer.scheduled
    {
      writer.Step();
      timedSteps := timedSteps + 1;
    }
    assert text[..|text|] == text;
    content, callbacks := writer.content, writer.callbackRuns;
  }
}
