# AI demo page: a verified model of its page logic

The page is a bilingual, scripted marketing demo of AI-assisted office work.
Almost all of it is DOM and timer choreography. This project models the parts
that carry logic:

- the section tracker that drives the progress bar;
- the completion set every demo adds its case id to, and the reset;
- the savings calculator of the summary page;
- the customer-service reply generator, with its in-flight guard and tone switch;
- the typewriter text reveal;
- the reconciliation demo's comparison counter and its timer with hints;
- the HR demo's default-value swap;
- the arrow-key navigation rule;
- `formatTime`.

The two versions of the page script are both modelled. `js/main.js` is the
current one. `backup-20260123-152753/main.js` is the older one, where progress
counts completed cases. Timers become explicit step methods. `Math.random`
becomes a nondeterministic draw in the range the code produces. Progress is a
numerator/denominator pair (`Common.Progress`) instead of a percentage.

| file | module | what it holds |
|---|---|---|
| common.dfy | Common | `Option`, `Lang`, `Progress` |
| clock.dfy | Clock | `formatTime`, `toString`, `padStart`, and a parser that reads the clock back |
| page_progress.dfy | PageProgress | `state`, the section flags, `updateProgress`, the visibility handler, completion ids, `showSavings`, `resetAllDemos` (current file) |
| savings.dfy | Savings | `BENCHMARKS`, `calculateSavings`, `triggerSummaryCounters` |
| service_reply.dfy | ServiceReply | `generateReply`, the tone buttons, the completion callback |
| typewriter.dfy | Typewriter | `typewriterEffect` as a class with a step method |
| comparison_counter.dfy | ComparisonCounter | the give-up counter of both files |
| reconciliation_timer.dfy | ReconciliationTimer | the older file's seconds timer, its hints and the give-up stop |
| hr_defaults.dfy | HRDefaults | the HR demo's default values and their swap |
| keyboard_nav.dfy | KeyboardNav | the arrow-key target rule |
| legacy_progress.dfy | LegacyProgress | the older file's `state`, `updateProgress`, case observer, ids and reset |

The completion ids are modelled exactly as the code adds them, collisions
included. In `js/main.js`, Resume and Maintenance both add 2, and Quality and
HR both add 5. Service adds 6, Office 3, Sales 4, Invoice 8 and Meeting 9.
Resume, Invoice, Quality and Meeting are never installed by the start-up list
(`PageProgress.Wired`). In the older file, the six demos add 1 to 6, one id
each.

Two details of the code shape the model:

- The service demo adds id 6 (js/main.js:838).
- `resetAllDemos` does not clear the section flags, so after a reset progress
  still reads the flagged section (js/main.js:1308-1311).

## Model

| member | source | states |
|---|---|---|
| Clock.PadStart | js/main.js:398 | the result is `width` long when the input is shorter, otherwise the input itself; it ends with the input and starts with fill characters |
| Clock.DecimalString | js/main.js:398 | `toString` of a non-negative integer yields at least one character, all decimal digits |
| Clock.DecimalStringValue | js/main.js:398 | the digits `toString` writes denote the number |
| Clock.Pad2Field | js/main.js:396-398 | a padded field has at least two digits, no extra leading zero, and the padded number's value; it is exactly two characters below 100 |
| Clock.FormatTimeLength | js/main.js:395-399 | `formatTime` is 5 characters with ':' in the middle for every time under 100 minutes |
| Clock.FormatTimeRoundTrip | backup-20260123-152753/main.js:197-201 | reading a formatted time back yields the same number of seconds: minutes times 60 plus the seconds field |
| Clock.ParseTimeExact | js/main.js:395-399 | every string the reader accepts is exactly `formatTime` of what it reads, so the format is injective and canonical |
| PageProgress.LastActive | js/main.js:237-242 | the chosen index is the last flagged section, no later section is flagged, and it is 0 when none is flagged |
| PageProgress.ProgressInRange | js/main.js:248-250 | the displayed `currentIndex + 1` lies in 1..total |
| PageProgress.OnlyFlaggedProgress | js/main.js:263-267 | after the event for section k the tracker picks k |
| PageProgress.EventsLeaveOneActive | js/main.js:259-270 | after any non-empty run of visibility events, exactly one section is flagged, the last one reported, and progress picks it |
| PageProgress.Page.constructor | js/main.js:8-13 | the page starts with no completed case, `currentCase` 0 and no flagged section |
| PageProgress.Page.UpdateProgress | js/main.js:231-251 | the loop reports (last flagged index + 1) of the section count, within 1..total when there are sections |
| PageProgress.Page.OnSectionVisible | js/main.js:259-268 | every flag is cleared and only section k is flagged; progress reads k + 1 of the section count |
| PageProgress.Page.Complete | js/main.js:343-346 | a finishing demo adds its fixed id to the set; the progress reading does not depend on the set |
| PageProgress.Page.ShowSavings | js/main.js:401-412 | the given case number joins the set and progress is recomputed; nothing in the file calls `showSavings`, only its definition exists |
| PageProgress.Page.ResetAllDemos | js/main.js:1308-1311 | the set is empty and `currentCase` is 0, but the flags are kept, so progress is that of the still-flagged section |
| Savings.HoursInSplit | js/main.js:925-929 | with distinct table ids, the sum over a set is one id's row plus the sum over the rest |
| Savings.SumCompletedHours | js/main.js:921-929 | the accumulation loop over `Array.from(completedCases)` yields the table hours of the completed ids |
| Savings.CalculateSavings | js/main.js:920-945 | hours are the completed rows' sum, or the table total when that sum is 0; cost is max(hours*600 - 2000, 0); errorReduction is `Math.round(min(95 + n/2, 99))`; hours lie in 8..128 and errorReduction in 95..99 |
| Savings.ErrorReductionIsRounded | js/main.js:938-943 | the integer `min((191 + n)/2, 99)` equals `Math.round(min(95 + 0.5n, 99))` for every count n |
| Savings.TableIds | js/main.js:903-910 | the table rows have ids 1..6 in order, and every row saves at least 8 hours |
| Savings.FallbackExactlyWhenNoTableId | js/main.js:925-935 | the total is 0 exactly when no id 1..6 is completed, and ids without a row such as 8 or 9 never count |
| Savings.WiredCompletionsNeverFallBack | js/main.js:8-37 | the demos the start-up list installs add only ids 1..`totalCases` (6), and `calculateSavings` (js/main.js:920-935) falls back to the table total exactly when none of them was completed |
| Savings.CostFloorNeverBinds | js/main.js:932-942 | the table totals 128, and hours*600 - 2000 is always positive, so the floor of 0 never applies |
| Savings.SummaryCounters.constructor | js/main.js:917 | `summaryAnimated` starts false |
| Savings.SummaryCounters.Trigger | js/main.js:947-961 | counters animate only on the first call and only if the summary section exists; the flag is set either way |
| ServiceReply.ServiceDemo.constructor | js/main.js:702-704 | the demo starts professional, never generated, not generating |
| ServiceReply.ServiceDemo.GenerateReply | js/main.js:793-813 | nothing changes while a generation is in flight; otherwise one starts, with delay 300 without the loading delay, else 800 after a first generation, else 1500; an idle demo showing the selected tone keeps doing so |
| ServiceReply.ServiceDemo.DelayElapsed | js/main.js:815-829 | the reveal shows and types the tone current when the timeout fires, so the shown and selected tones agree at that moment |
| ServiceReply.ServiceDemo.TypingFinished | js/main.js:829-840 | completion sets `hasGenerated`, clears `isGenerating`, leaves nothing scheduled and adds 6 to the completion set; the idle demo shows the selected tone exactly when the typed tone is still the selected one |
| ServiceReply.ServiceDemo.SelectTone | js/main.js:846-861 | the current tone changes nothing; a new tone becomes current and regenerates with the 800 ms delay exactly when a reply was generated before and none is in flight; an idle demo showing the selected tone keeps doing so |
| ServiceReply.ServiceDemo.TypingFinishedKeepingTone | js/main.js:829-861 | the corrected callback: a tone switched during typing triggers a regeneration, otherwise the shown tone is the selected one; afterwards an idle demo always shows the selected tone |
| ServiceReply.ToneSwitchWhileTyping | js/main.js:846-861 | as written, a switch to Friendly while the first reply is typed asks for no regeneration and ends with Friendly selected, the professional reply shown, and nothing pending |
| ServiceReply.ToneSwitchWhileTypingKept | js/main.js:846-861 | with the corrected callback the same run ends with the Friendly reply shown |
| ServiceReply.ToneSwitchDuringRegeneration | js/main.js:793-861 | as written, a switch to Friendly while a Concise regeneration is typed is dropped by the in-flight guard and ends with Friendly selected, the concise reply shown, and nothing pending |
| ServiceReply.ToneSwitchDuringRegenerationKept | js/main.js:793-861 | with the corrected callback the regeneration run ends with the Friendly reply shown |
| Typewriter.Typewriter.Start | js/main.js:1204-1219 | the element is emptied and the first step runs at once |
| Typewriter.Typewriter.Step | js/main.js:1208-1216 | a step appends the next character and stays scheduled; at the end the callback runs once and the chain stops; the content is always the first i characters |
| Typewriter.RevealAll | backup-20260123-152753/main.js:605-620 | a full reveal ends with the content equal to the text, the callback run exactly once (when given) and exactly as many timed steps as characters |
| ComparisonCounter.StepRange | js/main.js:313-323 | a tick adds 32..81 in the current file (increment 57 = ceil(2847/50) with jitter -25..24) and 20..69 in the older one |
| ComparisonCounter.RunCounter | backup-20260123-152753/main.js:141-168 | the count rises strictly; every tick but the last adds a full random step; the last clamps to exactly 2847; the full steps before the last tick stay below 2847, which bounds the number of ticks |
| ReconciliationTimer.HintChangesAt | backup-20260123-152753/main.js:179-193 | the hint changes between consecutive seconds exactly at 15 and at 30 |
| ReconciliationTimer.Timer.constructor | backup-20260123-152753/main.js:97-98 | no interval id and 0 seconds at load |
| ReconciliationTimer.Timer.OnSectionVisible | backup-20260123-152753/main.js:117-122 | the timer starts, from 0, only when visible and no interval id was ever stored, so it starts at most once |
| ReconciliationTimer.Timer.Tick | backup-20260123-152753/main.js:172-194 | each tick adds exactly one second and shows `formatTime` of it; the hint changes exactly when the count reaches 15 or 30 |
| ReconciliationTimer.Timer.GiveUp | backup-20260123-152753/main.js:130-133 | the interval stops, the id stays, and the final time string reads back as the seconds reached |
| HRDefaults.TranslateDefault | js/main.js:1171-1177 | an input holding the task's default in the other language becomes the default in the page language; any other input is kept |
| HRDefaults.GenerateInput | js/main.js:1157-1177 | generation does nothing exactly when the input is empty; a non-empty default of the task in either language is used as the default in the page language; any other non-empty input is used unchanged |
| HRDefaults.DefaultFollowsLanguage | js/main.js:1124-1177 | a default chosen in either language is shown in the generation language, and the swap is idempotent |
| KeyboardNav.FindIndex | js/main.js:1422-1424 | the first section whose top is at or below the bound, or -1 exactly when there is none |
| KeyboardNav.ScrollTarget | js/main.js:1420-1438 | Down/Right scrolls to the section after the first one not above the viewport (to section 0 when all are above), and does nothing exactly when that section is the last; Up/Left scrolls to the section before the first one at most 10 px above, and does nothing when that is the first or there is none; other keys never scroll |
| LegacyProgress.CaseId | backup-20260123-152753/main.js:160 | every demo of the older file adds an id within 1..6 |
| LegacyProgress.CompletedAtMostTotal | backup-20260123-152753/main.js:8-13 | a set of ids within 1..6 never exceeds `totalCases` |
| LegacyProgress.LegacyPage.constructor | backup-20260123-152753/main.js:8-13 | the older page starts with no completed case and `currentCase` 0 |
| LegacyProgress.LegacyPage.UpdateProgress | backup-20260123-152753/main.js:71-75 | the display is `|completedCases|` and the bar is that out of 6, never more than 6 |
| LegacyProgress.LegacyPage.Complete | backup-20260123-152753/main.js:252-253 | completing adds the demo's id; the count grows by one only if the id was not already there |
| LegacyProgress.LegacyPage.OnCaseVisible | backup-20260123-152753/main.js:77-92 | `currentCase` takes the section's data-case when present, else it is unchanged |
| LegacyProgress.LegacyPage.ResetAllDemos | backup-20260123-152753/main.js:709-712 | the set is empty, `currentCase` is 0, and progress reads 0 of 6 |

## Left out

- DOM work, CSS classes and styles, `innerHTML`, and the bilingual canned texts are not modelled. The reply and HR content templates are not modelled either: a reply is identified by its tone.
- Wall-clock timing is not modelled: IntersectionObserver thresholds, `setTimeout`, `setInterval` and `requestAnimationFrame`. Each timer callback is a step method. The service delays survive only as the number stored in `Waiting`.
- `animateCounter` is not modelled: it uses floating-point easing and `performance.now`.
- `createConfetti` is not modelled: it uses random floats and particle physics.
- `playSound` is not modelled: it only flashes a style.
- The language switcher with `localStorage`, the clipboard copy, the edit button and the contact modal with its form are not modelled. They are UI glue with no state the rest reads.
- The Why-AI-Now, ROI and HITL section animations are not modelled: they are staggered CSS timing.
- The other demo timelines are modelled only through the id they add (`PageProgress.Page.Complete`, `LegacyProgress.LegacyPage.Complete`). Their DOM sequences (resume cards, invoice scan and labels, quality scan, maintenance report, office, sales and meeting reveals) carry no further logic.
- Progress is not rendered as a percentage string, and counts are not formatted with `toLocaleString`. With zero sections the JavaScript divides by zero. The pair reading (1, 0) is kept instead.
- Section tops are integer pixels, not floating-point rectangle values.
- `Math.random` is a nondeterministic draw of `floor(random * 50)` in 0..49. The model does not say which draws occur.
- In the older file, `parseInt` of a non-numeric `data-case` (NaN) is not modelled. The attribute is an optional integer.
- Composition is not modelled. The service and HR demos run a typewriter whose end calls the completion step. `ServiceReply.ServiceDemo.TypingFinished` stands for that callback without replaying the typewriter steps.
- Two typewriters running on the same element at once are not modelled.
- The typewriter's per-character speed is not modelled.
- `startReconciliationTimer` in js/main.js is never started there. The model follows the older file's copy, which differs only in choosing the hint text by language.
- `showSavings` in the older file is defined but never called, so it is not modelled for that file; the copy in js/main.js is not called either, and `PageProgress.Page.ShowSavings` models its definition. It would break the bound of at most six ids.
- HRDefaults.GenerateInput: the code reads `input.value` twice, for the empty guard at click time (js/main.js:1157) and again for the swap 1000 ms later (js/main.js:1171-1177); the model uses one value for both, so an edit made between the two reads is not modelled.
- Savings.CalculateSavings: receives the completion set as `Array.from` lists it, a duplicate-free sequence. The page model itself keeps a set without insertion order.

## Findings

| source | as written | input that shows it | evidently intended | confidence | as-written member | corrected member |
|---|---|---|---|---|---|---|
| js/main.js:846-861 | a tone switched while the first reply is being typed changes `currentTone`, but the handler asks for no regeneration because `hasGenerated` is still false (856-858), and nothing regenerates after typing ends | generate, let the 1500 ms delay pass, click Friendly during typing, let typing finish: Friendly is selected, the professional reply is shown, and nothing is pending | the reply shown matches the selected tone once all pending work is done ("auto regenerate on switch") | medium; not executed | ServiceReply.ToneSwitchWhileTyping | ServiceReply.ServiceDemo.TypingFinishedKeepingTone |
| js/main.js:793-861 | a tone switched while a regenerated reply is being typed changes `currentTone` and calls `generateReply`, which returns at once because `isGenerating` is still true (794), and nothing regenerates after typing ends | generate and finish, click Concise, let the 800 ms delay pass, click Friendly during typing, let typing finish: Friendly is selected, the concise reply is shown, and nothing is pending | the reply shown matches the selected tone once all pending work is done ("auto regenerate on switch") | medium; not executed | ServiceReply.ToneSwitchDuringRegeneration | ServiceReply.ServiceDemo.TypingFinishedKeepingTone |
