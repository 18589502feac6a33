# Genius Journey assessment and analytics, in Dafny

This project models two React components of the adaptive-learning front end:

- **The adaptive assessment** (`src/components/QuestionInterface.tsx`). It
  is a session over three fixed sample questions. The session holds six
  pieces of state: the question index, the selected option, a reveal flag,
  a 60-second per-question countdown, the score and the attempt counter.
  The handlers are select, submit, next and restart, plus a timer effect
  that counts down and submits when the clock reaches zero. The component
  also maps a question's difficulty to a badge variant and chooses a style
  for each option button.
- **The analytics dashboard helpers** (`src/components/AnalyticsDashboard.tsx`):
  - the skill insight text, chosen by average-score thresholds;
  - the difficulty badge variant;
  - the camelCase-to-words difficulty label;
  - the accuracy colour;
  - a student's initials;
  - the signed improvement badge.

Modules:

- `Text` (`text.dfy`): ASCII case mapping, `Number.prototype.toString` for
  integers with its parse-back, and `padStart`.
- `Badge` (`badge.dfy`): the badge variants both components choose between.
- `Assessment` (`assessment.dfy`): the assessment view.
  - Its state is the class `Session`. Each handler is a method that is
    proved against a pure transition function on the `State` datatype
    (`AfterSelect`, `AfterSubmit`, …).
  - `Apply` and `Run` fold a sequence of user clicks and timer-effect runs
    over that state. A click on a disabled or absent button does nothing.
  - The lemmas state what the handlers keep and what they do not.
- `Analytics` (`analytics.dfy`): the dashboard helpers as pure functions.
  - The label, the initials and the improvement text are each checked
    against an inverse or an independent reference definition.
  - The threshold and switch helpers (`Tier`, `AccuracyColor`,
    `DifficultyBadgeVariant`, `ImprovementVariant`) are stated as iff case
    tables.
  - `Tier` and `AccuracyColor` are also proved monotone.
- `Agreement` (`agreement.dfy`): the question card and the dashboard choose
  the same badge for every difficulty key.

### Where the handlers allow more than the buttons suggest

The rendered buttons count one attempt per question:
- "Submit Answer" is rendered only while `!showResult`, and it is disabled
  without a selection (`QuestionInterface.tsx:268-272`).
- After the reveal, only "Next Question" or "Complete Assessment" is
  offered (`QuestionInterface.tsx:279-297`).

With clicks only, at most one attempt is counted per question and at most
three in all (`Run`, `ReachableInv`). The handlers themselves do not keep
this bound:

- **A timeout submits twice.** The timer effect calls `handleSubmit`
  whenever `timeLeft === 0` (`QuestionInterface.tsx:81-82`). The first
  forced submission sets `showResult`, which is one of the effect's
  dependencies (`QuestionInterface.tsx:84`). So the effect runs again with
  the clock still at 0 and submits a second time.
  - An unanswered question that times out is counted twice
    (`TimeoutSubmitsTwice`, `TimeoutBreaksPacing`).
  - A selected but unsubmitted correct answer is scored twice
    (`TimeoutScoresSelectedTwice`).
- **`handleSubmit` has no `showResult` guard.** Called again after the
  reveal, it counts another attempt (`SubmitTwiceCountsTwice`).
- **When the timeout fires.** Starting from 60, sixty runs of the effect
  bring the clock to 0 (`Countdown`). The forced submission is the run
  after those, and the duplicate submission comes one run later.

## Model

| member | source | states |
|---|---|---|
| Assessment.SampleAnswersAreLabels | src/components/QuestionInterface.tsx:29-63 | every sample question's answer is one of the four option labels a–d |
| Assessment.Initial | src/components/QuestionInterface.tsx:66-71 | the initial hook values form a state satisfying the invariant (valid index, clock within 0..60, score ≤ attempts) |
| Assessment.SubmitFires | src/components/QuestionInterface.tsx:93 | handleSubmit's guard: something selected or the clock at 0; it has no contract of its own, and its meaning is stated by the contracts of Assessment.AfterSubmit (fires iff it holds) and Assessment.ActionButtons (an enabled Submit button satisfies it) |
| Assessment.IsCorrect | src/components/QuestionInterface.tsx:74 | a correct selection is non-empty and one of the four option labels |
| Assessment.AfterSelect | src/components/QuestionInterface.tsx:86-90 | the selection becomes the clicked option only while the result is hidden; no other field changes; the invariant is kept |
| Assessment.AfterSubmit | src/components/QuestionInterface.tsx:92-100 | it fires iff something is selected or the clock is at 0; firing reveals the result, adds exactly one attempt, and adds one point iff the selection is the answer; an empty selection never scores; not firing changes nothing; the invariant is kept |
| Assessment.AfterNext | src/components/QuestionInterface.tsx:102-109 | before the last question it advances the index and resets the selection, the reveal flag and the clock to 60; on the last question it changes nothing; score and attempts are untouched |
| Assessment.AfterRestart | src/components/QuestionInterface.tsx:111-118 | every field is back at its initial value |
| Assessment.AfterTimerStep | src/components/QuestionInterface.tsx:77-84 | while time remains and the result is hidden, exactly one second comes off; at 0 it is handleSubmit, whether or not the result is shown; otherwise nothing changes; the clock never grows; the invariant is kept |
| Assessment.OptionEnabled | src/components/QuestionInterface.tsx:207 | the option buttons are enabled while the result is hidden; no contract of its own, stated through Assessment.Apply and Assessment.ActionButtons |
| Assessment.SubmitEnabled | src/components/QuestionInterface.tsx:268-272 | "Submit Answer" is rendered while the result is hidden and enabled with a selection; no contract of its own, stated through Assessment.ActionButtons |
| Assessment.NextVisible | src/components/QuestionInterface.tsx:279-287 | "Next Question" is shown after the reveal before the last question; no contract of its own, stated through Assessment.ActionButtons |
| Assessment.CompleteVisible | src/components/QuestionInterface.tsx:288-297 | "Complete Assessment" is shown after the reveal on the last question; no contract of its own, stated through Assessment.ActionButtons |
| Assessment.ActionButtons | src/components/QuestionInterface.tsx:268-298 | exactly one of Submit, Next and Complete is offered; an enabled Submit always fires, while the options are still enabled; Next moves to the following question |
| Assessment.Apply | src/components/QuestionInterface.tsx:204-298 | one click or effect run keeps the invariant; outside restart, score and attempts never decrease; one click adds at most one attempt; the clock only goes up when it is reset to 60 with the result hidden |
| Assessment.Run | src/components/QuestionInterface.tsx:66-118 | any event sequence keeps the invariant; without a restart, score and attempts never decrease; with clicks only, attempts equal the questions revealed and never exceed three |
| Assessment.ReachableInv | src/components/QuestionInterface.tsx:66-118 | every state reachable from the initial one satisfies the invariant, and with clicks only it has at most three attempts |
| Assessment.PacedPreserved | src/components/QuestionInterface.tsx:77-100 | every event keeps "attempts = questions revealed", except an effect run with the clock at 0 after the reveal |
| Assessment.Steps | src/components/QuestionInterface.tsx:77-84 | repeated effect runs keep the question index valid |
| Assessment.Countdown | src/components/QuestionInterface.tsx:77-80 | with the result hidden, n ≤ timeLeft effect runs take exactly n seconds off and change nothing else |
| Assessment.TimeoutSubmitsTwice | src/components/QuestionInterface.tsx:77-100 | an unanswered question reaches 0 after timeLeft runs; the next run reveals it with one attempt and no point; the run after that counts a second attempt |
| Assessment.TimeoutScoresSelectedTwice | src/components/QuestionInterface.tsx:77-100 | a correct answer selected but not submitted is scored twice by the timeout |
| Assessment.TimeoutBreaksPacing | src/components/QuestionInterface.tsx:77-100 | a timed-out unanswered question leaves two attempts for itself, so "attempts = questions revealed" is lost even though the invariant holds |
| Assessment.SubmitTwiceCountsTwice | src/components/QuestionInterface.tsx:92-100 | submitting twice with a selection counts two attempts |
| Assessment.DifficultyColor | src/components/QuestionInterface.tsx:120-128 | compared case-insensitively: easy → default, moderate → outline, difficult → destructive, anything else (including "very easy") → secondary, each as an iff |
| Assessment.OptionStyleOf | src/components/QuestionInterface.tsx:130-146 | before the reveal, exactly the selected option is highlighted; after it, the answer is marked correct, a wrong selection wrong and the rest muted, each as an iff |
| Assessment.RevealMarks | src/components/QuestionInterface.tsx:130-146 | after the reveal exactly one of a–d is marked correct, and some option is marked wrong iff the selection is a wrong option label |
| Assessment.JsRem | src/components/QuestionInterface.tsx:165 | JavaScript's remainder differs from the dividend by a multiple of b, and lies in 0..b-1 for a non-negative dividend and in -(b-1)..0 for a negative one |
| Assessment.TimerDisplay | src/components/QuestionInterface.tsx:165 | the clock text has the colon third from the end and is "m:ss" for under ten minutes; a longer text does not start with '0' |
| Assessment.PaddedSeconds | src/components/QuestionInterface.tsx:165 | the seconds field is exactly two digits and reads back as the seconds |
| Assessment.TimerDisplayRoundTrip | src/components/QuestionInterface.tsx:165 | the minutes field reads back as t / 60 and the seconds field as t % 60, so together they give the time left |
| Assessment.Session.constructor | src/components/QuestionInterface.tsx:66-71 | a new session holds the initial state |
| Assessment.Session.SelectAnswer | src/components/QuestionInterface.tsx:86-90 | the new state is AfterSelect of the old one and the invariant holds |
| Assessment.Session.Submit | src/components/QuestionInterface.tsx:92-100 | the new state is AfterSubmit of the old one and the invariant holds |
| Assessment.Session.Next | src/components/QuestionInterface.tsx:102-109 | the new state is AfterNext of the old one and the invariant holds |
| Assessment.Session.Restart | src/components/QuestionInterface.tsx:111-118 | the new state is AfterRestart of the old one and the invariant holds |
| Assessment.Session.TimerStep | src/components/QuestionInterface.tsx:77-84 | the new state is AfterTimerStep of the old one and the invariant holds |
| Assessment.AllCorrectSession | src/components/QuestionInterface.tsx:29-109 | answering d, d, a with Next in between ends on the last question, revealed, at 3 of 3 |
| Text.UpperChar | src/components/AnalyticsDashboard.tsx:271 | the result is never lower case; a lower-case letter becomes the capital of the same letter; other characters are unchanged |
| Text.LowerChar | src/components/QuestionInterface.tsx:121 | the result is never upper case; a capital becomes the lower-case form of the same letter; other characters are unchanged |
| Text.LowerOfUpper | src/components/AnalyticsDashboard.tsx:271 | lower-casing after upper-casing is the same as lower-casing |
| Text.LowerStr | src/components/QuestionInterface.tsx:121 | the same length, lower-cased character by character |
| Text.LowerStrFixed | src/components/QuestionInterface.tsx:121 | a string without capitals is its own lower-case form |
| Text.NatToDecimal | src/components/QuestionInterface.tsx:165 | at least one digit, all digits, no leading zero, one digit iff n < 10 |
| Text.DecimalRoundTrip | src/components/QuestionInterface.tsx:165 | the digits read back as n |
| Text.IntToString | src/components/AnalyticsDashboard.tsx:219 | a leading '-' iff the number is negative, followed by digits with no leading zero |
| Text.IntToStringRoundTrip | src/components/AnalyticsDashboard.tsx:219 | the text reads back as the integer |
| Text.PadStart | src/components/QuestionInterface.tsx:165 | a string at least `width` long is unchanged; a shorter one is padded to exactly `width`, with fill characters in front of the original |
| Analytics.Tier | src/components/AnalyticsDashboard.tsx:252-255 | tier 2 iff the average is above 80, tier 0 iff it is at most 70 |
| Analytics.TierMonotone | src/components/AnalyticsDashboard.tsx:252-255 | a higher average never gives a lower tier |
| Analytics.InsightTable | src/components/AnalyticsDashboard.tsx:251-256 | the `insights` object has exactly the four skills as keys, each holding its text for the average's tier |
| Analytics.SkillInsight | src/components/AnalyticsDashboard.tsx:250-258 | an unknown skill gives "Performance analysis pending"; a known one gives its text for the average's tier, never the pending text |
| Analytics.DifficultyBadgeVariant | src/components/AnalyticsDashboard.tsx:260-268 | easy → default, moderate → outline, difficult → destructive, any other key (including veryEasy) → secondary, each as an iff |
| Analytics.SpaceBeforeCapitals | src/components/AnalyticsDashboard.tsx:271 | one character is added per capital; the result never starts with a capital; a leading capital gets a space in front |
| Analytics.SpacingRoundTrip | src/components/AnalyticsDashboard.tsx:271 | dropping the inserted spaces gives the key back |
| Analytics.UpperFirst | src/components/AnalyticsDashboard.tsx:271 | only the first character changes, to its upper-case form |
| Analytics.FormatDifficultyLabel | src/components/AnalyticsDashboard.tsx:270-272 | the label is as long as the key plus its capitals; it starts with the key's first letter upper-cased, or with a space when that letter is a capital |
| Analytics.FormatDifficultyLabelSpacing | src/components/AnalyticsDashboard.tsx:270-272 | dropping the inserted spaces from the label gives the key with its first letter upper-cased |
| Analytics.NoCapitalsUnspaced | src/components/AnalyticsDashboard.tsx:271 | a key without capitals gets no spaces |
| Analytics.SpaceBeforeCapitalsAppend | src/components/AnalyticsDashboard.tsx:271 | the spacing distributes over concatenation |
| Analytics.LowerKeyLabel | src/components/AnalyticsDashboard.tsx:270-272 | a key without capitals only gets its first letter upper-cased |
| Analytics.CapitalBetween | src/components/AnalyticsDashboard.tsx:271 | one capital between two runs without capitals gets exactly one space in front |
| Analytics.VeryEasyLabel | src/components/AnalyticsDashboard.tsx:270-272 | the key veryEasy is shown as "Very Easy" |
| Analytics.AccuracyColor | src/components/AnalyticsDashboard.tsx:274-278 | success iff at least 90, warning iff from 75 up to (not including) 90, error iff below 75 |
| Analytics.ClassNameInjective | src/components/AnalyticsDashboard.tsx:275-277 | the three colours have three distinct class names |
| Analytics.AccuracyColorMonotone | src/components/AnalyticsDashboard.tsx:274-278 | a higher accuracy never gives a worse colour |
| Analytics.Split | src/components/AnalyticsDashboard.tsx:207 | split(' ') gives at least one piece, and no piece contains a space |
| Analytics.SplitJoin | src/components/AnalyticsDashboard.tsx:207 | joining the pieces with single spaces gives the name back |
| Analytics.HeadsOfSplit | src/components/AnalyticsDashboard.tsx:207 | the first characters of the pieces are the characters that start a word |
| Analytics.Heads | src/components/AnalyticsDashboard.tsx:207 | `.map(n => n[0]).join('')`: at most one character per piece, and exactly the first character of each piece when none is empty |
| Analytics.Initials | src/components/AnalyticsDashboard.tsx:207 | the initials are no longer than the name and hold no space; Analytics.InitialsAreWordStarts gives their exact value |
| Analytics.InitialsAreWordStarts | src/components/AnalyticsDashboard.tsx:207 | the initials are exactly the word-start characters of the name, in order; empty pieces contribute nothing |
| Analytics.SkipWord | src/components/AnalyticsDashboard.tsx:207 | no character inside a word starts a word |
| Analytics.TwoWordInitials | src/components/AnalyticsDashboard.tsx:207 | "First Last" gives the two first letters |
| Analytics.SarahChenInitials | src/components/AnalyticsDashboard.tsx:207 | "Sarah Chen" gives "SC" |
| Badge.NameInjective | src/components/AnalyticsDashboard.tsx:261-266 | the five badge variants have five distinct names |
| Analytics.ImprovementVariant | src/components/AnalyticsDashboard.tsx:218 | success iff the change is positive, destructive iff negative, secondary iff zero |
| Analytics.ImprovementText | src/components/AnalyticsDashboard.tsx:219 | the text ends in '%'; it starts with '+' iff the change is a gain and with '-' iff a loss; the digit after the sign is never '0'; no change is "0%" |
| Analytics.ImprovementTextRoundTrip | src/components/AnalyticsDashboard.tsx:219 | the text without its '%' reads back as the change |
| Agreement.LowerUpperFirst | src/components/AnalyticsDashboard.tsx:271 | upper-casing the first letter does not change the lower-case form |
| Agreement.UnspacedHasNoCapitals | src/components/AnalyticsDashboard.tsx:271 | a spaced key with no space in it had no capitals |
| Agreement.LabelDeterminesKey | src/components/AnalyticsDashboard.tsx:270-272 | a label whose lower-case form is a word without spaces or capitals came from that very word |
| Agreement.LowerLabelOfPlainKey | src/components/AnalyticsDashboard.tsx:270-272 | a key without capitals is its label's lower-case form |
| Agreement.PlainKeysAgree | src/components/QuestionInterface.tsx:120-128 | for keys without capitals, the card's variant for the label is the dashboard's variant for the key |
| Agreement.OtherKeysAgree | src/components/QuestionInterface.tsx:120-128 | for keys other than easy/moderate/difficult, both sides give secondary |
| Agreement.DifficultyBadgesAgree | src/components/AnalyticsDashboard.tsx:260-272 | for every key, getDifficultyColor on formatDifficultyLabel(key) equals getDifficultyBadgeVariant(key) |

## Left out

- Rendering is not modelled: the JSX layout, the icons, and the
  Card/Button/Badge/Progress components. Only the choices the handlers and
  helpers make are modelled: badge variants, option styles, colour class
  names, texts, and which buttons are enabled or visible.
- Assessment.Session.TimerStep, Assessment.AfterTimerStep: the wall clock
  and React's effect scheduling are not modelled. A run of the effect is an
  event that may happen in any state. React runs the effect only after
  `timeLeft` or `showResult` changes, so the model allows more schedules
  than React produces. Every property proved holds for all of them.
- The `setTimeout` and `clearTimeout` pairing (line 79-80) is not modelled.
  A pending tick is modelled as having happened or not.
- Each handler is one atomic transition, as React batches the `setState`
  calls inside it. Renders between those calls are not modelled.
- The progress-bar percentage (floating point) is not modelled.
- The urgency colour of the clock (line 164) is not modelled.
- The feedback panel's texts (lines 232-253) are not modelled. The link
  between "Incorrect" and a wrong mark is covered by
  Assessment.RevealMarks.
- The AI-insight sentences appended after the reveal (lines 313-314) are
  not modelled.
- Text.UpperChar, Text.LowerChar, Text.LowerStr: ASCII only. Full Unicode
  case mapping is not modelled.
- Analytics.InitialsAreWordStarts, Analytics.Initials: a name is a
  sequence of Unicode characters. JavaScript's `n[0]` takes one UTF-16
  code unit. For a word that starts outside the Basic Multilingual Plane,
  such as "𝒜da", the page shows a lone high surrogate, while the model
  gives the whole character.
- Assessment.OptionStyleOf: the exact Tailwind class strings of each style
  are not modelled, only the choice among the five styles.
- The letter circle's search of those strings for "success" and "error"
  (lines 211-216) is not modelled. In the source it tells the Correct and
  Wrong styles apart.
- Analytics.SkillInsight: the lookup sees only the table's own four keys.
  In JavaScript, a key inherited by every object (such as "constructor")
  yields a truthy non-string value.
- Analytics.AccuracyColor, Analytics.SkillInsight: accuracy and average
  are exact reals. NaN, infinities and floating-point rounding are not
  modelled.
- Analytics.ImprovementText, Text.IntToString: only integral improvements
  are modelled. The decimal and exponent forms of `Number.prototype.toString`
  for fractions and very large magnitudes are not.
- Assessment.TimerDisplay: modelled for integral times, the only values the
  clock takes.
- The dashboard's mock data (enrolment and skill figures, recent activity)
  is not modelled. Only its key and name forms are used, through
  Analytics.VeryEasyLabel and Analytics.SarahChenInitials.
- `src/components/LearningDashboard.tsx` and `src/pages/Index.tsx` (the
  student dashboard and the page switcher) are not part of this model.
- Persistence is not part of this model. The code has no backend calls,
  and its data is static.
