# Coding typing speed test: session model

The page shows a code snippet for a chosen language. The user types it into a
text area. The first keystroke starts a one-second interval timer. When the
typed text equals the snippet, the timer stops and the page shows the words
per minute (WPM) and the accuracy.

This project models that logic from `app/page.js` in three modules:

- `Text` (text.dfy): JavaScript's `String.prototype.trim`, with the exact set
  of characters it strips, and `split` on a one-character separator. `Join` is
  proved to be the inverse of `Split` in both directions, and the number of
  pieces is proved to be one more than the number of separators.
- `Metrics` (metrics.dfy): `Math.round` on a non-negative rational number.
  The counting loop of `calculateAccuracy` is the method `CalculateAccuracy`,
  proved equal to the function `Accuracy`. `calculateWPM` is the function
  `Wpm`, built on `WordCount` (`input.trim().split(' ').length`). A displayed
  number is `Finite(n)`, `Infinity` or `NaN`. WPM with `timer == 0` is
  `Infinity`: there is always at least one word, and JavaScript divides by a
  zero number of minutes. Accuracy with an empty target is `NaN` (0 / 0).
- `TypingSession` (session.dfy): the class `Session`. It has one field per
  React state variable. `timerRef` is the id of the interval started last.
  `live` is the set of intervals started and not cleared, and `nextId` hands
  out interval ids. The methods are the page's handlers. The firing of one
  interval is the explicit method `Tick(id)`. The `codeSnippets` table is the
  constructor parameter `snippets`, one fixed string per `Language`.

Each handler is stated as a whole-state update. `Snapshot()` gives every field
as one `State` value, and each `ensures` says which fields change and to what.
`Valid()` is the invariant every handler keeps: the target text is the
snippet of the current language, and while `isTyping` holds, `timerRef` names
a live interval.

Observed behaviour of the code, proved as it is written:

- `resetTest` sets `isTyping` to false but never calls `clearInterval`, so the
  interval keeps running. The next keystroke starts a second one, and each
  second then adds two to the timer. Completion clears only the newer
  interval, so the timer keeps counting while the results are shown
  (`ResetLeaksInterval`).
- `handleLanguageChange` zeroes the timer but leaves `isTyping` and the
  interval alone, so a running test keeps counting against the new snippet
  (`LanguageChangeKeepsTimer`).
- Typing the whole target before the first tick gives WPM `Infinity`
  (`CompleteBeforeFirstTick`).
- Words are separated only by the space character. After trimming, newlines
  and tabs inside the text do not separate words, and empty input counts as
  one word (`WordCount`, `NoSpaceIsOneWord`).

Behaviour a reader might expect from such a page but that the code does not
have:

- With `timer == 0` the WPM shown is `Infinity`, not 0.
- Words are the pieces of a split on `' '`, not runs of arbitrary whitespace.
- `resetTest` does not clear the running interval.

## Model

| member | source | states |
|---|---|---|
| Text.Trim | app/page.js:124 | the result is the input without its maximal leading and trailing runs of JavaScript whitespace (a middle slice, whitespace outside it, non-whitespace at both of its ends) |
| Text.TrimIdempotent | app/page.js:124 | trimming an already trimmed string changes nothing |
| Text.TrimUnpadded | app/page.js:124 | a string with no whitespace at either end is its own trim |
| Text.Split | app/page.js:124 | `split(' ')` yields one more piece than there are separators, and no piece contains the separator |
| Text.JoinSplit | app/page.js:124 | joining the pieces of a split with the separator gives back the original string |
| Text.SplitJoin | app/page.js:124 | splitting a join of separator-free pieces gives back the pieces |
| Text.OccurrencesAppend | app/page.js:124 | separator counts add up over a concatenation |
| Metrics.Round | app/page.js:126 | `Math.round(p / q)` is the integer r with r - 1/2 <= p/q < r + 1/2 (halves round up) |
| Metrics.RoundUnique | app/page.js:138 | that rounding condition has exactly one solution |
| Metrics.Matches | app/page.js:133-137 | the count of equal positions below n is at most n |
| Metrics.AllMatch | app/page.js:133-137 | the count is n exactly when every position below n matches |
| Metrics.NoneMatch | app/page.js:133-137 | the count is 0 exactly when no position below n matches |
| Metrics.Correct | app/page.js:132-137 | the correct-character count never exceeds the length of the input or of the target |
| Metrics.Accuracy | app/page.js:138 | NaN exactly for an empty target; finite exactly for a non-empty one, and then a value in 0..100 that is the rounded value of 100 * correct / len(target) |
| Metrics.CalculateAccuracy | app/page.js:131-140 | the counting loop over the overlap of input and target returns exactly `Accuracy` |
| Metrics.ExactInputScoresFull | app/page.js:133-138 | typing exactly a non-empty target scores 100 |
| Metrics.MismatchedInputScoresZero | app/page.js:133-138 | input that differs at every overlapping position, the empty input included, scores 0 |
| Metrics.HalfCorrectScoresFifty | app/page.js:131-140 | "ac" against "ab" scores 50 |
| Metrics.WordCount | app/page.js:124 | the word count is the number of spaces in the trimmed input plus one, so it is at least 1 |
| Metrics.NoSpaceIsOneWord | app/page.js:124 | input with no space character (newlines and tabs allowed, empty input included) counts as one word |
| Metrics.TwoWords | app/page.js:124 | two space-free words joined by one space count as two words |
| Metrics.Wpm | app/page.js:123-128 | Infinity exactly when the timer is 0; finite exactly when it is positive, and then a non-negative integer that is the rounded value of words * 60 / timer |
| Metrics.TwoWordsInThirtySeconds | app/page.js:123-128 | "hello world" typed in 30 seconds gives 4 WPM |
| TypingSession.ResetIdempotent | app/page.js:143-150 | applying the reset twice gives the same state as applying it once |
| TypingSession.Session.constructor | app/page.js:67-77 | the initial state: JavaScript snippet, empty input, timer 0, not typing, WPM 0, accuracy 100, no modal, no interval |
| TypingSession.Session.StartTimer | app/page.js:80-85 | sets isTyping, adds one new live interval and records its id in timerRef; nothing else changes |
| TypingSession.Session.StopTimer | app/page.js:88-91 | clears only the interval timerRef names (none before the first start) and clears isTyping; nothing else changes |
| TypingSession.Session.Tick | app/page.js:82-84 | a live interval's firing adds exactly 1 to the timer, a cleared one changes nothing; nothing else changes |
| TypingSession.Session.HandleLanguageChange | app/page.js:94-103 | loads the snippet of the chosen language, empties the input, zeroes timer and WPM, sets accuracy 100, hides the modal; isTyping and the intervals are untouched |
| TypingSession.Session.HandleInputChange | app/page.js:106-120 | records the input; starts one interval exactly when not typing; on input equal to the target, stops typing, clears the current interval, sets WPM and accuracy from the metric functions and shows the modal; otherwise WPM, accuracy, modal and timer are untouched |
| TypingSession.Session.ShowResults | app/page.js:114-119 | the completion branch: clears only the interval timerRef names, clears isTyping, sets WPM from the timer and accuracy from the target as they were, and shows the modal; nothing else changes |
| TypingSession.Session.ResetTest | app/page.js:143-150 | empties the input, zeroes timer and WPM, sets accuracy 100, clears isTyping and the modal; language, target and intervals are untouched |
| TypingSession.ResetLeaksInterval | app/page.js:106-150 | after a reset and a new keystroke two intervals are live and one second adds 2 to the timer; completion clears one, and the timer keeps counting |
| TypingSession.CompleteBeforeFirstTick | app/page.js:106-126 | completing before any tick gives WPM Infinity, accuracy 100 (NaN for an empty snippet), and no live interval |
| TypingSession.LanguageChangeKeepsTimer | app/page.js:80-112 | a language change during a run keeps isTyping, and the running interval keeps adding to the zeroed timer |

## Left out

- Metrics.Accuracy: uses exact rational rounding. JavaScript computes `correct / len * 100` in doubles, which can land on the other side of a .5 boundary.
- Metrics.Accuracy: indexes and compares Unicode characters, while `input.length` and `input[i]` in JavaScript count UTF-16 code units. For text outside the Basic Multilingual Plane the two differ: target "😀" with input "😁" scores 50 in JavaScript (two code units, the first pair equal) and 0 in the model. The page only calls the computation when input equals the target, so the score it shows is unaffected. Trim and split are unaffected, since every whitespace character is in the Basic Multilingual Plane.
- Metrics.Wpm: uses exact rational rounding of `words * 60 / timer`. JavaScript computes `words / (timer / 60)` in doubles, with the same .5-boundary gap.
- The literal text of the code snippets (app/page.js:5-64): the table is a parameter giving one fixed string per language.
- Wall-clock timing of `setInterval`: each firing is an explicit `Tick(id)`. Interval ids are modelled as positive and increasing, as browsers issue them.
- React state batching and stale closures: each handler is one atomic update over the current state.
- JSX rendering, the modal markup, the text area ref and CSS classes (app/page.js:152-225): presentation only.
- `app/layout.js`: static metadata, font loading and markup, with no logic.
- A language value outside the selector's options: the selector offers only the seven languages of `Language`, so `codeSnippets[lang]` is never undefined.
