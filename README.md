# BibliaQuiz quiz core in Dafny

A model of the quiz logic of the BibliaQuiz mobile app (`app/index.tsx`).
It has six parts:

- **Fisher–Yates shuffle.** `shuffle` copies its input, then walks `i` from the last index down to 1 and swaps position `i` with a random `j` in `[0, i]`.
- **Question preparation.** `prepareQuestions` shuffles the question order. It takes `maxOptions` as the largest option count, or 4 when that is 0. It builds the slot sequence `i % maxOptions` and shuffles it. It shuffles each question's options. Then it swaps the first occurrence of the correct answer into the question's desired slot, reduced modulo the option count.
- **Quiz screen state machine.** This covers the stage, the question index, the correct and wrong counters, the one-shot answer lock and the countdown. The transitions are opening a quiz, start, retry, back to the catalog, starting the countdown, answering, the countdown running out, and advancing. It also covers the grade and the pass verdict.
- **Catalog screen logic.** This is the display name without `.json`, the search filter, the one-week revisit nudge and the card tone.
- **Persisted keys.** These are `@biblequiz:lastScore:<id>` and `@biblequiz:lastDate:<id>`. The model includes the loop that turns the stored pairs back into the score map and the date map.
- **Fetched quiz documents.** A document is normalised into a question list and a display name.

Randomness is a parameter. Each shuffle takes a draw table `js` in which `js[i]` is the index that `Math.floor(Math.random() * (i + 1))` picks at step `i`, so `0 <= js[i] <= i` (`Shuffling.ValidDraws`). One preparation takes a `Questions.Draws` record:

- one table for the question order;
- one for the slot sequence;
- one per shuffled question for its options.

The clock (`Date.now()`) and `Number(...)` are parameters too.

Files: `shuffle.dfy` (module `Shuffling`), `questions.dfy` (`Questions`), `quiz.dfy` (`QuizFlow`), `grading.dfy` (`Grading`), `catalog.dfy` (`Catalog`), `text.dfy` (`Text`: `trim`, `toLowerCase`, `includes`), `storage.dfy` (`Storage`), `payload.dfy` (`Payload`), `wrappers.dfy` (`Option`, `Max`).

## Model

| member | source | states |
|---|---|---|
| `Shuffling.Shuffle` | app/index.tsx:28-35 | works on a fresh copy, so no existing object changes; the result is `FisherYates(input, js)`, with the input's length and multiset |
| `Shuffling.Steps` | app/index.tsx:30-33 | the descending swap loop from any position keeps the length and the multiset: the result is a permutation |
| `Shuffling.FisherYates` | app/index.tsx:28-35 | the whole shuffle returns a permutation of its input |
| `Shuffling.Swap` | app/index.tsx:32 | exchanges the two positions, leaves every other position alone, keeps the multiset |
| `Shuffling.FisherYatesMap` | app/index.tsx:28-35 | where an element ends up depends only on the draws: shuffling then mapping equals mapping then shuffling |
| `Questions.Cycle` | app/index.tsx:47-49 | the slot sequence has one entry per question, each below `maxOptions` |
| `Questions.MaxLen` | app/index.tsx:45 | an upper bound on every question's option count that some question reaches |
| `Questions.MaxOptions` | app/index.tsx:45 | `maxOptions` is at least 1; it is 4 when no question has options, else the largest option count |
| `Questions.SlotCycle` | app/index.tsx:48-49 | the push loop yields exactly `[i % maxOptions \| i < n]` |
| `Questions.CycleBalanced` | app/index.tsx:47-50 | in the slot sequence, slot `k < m` occurs `n / m` times plus one for `k < n % m`, so floor or ceil of `n/m` |
| `Questions.DesiredSlotsBalanced` | app/index.tsx:45-50 | the shuffled `desiredPositions` keep that exact per-slot count |
| `Questions.IndexOf` | app/index.tsx:56 | `findIndex` by value: none exactly when absent, else the first position holding the answer |
| `Questions.PreparedQuestion` | app/index.tsx:53-62 | the prepared question keeps its id, text and answer, and has as many options as before |
| `Questions.PrepareOne` | app/index.tsx:53-62 | one question's shuffle plus in-place swap equals `PreparedQuestion` |
| `Questions.PreparedQuestionFacts` | app/index.tsx:53-62 | id, text and answer are kept; options are a permutation, so the answer is never dropped or duplicated; a present answer lands at `slot % length`; an absent one leaves the options only shuffled |
| `Questions.TwoOptionScenario` | app/index.tsx:53-61 | `["A","B"]` with answer `"B"` keeps length 2 and one `"B"`, in the desired slot |
| `Questions.PrepareEach` | app/index.tsx:52-63 | the `map` prepares each shuffled question with its own draws and desired slot |
| `Questions.PreparedQuiz` | app/index.tsx:42-64 | the prepared quiz has as many questions as the loaded batch |
| `Questions.Order` | app/index.tsx:43 | `qs = shuffle(base)`: the shuffled batch has the loaded batch's length and the same questions with the same multiplicities |
| `Questions.DesiredSlots` | app/index.tsx:50 | `desiredPositions = shuffle(seq)`: one desired slot per question, each below `maxOptions`, and the same slots with the same counts as the unshuffled sequence |
| `Questions.PrepareAll` | app/index.tsx:52-63 | the `qs.map(...)` gives exactly one prepared question per question of the shuffled batch; what each one holds is stated by `Questions.PreparedQuizFacts` |
| `Questions.PrepareQuestions` | app/index.tsx:42-64 | the whole preparation equals `PreparedQuiz(base, d)`, an empty batch included |
| `Questions.PreparedQuizFacts` | app/index.tsx:42-64 | same length, empty in gives empty out, and the questions are a permutation of the input up to their options; each question's options are a permutation of its own; a present answer sits at `desiredPositions[i] % length` |
| `Grading.Grade` | app/index.tsx:89-96 | `nota * total == 10 * acertos`; 0 with no questions; never negative, and within 0..10 when `acertos <= total` |
| `Grading.Passed` | app/index.tsx:97 | `nota >= 6` holds exactly when `10 * acertos >= 6 * total` with `total > 0` |
| `Grading.ShownTenths` | app/index.tsx:319 | `toFixed(1)` in tenths: the nearest tenth of the grade, halves upwards |
| `Grading.VerdictDisagreesWithShownGrade` | app/index.tsx:97 | 25 of 42 fails, yet shows and stores 6.0, which the catalog card colours as passed |
| `Grading.ShownPassThreshold` | app/index.tsx:319 | the one-decimal grade reaches 6.0 exactly when `200 * acertos >= 119 * total` |
| `Grading.PassedAsShown` | app/index.tsx:97 | the verdict on the shown grade holds exactly when `200 * acertos >= 119 * total` |
| `Grading.PassedAsShownAgreesWithCard` | app/index.tsx:371 | decided on the shown grade, the verdict matches the card tone for every score, an empty quiz included |
| `QuizFlow.TotalQuestions` | app/index.tsx:89-92 | `totalPerguntas` is the loaded batch's size when non-empty, else the prepared quiz's; it is 0 only when both are empty |
| `QuizFlow.QuizScreen.constructor` | app/index.tsx:67-84 | the initial state: catalog stage, zero counters, empty quizzes, unlocked, no countdown |
| `QuizFlow.QuizScreen.Approved` | app/index.tsx:89-97 | `aprovado` holds exactly when `10 * acertos >= 6 * totalPerguntas` with at least one question |
| `QuizFlow.QuizScreen.CurrentQuestion` | app/index.tsx:86 | `perguntas[indice]`, undefined past the end |
| `QuizFlow.QuizScreen.Open` | app/index.tsx:303-308 | the fetched questions become the base batch; the prepared quiz empties; counters and index are zeroed; stage is `start` |
| `QuizFlow.QuizScreen.Begin` | app/index.tsx:179-186 | counters and index are zeroed, the lock is released, `perguntas` is the freshly prepared quiz of the same size, stage is `quiz` |
| `QuizFlow.QuizScreen.Retry` | app/index.tsx:196-204 | stops the countdown, then does what `Begin` does |
| `QuizFlow.QuizScreen.Restart` | app/index.tsx:188-194 | stops the countdown; catalog stage and zeroed counters; the lock is untouched |
| `QuizFlow.QuizScreen.StartTimer` | app/index.tsx:101-112 | keeps the screen invariant; nothing without a measured height; otherwise the countdown runs and the lock is released |
| `QuizFlow.QuizScreen.Advance` | app/index.tsx:135-144 | next index while `index + 1 < length`, else the result stage with the index kept; the index stays below the length of a non-empty quiz |
| `QuizFlow.QuizScreen.Select` | app/index.tsx:167-177 | ignored when locked or outside the quiz; otherwise it sets the lock, stops the countdown and increments exactly one of `acertos`/`erros` by correctness |
| `QuizFlow.QuizScreen.TimerFinished` | app/index.tsx:113-127 | only a running countdown completes; in the quiz and unlocked it sets the lock, adds one wrong answer and advances as `avancarPergunta` does; otherwise nothing changes |
| `QuizFlow.StartedQuiz` | app/index.tsx:179-186 | starting a one-question quiz gives the quiz stage with that question and zero counters |
| `Catalog.ToDisplayName` | app/index.tsx:38 | removes exactly the last five characters when they read `.json` in any case, else returns the name unchanged |
| `Catalog.DisplayNameOfJsonFile` | app/index.tsx:38 | `toDisplayName(stem + ".json")` (any case) is `stem`, so only one extension is removed |
| `Catalog.DisplayNameChanges` | app/index.tsx:38 | the name changes exactly when it ends in `.json` |
| `Catalog.Matches` | app/index.tsx:255 | `toDisplayName(name).toLowerCase().includes(term)`: the empty term matches every entry; a term longer than the name matches none |
| `Catalog.Keep` | app/index.tsx:255 | an entry is kept exactly when it matches, and as many times as it occurs in the catalog; non-matching entries are dropped |
| `Catalog.KeepConcat` | app/index.tsx:255 | filtering keeps the order: the result for `a + b` is the result for `a` followed by the result for `b` |
| `Catalog.FilterCatalog` | app/index.tsx:252-256 | a blank search shows the whole catalog, and a missing catalog reads as empty; otherwise each matching entry as often as it occurs and nothing else |
| `Catalog.FilterCatalogConcat` | app/index.tsx:252-256 | the filtered list keeps catalog order: the results for two parts of the catalog come in the parts' order |
| `Catalog.ShowWeekMessage` | app/index.tsx:369-370 | the nudge shows exactly when a last attempt exists and more than 604800000 ms have passed |
| `Catalog.WeekMessageMonotone` | app/index.tsx:369-370 | once shown it stays shown as time passes; never within a week |
| `Catalog.CardPassed` | app/index.tsx:371 | no tone without a score; the passed tone exactly for a score of 6 or more |
| `Text.Trim` | app/index.tsx:253 | empty exactly for an all-white-space input; otherwise it starts and ends on non-space |
| `Text.Lower` | app/index.tsx:253 | same length, lower-casing each character |
| `Text.LowerChar` | app/index.tsx:255 | `A`–`Z` and the Latin-1 capitals `À`–`Þ` except `×` move up by 32 to their lower-case letters; every other character is unchanged |
| `Storage.ScoreKey` | app/index.tsx:218 | the score key is `@biblequiz:lastScore:` followed by the id itself |
| `Storage.DateKey` | app/index.tsx:219 | the date key is `@biblequiz:lastDate:` followed by the id itself |
| `Storage.SlotOf` | app/index.tsx:227-230 | a key containing `:lastScore:` feeds the score map; otherwise one containing `:lastDate:` feeds the date map; any other key feeds neither |
| `Storage.Put` | app/index.tsx:224-234 | one step: an empty key, a null value, an unknown kind or a NaN number changes nothing; otherwise the map the key's kind names gets the key's id set to the number, and the other map is unchanged |
| `Storage.Collect` | app/index.tsx:222-235 | after the whole `forEach`, every id in either map is colon-free |
| `Storage.LastIndexOf` | app/index.tsx:226 | the last position holding the character, or -1 when none does |
| `Storage.KeyId` | app/index.tsx:226 | the id is the key's longest colon-free suffix |
| `Storage.ScoreKeyRoundTrip` | app/index.tsx:218-229 | for a colon-free id, the id is recovered from its score key, which routes to the score map |
| `Storage.DateKeyRoundTrip` | app/index.tsx:219-233 | for a colon-free id, the id is recovered from its date key, which routes to the date map and not to the score map |
| `Storage.KeyIdAfterPrefix` | app/index.tsx:226 | any key ending in a colon followed by a colon-free id yields that id |
| `Storage.PutDomain` | app/index.tsx:224-234 | one step adds an id to a map exactly when the pair stores a number for it there |
| `Storage.CollectDomain` | app/index.tsx:222-235 | after loading, an id has a score or a date exactly when some non-null, numeric pair of that kind names it |
| `Storage.SavedScoreLoads` | app/index.tsx:321-323 | the next load's score map is the previous one with the id set to the saved score, so every other score is kept; dates are unaffected; a null value changes nothing |
| `Storage.SavedDateLoads` | app/index.tsx:321-323 | the next load's date map is the previous one with the id set to the saved date, so every other date is kept; scores are unaffected |
| `Storage.LoadSaved` | app/index.tsx:222-235 | the `forEach` loop yields exactly `Collect(pairs)` |
| `Payload.Field` | app/index.tsx:296 | `data?.key` is defined exactly for an object having that key, and is then that key's value |
| `Payload.Truthy` | app/index.tsx:296 | `undefined` and `null` are falsy, arrays and objects truthy, a boolean exactly when true, a number exactly when non-zero, a string exactly when non-empty |
| `Payload.QuestionItems` | app/index.tsx:296-303 | an array document is the list; else a truthy `perguntas` decides and is used only if it is an array; else `questions` if it is an array; any non-empty result is one of those arrays |
| `Payload.ScalarDocumentHasNoQuestions` | app/index.tsx:296-303 | a document that is neither array nor object opens with no questions |
| `Payload.QuizName` | app/index.tsx:297-301 | never blank: a non-blank string `name`, else a non-blank fallback, else `Bible Quiz` |

## Left out

- Rendering, styles, the water-level animation and its 10000 ms duration are not modelled (app/index.tsx:101-111, 332-704). They are UI.
- The 200 ms `setTimeout` before advancing is not modelled. `Select` returns `accepted`, and the caller's next step is `Advance`.
- React's effect scheduling is not modelled. When `startTimer` runs (on each index or stage change in the quiz, and on a layout change) is left to the caller of `StartTimer`.
- `onLayoutContainer` (app/index.tsx:155-165) is not modelled.
- QuizFlow.QuizScreen.TimerFinished: it reads the current `stage` and `perguntas`. The source's callback reads them from the render that created it, which can be stale.
- AsyncStorage reads and writes are not modelled, nor `Date.now()`. The pairs read back are an input, the clock is a parameter, and the save effect (app/index.tsx:315-326) appears only through the key functions and `Storage.SavedScoreLoads` / `Storage.SavedDateLoads`.
- `Number(...)` is an injected function. NaN is `None`.
- Catalog and quiz fetching are not modelled: `listFolderFiles`, `fetchFileJson`, the `cancelled` flag, and the loading and error strings.
- `recarregarCatalogo` (app/index.tsx:258-291) is not modelled separately. It repeats the same key loop that `Storage.LoadSaved` models.
- The back button from the start screen to the catalog (app/index.tsx:419) is not modelled.
- Grading.Grade, Grading.ShownTenths, Grading.ShownPassThreshold: the grade is computed exactly over reals. JavaScript's floating-point division and `toFixed` are not modelled, so near-ties of the one-decimal rounding may differ. For example, 119 of 200 is exactly 5.95, which the model rounds to 6.0. In doubles `(119 / 200) * 10` is 5.949999999999999, which the app shows as 5.9.
- Text.LowerChar: it lower-cases only ASCII and Latin-1 capitals. Other scripts, and one-to-many mappings such as `İ`, are not modelled.
- Text.Trim: it states the blank test and that both ends are non-space. It does not state that the result is the middle slice of the input.
- The JSON items are taken as questions without checking them, as the source's cast does. A missing `alternativas` is the empty list, because the source treats `undefined` as `[]`.
- Questions.PreparedQuizFacts: it states that the questions are a permutation up to their options. It does not state which original question each prepared question came from.
- The randomness of the draws is not modelled, only the permutation and balance facts. Uniformity is a statistical property of `Math.random`.
- Difficulty tiers and per-tier countdowns are not modelled: this source has neither.
- `lib/`, `components/`, `constants/` and the type declaration are not part of this model. They are network, Firebase, image-picker and UI code.

## Findings

| source | as written | input that shows it | evidently intended | confidence | as-written member | corrected member |
|---|---|---|---|---|---|---|
| app/index.tsx:97 | the verdict compares the unrounded `nota` with 6; the result screen and the stored last score use `nota.toFixed(1)`; the catalog card tone tests the stored score against 6 | 25 right out of 42: `nota` is 5.952…, so the verdict is fail, while the screen shows 6.0 and the catalog card shows the passed tone | the verdict, the shown grade and the card tone agree | medium, not executed | `Grading.VerdictDisagreesWithShownGrade` | `Grading.PassedAsShown` (with `Grading.PassedAsShownAgreesWithCard`) |
