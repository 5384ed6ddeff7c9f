# Vokabeltrainer: a verified model of the drilling logic

The Vokabeltrainer is a Streamlit page (`app.py`) for drilling German–English
vocabulary kept in a spreadsheet with the columns Kategorie, Deutsch, Englisch,
Richtig and Falsch. Beneath its widgets sits a small block of session logic, and
this project models that logic in Dafny and proves properties of it:

- **Grading** (`grading.dfy`, module `Grading`): an answer is correct when
  `answer.strip().lower() == str(expected).strip().lower()`. `Strip` and
  `Lower` follow Python's `str.strip`/`str.lower` on U+0000..U+00FF. The
  lemmas show that grading ignores case and surrounding whitespace on both
  sides, and that stripping and lower-casing commute.
- **Sheet and statistics** (`vocabulary.dfy`, `statistics.dfy`): the sheet is
  an `array<Row>` with `Option` cells (an empty cell is `None`). An answer in
  training mode goes to the first row whose Deutsch and Kategorie match
  (`FindFirst`, a scan). That row's Richtig or Falsch counter is raised by
  one in place, and an empty counter counts as 0 (`RecordAnswer`). The
  method is proved against the function `WithAnswer`, and `AnswerCountedOnce`
  proves that exactly one answer is added to the table when the word is found
  and none otherwise.
- **Test mode** (`test_mode.dfy`, class `TestSession`): the session fields
  `test_aktiv`, `test_vokabeln`, `test_kategorien`, `test_index`,
  `test_ergebnisse` and `test_abgeschlossen`, plus the `User_Eingabe` column
  of the sample. They are changed by start, submit, reset and "new test".
  `Valid()` holds these invariants:
  - `|results| == position <= |sample| <= 25`;
  - every sampled row is in a selected category and has Deutsch and Englisch;
  - every recorded result is the grade of the answer typed for that question.
- **Training mode** (`training.dfy`, class `Trainer`): `frage_index`, the
  last-answer flags, and `abgefragt_kategorie`, a map from category to the
  set of indices already moved past. The index is drawn from `[0, n)` or
  clamped to 0. Every asked set stays inside its category, so progress, an
  integer pair `(asked, total)`, has `asked <= total`, with equality exactly
  when every word was asked.

Random draws are parameters of the model. `random.randint` becomes a `draw`
argument with `draw < n`. The seeded `DataFrame.sample` becomes a `pick`
argument: a list of distinct positions into the eligible pool.

### Where the code differs from what one might expect

The model follows the code:

- The quiz size is `min(25, len(df))` over the whole sheet, not over the
  rows the selected categories offer (app.py:43). When the pool is smaller,
  pandas refuses to sample. `TestSession.Start` then returns `false` and
  leaves the session unchanged. `SampleTooLargeScenario` shows such a
  selection.
- `test_abgeschlossen` is set only when `test_index` reaches 25
  (app.py:83-84). A shorter quiz ends (the summary is shown) without the flag
  ever being set. `ShortTestScenario` shows this.
- One might expect an answered word to accept no further answers until
  "Nächste Vokabel". `antwort_pruefen` has no such guard (app.py:199-213). It
  is the text field's `on_change` callback (app.py:222-226), so it runs
  whenever the typed text changes. Each changed answer to the same word is
  graded and counted again. `RepeatedCheckScenario` shows that two different
  answers add two answers to the word. Retyping the identical text does not
  fire the callback; that is Streamlit's widget behaviour and is not modelled.
- One might expect duplicate (Deutsch, Kategorie) rows to keep separate
  statistics. Answers on the second row are counted on the first
  (`DuplicateWordScenario`).
- One might expect "Test zurücksetzen" to clear the typed answers. The code
  keeps `test_vokabeln` and its `User_Eingabe` column (app.py:56-60), so
  `Reset` keeps `answers`.

## Model

| member | source | states |
|---|---|---|
| `Grading.LowerChar` | app.py:79 | lower-casing a character leaves no upper-case letter and keeps whitespace whitespace |
| `Grading.TrimStartShape` | app.py:79 | `lstrip` removes exactly a whitespace prefix: the result is a suffix of the input, everything cut is whitespace, and the result is empty or starts with a non-space |
| `Grading.TrimEndShape` | app.py:79 | `rstrip` removes exactly a whitespace suffix, symmetrically |
| `Grading.StripSplit` | app.py:79 | every text is whitespace + its stripped form + whitespace, and the stripped form neither starts nor ends with whitespace |
| `Grading.StripEmpty` | app.py:79 | stripping gives the empty text exactly when the text is all whitespace |
| `Grading.StripPadded` | app.py:79 | stripping a bare text padded with whitespace gives back that text, so the decomposition is unique |
| `Grading.StripIgnoresPadding` | app.py:79 | adding whitespace around a text does not change its stripped form |
| `Grading.StripLower` | app.py:195 | `s.lower().strip() == s.strip().lower()` |
| `Grading.NormalizeIgnoresCase` | app.py:200 | texts that lower-case alike normalise alike |
| `Grading.GradingIgnoresPadding` | app.py:200-202 | the grade is unchanged by whitespace around the answer or around the expected text |
| `Grading.GradingIgnoresCase` | app.py:79 | the grade is unchanged by the case of the answer or of the expected text |
| `Grading.AcceptsPaddedCapitalised` | app.py:79 | " Apple " is accepted for "apple" |
| `Grading.RejectsExtraCharacter` | app.py:79 | "apple" is rejected for "Apple!" |
| `Grading.AcceptsNanForEmptyCell` | app.py:195 | an empty Englisch cell reads as "nan", which the answer "NaN" matches |
| `Vocabulary.CategoryRows` | app.py:135 | every row of a category is a sheet row with that Kategorie, every such sheet row is among them, and there are no more of them than sheet rows |
| `Vocabulary.CategoryRowsConcat` | app.py:135 | the filter keeps sheet order: filtering a sheet cut in two gives the first part's rows followed by the second's |
| `Vocabulary.CategoryRowsSingle` | app.py:135 | a single row is kept exactly when its Kategorie is the category |
| `Vocabulary.CategoryRowsCounts` | app.py:135 | each row appears in the category as often as in the sheet if its Kategorie matches, and not at all otherwise |
| `Vocabulary.SameCategoriesSameSize` | app.py:135 | sheets that agree on Kategorie have categories of equal size |
| `Statistics.FirstMatch` | app.py:204-206 | the result is the least position whose Deutsch and Kategorie match (an empty cell matches nothing), or none when no row matches |
| `Statistics.FindFirst` | app.py:204-206 | the scan over the sheet returns exactly `FirstMatch` |
| `Statistics.Bumped` | app.py:208-210 | a raised counter is present and one more than the old one, with an empty cell counting as 0 |
| `Statistics.Recorded` | app.py:207-210 | a correct answer raises Richtig by one and leaves Falsch; a wrong one the reverse; the word's other cells are kept |
| `Statistics.WithAnswer` | app.py:204-210 | the first matching row becomes `Recorded(row, correct)` (Richtig raised for a correct answer, Falsch for a wrong one); every other row is unchanged; with no match nothing changes; no counter decreases and no key cell changes |
| `Statistics.RecordAnswer` | app.py:204-210 | the sheet after the in-place update is `WithAnswer` of the sheet before |
| `Statistics.AnswerCountedOnce` | app.py:204-210 | the sheet's total number of recorded answers grows by one when the word is found and by none otherwise |
| `Statistics.EmptyWordNotRecorded` | app.py:204 | a word with an empty Deutsch cell is never found, so the sheet is unchanged |
| `TestMode.SampleSize` | app.py:43 | the quiz size is 25 or the sheet's size, whichever is smaller |
| `TestMode.PoolFrom` | app.py:40-42 | the pool is the strictly increasing list of exactly the positions of rows in a selected category with both Deutsch and Englisch |
| `TestMode.SamplePositions` | app.py:43-44 | a draw of distinct pool indices yields distinct sheet positions, all of eligible rows |
| `TestMode.CountTrue` | app.py:88 | the number of correct results is at most the number of results |
| `TestMode.CountTrueIsMultiplicity` | app.py:88-89 | `sum(results)` is the number of `true`s and `len - sum` the number of `false`s |
| `TestMode.Summary` | app.py:88-89 | richtig counts the true results, falsch the false ones, and together they are the number of results |
| `TestMode.TestSession.constructor` | app.py:20-31 | the initial session: no test, no sample, index 0, no results, not completed |
| `TestMode.TestSession.Start` | app.py:39-51 | succeeds exactly when the pool holds `SampleSize` rows; then the sample is the drawn rows, the categories are kept, and the index, results and flag are reset; otherwise nothing changes |
| `TestMode.TestSession.Submit` | app.py:78-85 | appends exactly the grade of the answer, records the answer, raises the index by one and sets the flag once the index reaches 25; the invariants are kept |
| `TestMode.TestSession.Reset` | app.py:56-60 | keeps the sample, categories and typed answers, and zeroes the index, results and flag |
| `TestMode.TestSession.NewTest` | app.py:62-69 | clears the sample, the categories, the index, the results and the flag, and ends the test |
| `TestMode.TestSession.Finished` | app.py:73 | the summary view is shown whenever the completion flag is set |
| `TestMode.TestSession.Details` | app.py:106-124 | one line per answered question; line `i` shows question `i`'s Deutsch and Englisch and the answer typed for it, and its verdict is the recorded result and the grade of that answer |
| `TestMode.SessionBounds` | app.py:73-84 | results never outnumber the sample, and the completion flag implies 25 answered questions |
| `TestMode.ShortTestScenario` | app.py:83-87 | a one-question quiz is finished after one answer, but its completion flag stays false |
| `TestMode.SampleTooLargeScenario` | app.py:43 | a selection offering fewer rows than `min(25, len(df))` cannot start a test |
| `Training.AllIndices` | app.py:179 | every index of a category of `n` words is below `n` |
| `Training.AllIndicesSize` | app.py:179 | a category of `n` words has `n` indices |
| `Training.AskedBound` | app.py:177-180 | an asked set inside `[0, n)` has at most `n` members, and exactly `n` only when it holds every index |
| `Training.AllWithinKept` | app.py:204-210 | counting answers keeps every asked set inside its category |
| `Training.Trainer.constructor` | app.py:157-172 | the first index is the draw from `[0, n)`; no answer yet; no asked sets |
| `Training.Trainer.Enter` | app.py:174-175 | a new category gets an empty asked set and existing sets are kept |
| `Training.Trainer.Progress` | app.py:177-184 | progress is `(asked, total)` with `asked <= total`, and `asked == total` exactly when every word was asked |
| `Training.Trainer.ResetProgress` | app.py:186-188 | only the chosen category's set is emptied; the index and the sheet are untouched |
| `Training.Trainer.Clamp` | app.py:191-192 | an index already inside the category is kept, and one outside it is set to 0 |
| `Training.Trainer.CheckAnswer` | app.py:199-213 | records the grade of the answer against the current word and counts it on the sheet by `WithAnswer`; asked sets stay inside their categories |
| `Training.Trainer.Next` | app.py:229-236 | adds the current index to the category's set (one member at most), takes the new draw, and clears the answer state |
| `Training.RepeatedCheckScenario` | app.py:199-213 | two different answers typed for the same word count two answers |
| `Training.DuplicateWordScenario` | app.py:204-206 | with two rows for one word, the answer is counted on the first |

## Left out

- Rendering and widgets: `st.rerun`, buttons, text inputs, the "Frage x/25"
  and "Ergebnis: x/25" texts, and the input-clearing flag `reset_antwort`
  (app.py:171-172, 217-219). These are presentation only.
- Reading and writing the spreadsheet (`pd.read_excel`, app.py:14;
  `df.to_excel`, app.py:211). The sheet is an in-memory array. The re-read
  on every page run is not modelled; it gives back what the previous run
  wrote.
- gTTS audio (app.py:149-154), the pie charts (app.py:92-104, 274-288), and
  the example sentences DE_1..EN_3 (app.py:248-261). These are foreign
  libraries and presentation.
- `wechsel_timer` (`time.time()`, app.py:213) and `runde` (app.py:165-166).
  Both are written and never read.
- The random generators (`random.randint`, the seeded `DataFrame.sample`).
  They are replaced by caller-supplied draws that satisfy the range and
  distinctness conditions.
- The float progress value (app.py:180). It is the integer pair
  `(asked, total)`.
- Python's full Unicode `str.strip`/`str.lower`. Whitespace and case are
  modelled on U+0000..U+00FF only; `Grading.IsSpace` and `Grading.IsUpper`
  list the characters.
- Non-text Englisch cells. `str()` of a number is not modelled: an Englisch
  cell is text or empty (`"nan"`).
- `zeige_englisch` is modelled as the field `showTranslation`. The code only
  ever sets it to false, so no operation sets it to true.
- Streamlit runs the `on_change` callback with the globals of the previous
  page run. The model grades against the word currently shown.
- Training methods are called with the category the page shows. The page
  stops on an empty category (app.py:137-139), so `Trainer`'s methods
  require a non-empty category where the code indexes into it.
