# MedRead assessment session, modelled in Dafny

MedRead is a timing tool for radiology diagnoses. It shows a shuffled deck
of four scans one at a time. For each scan it records the label the reader
picks ("Normal", "Tumor" or free text), how long the answer took and the
time of day. A results page then shows the number of cases and the mean
response time. The program is a single page script run by a host that
re-runs the whole script on every user event. It keeps its state in a
per-user session store: the current page, the deck, a cursor into it, the
list of records, the start of the running timer and whether free-text
entry is open.

The project has four modules:

- `Labels` (`labels.dfy`) is pure. It models how a diagnosis label is
  normalised before it is stored: the blank test (`not choice or
  choice.strip() == ""`), the "Undisclosed" sentinel and Python's
  `str.title()`. Both string operations are modelled over ASCII. Title
  casing gets an independent specification, `IsTitled` plus `SameLetters`.
  A uniqueness lemma shows that `TitleCase` is the only string meeting that
  specification, and idempotence follows from it.
- `Assessment` (`session.dfy`) is the session store as a class
  `SessionState`. Its fields are updated in place by the three handlers
  (`GoHome`, `StartCountdown`, `RecordChoice`) and by the page runs. The
  deck is an `array` that `random.shuffle` permutes in place; it is
  modelled as a Fisher-Yates shuffle whose random draw may be any index.
  Each user event is one click method: the script run that handles the
  click plus the runs it chains through `st.rerun()`, up to the state the
  user sees next. Every click method keeps the invariant `Valid()`:
  - the number of records equals the cursor, and the cursor never passes
    the end of the deck;
  - the k-th record is about the k-th image;
  - the timer and free-text entry exist only on the session page while
    an image is showing.
  The click methods also keep `Settled()`, which describes the states the
  user sees between events.
- `Report` (`report.dfy`) is the results page summary. The mean is taken
  only over a non-empty record list, and it lies between the shortest and
  the longest response time.
- `Walkthrough` (`walkthrough.dfy`) drives a whole four-image assessment
  through the click methods. The answers are "Normal", "Tumor", "cyst"
  typed as free text, and an empty free-text answer. It shows from the
  contracts alone that the results hold the labels `Normal, Tumor, Cyst,
  Undisclosed` in deck order, four cases with a mean of 925 ms, and that
  "Start New Assessment" then clears everything.

Clock readings are parameters in whole milliseconds. The time of day
stored with each record is an opaque string parameter.

Two behaviours of the code are easy to miss, and the model follows the
code:

- The landing page has no reset action of its own. State is reset only by
  `go_home`, which the Home button and "Start New Assessment" call. The
  first run sets the state up once.
- The Home button is drawn on every page except the landing page, and that
  includes the countdown page. A click there ends the countdown early with
  a full reset (`ClickHome` from `Countdown`). So the countdown is a state
  the user can observe, not an uninterruptible step.

## Model

| member | source | states |
|---|---|---|
| Labels.TrimStart | app.py:128 | leading whitespace removed (Python's `isspace` on ASCII), the first half of `strip()`; characterised by `TrimStartSpec` |
| Labels.TrimEnd | app.py:128 | trailing whitespace removed, the second half of `strip()`; characterised by `TrimEndSpec` |
| Labels.TrimStartSpec | app.py:128 | what `TrimStart` leaves is a suffix of the answer, everything it cut off is whitespace, and the rest is empty or opens with a non-space; it is empty exactly when the answer is all whitespace |
| Labels.TrimEndSpec | app.py:128 | what `TrimEnd` leaves is a prefix of its input, everything it cut off is whitespace, and the rest is empty or closes with a non-space; it is empty exactly when the input is all whitespace |
| Labels.Strip | app.py:128 | `choice.strip()`: trailing whitespace cut from the answer with its leading whitespace cut; characterised by `StripSpec` |
| Labels.StripSpec | app.py:128 | `strip()` keeps the one piece of the answer between its leading and trailing whitespace, and that piece neither opens nor closes with whitespace |
| Labels.IsBlank | app.py:128 | the guard `not choice or choice.strip() == ""`; `BlankIffAllSpace` proves what it accepts |
| Labels.NotBlankAt | app.py:128 | an answer with any non-whitespace character, wherever it stands, passes the blank test |
| Labels.BlankIffAllSpace | app.py:128 | an answer counts as blank (empty, or empty after `strip()`) exactly when every character of it is whitespace |
| Labels.TitleFrom | app.py:142 | `str.title()` from a given position, told whether the character before was a letter; the length is kept |
| Labels.TitleCase | app.py:142 | `str.title()`: the length is kept; `TitleCaseSpec` and `TitleCaseUnique` characterise the result |
| Labels.TitleFromAt | app.py:142 | each character of the title-cased string depends only on the same character of the input and on whether the one before it is a letter |
| Labels.TitleCaseSpec | app.py:142 | `title()` changes only the case of letters, and its result is in title case: a letter is upper case exactly when it opens a word |
| Labels.TitleCaseUnique | app.py:142 | the title-cased string that differs from the input only in letter case is unique, and it is what `title()` returns |
| Labels.TitleCaseIdempotent | app.py:142 | title-casing twice gives the same as title-casing once |
| Labels.SameLettersKeepsBlank | app.py:128-142 | changing letter case never makes a non-blank answer blank or a blank one non-blank |
| Labels.UndisclosedIsStored | app.py:128-142 | the sentinel "Undisclosed" is unchanged by `title()` and is itself a non-blank, title-cased label |
| Labels.Normalize | app.py:127-142 | the stored label: the sentinel for a blank answer, otherwise the answer with only its letter case changed; always non-blank and title-cased |
| Labels.NormalizeIdempotent | app.py:142 | normalising a stored label leaves it unchanged |
| Labels.NormalizeBlank | app.py:128-129 | an empty or whitespace-only answer is stored as exactly "Undisclosed" |
| Labels.NormalizeTo | app.py:127-142 | any answer that passes the blank test, leading whitespace included, is stored as the one title-cased string with the same letters |
| Labels.NormalizeKeepsLeadingSpace | app.py:128-142 | " cyst" is stored as " Cyst": the label is title-cased but never stripped |
| Labels.NormalizeLowerTumor | app.py:142 | "tumor" is stored as "Tumor" |
| Labels.NormalizeUpperTumor | app.py:142 | "TUMOR" is stored as "Tumor" |
| Labels.NormalizeNormal | app.py:261-262 | the "Normal" button's answer is stored as "Normal" |
| Labels.NormalizeTumor | app.py:265-266 | the "Tumor" button's answer is stored as "Tumor" |
| Labels.NormalizeFixedAnswers | app.py:260-267 | the fixed answers "Normal" and "Tumor" are stored exactly as written |
| Assessment.Elapsed | app.py:131-132 | the response time: 0 with no timer (or a timer started at clock value 0, which `if start_time` treats as unset), otherwise now minus the start; never more than `now`, and never negative when the clock does not read earlier than the start |
| Assessment.ImageAt | app.py:134-138 | the image under the cursor while the cursor is inside the deck, and otherwise the "Unknown" sentinel; the id is always a deck image or the sentinel |
| Assessment.Shuffle | app.py:103 | `random.shuffle` leaves the deck a permutation of itself (same multiset of image ids) |
| Assessment.SessionState.Valid | app.py:105-149 | the invariant every click keeps: one record per answered image and the cursor within the deck; the k-th record about the k-th image; timer and free-text entry only on the session page while an image shows |
| Assessment.SessionState.constructor | app.py:92-110 | the first run: landing page, cursor 0, no records, no timer, standard input, and the deck a permutation of the four file names |
| Assessment.SessionState.GoHome | app.py:114-121 | landing page, cursor 0, no records, no timer, standard input; the same deck object reshuffled (same multiset); the invariant restored |
| Assessment.SessionState.StartCountdown | app.py:123-124 | the page becomes the countdown and nothing else changes |
| Assessment.SessionState.RecordChoice | app.py:126-149 | one record appended, about `images[index]` or "Unknown" past the end, with the normalised label, now minus the timer start (0 when no timer runs) and the time of day; cursor one on; timer cleared; standard input; page and deck unchanged |
| Assessment.SessionState.RunCountdownPage | app.py:186-194 | a countdown run ends on the session page; other pages are not touched |
| Assessment.SessionState.RunSessionPage | app.py:197-205 | on the session page with the deck used up the page turns to results; otherwise the timer starts at `now` only if none runs, and a running timer is kept |
| Assessment.SessionState.ClickHome | app.py:152-157 | from any page but the landing page, a full reset keeping the deck as a permutation; on the landing page there is no button and nothing changes |
| Assessment.SessionState.ClickInitialize | app.py:179-183 | "Initialize Session" on the landing page starts the countdown with nothing else changed |
| Assessment.SessionState.FinishCountdown | app.py:186-205 | the end of the countdown shows the first image with its timer started at `now`, or the results page at once when the deck is empty |
| Assessment.SessionState.ClickAnswer | app.py:256-267 | a fixed answer in standard mode appends the record for the showing image and moves on: the next image with a new timer, or results after the last image; the invariant is kept; the recorded time is not negative when the clock has not gone back |
| Assessment.SessionState.RecordAndRerun | app.py:247-249 | a recorded answer plus the rerun keeps the records in deck order, one per answered image |
| Assessment.SessionState.ClickOther | app.py:268-271 | "Other..." opens free-text entry on the session page and changes nothing else; the timer keeps running |
| Assessment.SessionState.SubmitCustom | app.py:231-249 | a free-text answer is recorded and normalised as a fixed one is, and the page moves on in the same way; the recorded time is not negative when the clock has not gone back |
| Assessment.SessionState.ClickCancel | app.py:251-254 | "Cancel / Back" closes free-text entry and changes nothing else: no record, the timer keeps running |
| Assessment.SessionState.ClickStartNew | app.py:304-306 | "Start New Assessment" on the results page is a full reset with the deck kept as a permutation |
| Report.Summarize | app.py:278-287 | no metrics exactly when there are no records; otherwise the case count is the number of records and the mean times the count is the total time |
| Report.TotalMsAppend | app.py:282 | one more record adds its time to the total |
| Report.TotalBounds | app.py:282 | bounds on every response time bound the total by count times bound |
| Report.QuotientBounds | app.py:282 | dividing the total by a positive count keeps a bound on it |
| Report.MeanBounds | app.py:280-282 | the mean lies between the shortest and the longest response time |
| Walkthrough.NormalizeCyst | app.py:142 | "cyst" typed as free text is stored as "Cyst" |
| Walkthrough.StartedSession | app.py:92-205 | a new session after "Initialize Session" and the countdown shows the first of four images with its timer running |
| Walkthrough.FirstTwoAnswers | app.py:260-267 | answering "Normal" then "Tumor" gives two records with those labels and their response times |
| Walkthrough.ThreeAnswers | app.py:231-271 | "cyst" typed as free text is recorded third as "Cyst", and free-text entry opens again on the fourth image |
| Walkthrough.FourCaseMean | app.py:278-282 | response times of 1000, 900, 900 and 900 ms give four cases with a mean of 925 ms |
| Walkthrough.AllFourAnswered | app.py:126-149 | an empty fourth free-text answer is stored as "Undisclosed"; the deck is used up and the results page shows four records in order |
| Walkthrough.FourImageAssessment | app.py:278-306 | the results page lists Normal, Tumor, Cyst, Undisclosed and shows four cases with a mean of 925 ms; after "Start New Assessment" there is nothing to summarise |

## Left out

- Page styling, layout, progress bar, captions and image display are not modelled. The check whether an image file exists on disk only changes what is drawn.
- The sleeps are not modelled: 0.8 s per countdown tick and 0.1 s before the timer starts. Time is a parameter, so the delay they add to `now` is whatever the caller passes.
- Floating-point seconds are not modelled. Response times are whole milliseconds (`int`), standing in for `round(duration, 3)`, and the mean is a `real` rather than a float formatted to two places.
- The time-of-day string from `datetime.now().strftime` is an opaque parameter.
- The pandas data frame, the table display and the CSV download are not modelled. `Report.Summarize` stands in for the metrics shown above the table.
- Randomness is not modelled: `random.shuffle` is modelled as any permutation. The model does not claim the new order differs from the old one or is uniformly drawn.
- Non-ASCII characters are treated as neither whitespace nor cased letters. Python's `strip()` and `title()` also handle Unicode spaces, cased letters and digraphs, and the model does not.
- The `initialized` flag is not modelled. It only guards the first-run setup, which the constructor models.
- Assessment.SessionState.ClickAnswer: the click is modelled from a state the user can see (`Settled()`). In that state the top of the script run that handles the click does nothing, so the model does not replay it.
- Assessment.SessionState.RunSessionPage: the timer starts only when none runs, as in the code. A timer start equal to clock value 0 counts as "no timer" when the duration is computed, because the code tests the start for truth. `Elapsed` models this.
- Assessment.Elapsed: a recorded response time is negative when the wall clock steps back between the timer start and the answer, as `time.time()` allows. The model proves it non-negative only for a clock that does not go back.
- Assessment.SessionState.Valid: the invariant does not state that every stored label is non-blank and title-cased. That holds for each appended record through the contract of `Labels.Normalize`.
