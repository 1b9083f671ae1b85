# Number sequencer timer — a Dafny model

The application is a small React front end for timed number-reading projects.
A project holds a comma-separated list of numbers, a gap in seconds and a saved
position. The number slider shows the numbers one at a time in a five-cell
window. It announces each one through the browser's speech engine, counts down
the remaining seconds, and can be paused with a note that is saved to the
project. An older setup form tokenizes a typed list and plays it with a
start/pause/resume button. Around these sit two client-side stores (the
signed-in user, the active project) and two paginated project lists (the
user's own and the admin table) with status badges.

The model is written in Dafny:

- `strings.dfy` holds the JavaScript string operations the pages use:
  `split` on one character, `trim` with the ECMAScript whitespace set,
  non-negative `toString` and `padStart`.
- `sequencer.dfy` holds the two ways the pages step through a list. A firing
  either moves one place and announces a value, or stops. It also holds the
  pause/resume finding below.
- `number_slider.dfy` models `src/pages/Demo.jsx`:
  - the pure updaters and the window are functions;
  - `getRenderArray` is a method with a loop;
  - the component state is the class `Slider`. Its events are the countdown
    tick, the slider advance, the page click, the note dialog's typing and its
    Cancel and Save buttons.
  - Speech calls and the project updates sent are logs that the methods
    append to.
- `setup_timer.dfy` models `src/pages/Timer.jsx`:
  - the tokenizer is a set of functions;
  - the form is the class `SetupForm`. The interval that is armed is part of
    its state, with the list it closed over.
- `stores.dfy` models the two zustand stores. A record is a map from field
  names to values, and `None` stands for `null`.
- `project_status.dfy` models the status switches and the labels of the two
  list pages.
- `project_list.dfy` models the page, search, load and selection state of
  the two list pages. Its `hideSinglePage` flag marks the user's list, which
  draws the pager only when there are several pages. The admin table keeps no
  project total (src/pages/ProjectManagement.jsx:11-17, 33 store only the page
  count). The model's shared state carries a `total` for both pages, and on
  the admin table nothing reads it.

## Model

| member | source | states |
|---|---|---|
| `Strings.Split` | src/pages/Timer.jsx:79 | `split(",")` always yields at least one piece, and no piece contains the separator |
| `Strings.JoinSplit` | src/pages/Demo.jsx:11 | joining the pieces of a split with the separator gives the original text back |
| `Strings.SplitJoin` | src/pages/Timer.jsx:78-79 | splitting a join of separator-free pieces gives those pieces back |
| `Strings.SplitLength` | src/pages/Demo.jsx:20 | a split has one more piece than the text has separators |
| `Strings.Trim` | src/pages/Timer.jsx:80 | `trim()` yields the contiguous part of the text between its leading and trailing whitespace, with no whitespace at either end; it is empty exactly when the text is all whitespace |
| `Strings.TrimOfTrimmed` | src/pages/Timer.jsx:80 | trimming a text with no outer whitespace changes nothing |
| `Strings.TrimKeepsCharacters` | src/pages/Timer.jsx:80 | trimming introduces no character that was not in the text (so trimmed pieces of a comma split are comma-free) |
| `Strings.Decimal` | src/pages/Demo.jsx:234 | `toString()` of a non-negative integer is a non-empty digit string with no leading zero except for 0 itself |
| `Strings.DecimalValue` | src/pages/Demo.jsx:234 | reading the decimal text back gives the number |
| `Strings.PadStart` | src/pages/Demo.jsx:234 | `padStart(w, c)` has length max(len, w), ends with the text and is filled with `c` before it |
| `Sequencer.Fire` | src/pages/Timer.jsx:33-41 | one firing stops exactly when the position (plus one when it advances first) reaches the length; otherwise it moves to the next position, never past the length, and announces the value at the old position (announce first, as in Timer.jsx) or at the new one (advance first, as in src/pages/Demo.jsx:130-145) |
| `Sequencer.RunResumes` | src/pages/Demo.jsx:129-146 | stopping an interval that has not finished and re-arming it with the same stepping loses and repeats nothing |
| `Sequencer.AnnounceThenAdvanceRun` | src/pages/Timer.jsx:33-42 | the start loop announces `finalNum[i..]` in order, reaches the length after len − i firings, then stops there; the index never passes the length |
| `Sequencer.AdvanceThenAnnounceRun` | src/pages/Demo.jsx:130-145 | the advance-then-announce updater announces the values after the position in order and stops at the last position; from a position at or past the end it stops at once and announces nothing |
| `Sequencer.PauseResumeSkipsOne` | src/pages/Timer.jsx:54-64 | as written, pausing the start loop after k numbers and resuming announces every number except `finalNum[k]` |
| `Sequencer.PauseResumeSkipsFirst` | src/pages/Timer.jsx:55-63 | as written, the list 1,2,3 paused before the first announcement and then resumed is announced as 2,3 |
| `Sequencer.PauseResumeAnnouncesAll` | src/pages/Timer.jsx:32-43 | corrected: resuming with the start loop's stepping announces every number exactly once, in order, and stops at the length |
| `NumberSlider.InitialTimeLeft` | src/pages/Demo.jsx:19-21 | the starting countdown is never negative from a position inside the list, and with a positive gap it is positive exactly when the position is before the end |
| `NumberSlider.Cell` | src/pages/Demo.jsx:90-91 | a cell inside the list is the value there; a non-empty cell always comes from inside the list |
| `NumberSlider.TickDown` | src/pages/Demo.jsx:120-126 | one tick never goes below 0, reaches 0 exactly from 1 or less, and otherwise counts down by one |
| `NumberSlider.Clock` | src/pages/Demo.jsx:232-243 | the display reads "Complete!" exactly when no time is left, and otherwise has the `:` of `m:ss` |
| `NumberSlider.GridTile` | src/pages/Demo.jsx:301-306 | a grid number is current exactly at the index, done exactly before it, upcoming exactly after it |
| `NumberSlider.Values` | src/pages/Demo.jsx:11 | no values without a list; otherwise one value per comma-separated piece (commas + 1), and the values rejoin to the list text |
| `NumberSlider.Window` | src/pages/Demo.jsx:87-94 | the render window always has exactly five cells |
| `NumberSlider.WindowAround` | src/pages/Demo.jsx:96-101 | the centre cell is the current value; the outer cells are blank past either end of the list |
| `NumberSlider.WindowSlides` | src/pages/Demo.jsx:142 | moving to the next index slides the window left by one cell |
| `NumberSlider.GetRenderArray` | src/pages/Demo.jsx:87-94 | the loop builds exactly the window: cell k is `num[index + k − 2]`, or "" when that index is outside the list |
| `NumberSlider.CountdownAfter` | src/pages/Demo.jsx:120-126 | after n ≥ 1 ticks the countdown is max(timeLeft − n, 0): it is never negative and stays at 0 |
| `NumberSlider.ClockReadsBack` | src/pages/Demo.jsx:232-235 | for time left, the display is `m:ss`; its seconds field is exactly two digits below 60, and minutes × 60 + seconds is the remaining time |
| `NumberSlider.GridCounts` | src/pages/Demo.jsx:298-307 | the preview grid shows `currentIndex` values as done, one current value while the index is inside the list, and the rest upcoming |
| `NumberSlider.CancelThenSpeakAppend` | src/pages/Demo.jsx:78-85 | each announcement cancels the current utterance and then speaks, so the speech log stays a series of cancel-then-speak pairs |
| `NumberSlider.MountAnnounces` | src/pages/Demo.jsx:99-103 | the mount effect announces the starting value exactly when its cell is not empty, and the log is then well-formed |
| `NumberSlider.AdvanceAnnounces` | src/pages/Demo.jsx:142-143 | an advance to the next index adds exactly that value to the values announced since the start |
| `NumberSlider.Slider.constructor` | src/pages/Demo.jsx:11-25 | mounting sets the values, the gap (default 2), the saved position, `timeLeft = (count − start) × gap` and both intervals armed; the first value is announced if non-empty; completion is reported at once if `timeLeft ≤ 0` |
| `NumberSlider.Slider.Tick` | src/pages/Demo.jsx:114-127 | a tick (only while armed) sets `timeLeft` to `TickDown` of it and disarms at ≤ 1; completion (position 0, "Task was completed!") is sent when `timeLeft` changes to ≤ 0; the position is untouched; the invariant keeps the countdown non-negative after its first tick |
| `NumberSlider.Slider.Advance` | src/pages/Demo.jsx:129-146 | an advance (only while armed) moves to `prev + 1`, re-renders the window and cancels then speaks `num[prev + 1]`; at the last value it disarms, keeps the index and sets `currentState` to 0; the invariant keeps the index inside the list, or at a saved position at or past its end (which the advance then keeps), and the speech log equal to every value from the start to the current one |
| `NumberSlider.Slider.TogglePause` | src/pages/Demo.jsx:154-165 | a page click pauses (both intervals disarmed, note dialog opened) or resumes (both re-armed); while the dialog is open it changes nothing; position and countdown never change |
| `NumberSlider.Slider.EditNote` | src/pages/Demo.jsx:263-264 | typing in the open dialog replaces the note and nothing else |
| `NumberSlider.Slider.CancelNote` | src/pages/Demo.jsx:268-274 | Cancel resumes, re-arms both intervals, closes the dialog and clears the note |
| `NumberSlider.Slider.SaveNote` | src/pages/Demo.jsx:27-47 | Save sends the current index with the note, closes the dialog and clears the note, and leaves the slider paused |
| `SetupTimer.TrimAndDrop` | src/pages/Timer.jsx:80-81 | trimming pieces and dropping blanks keeps at most as many pieces, each non-empty and trimmed, and comma-free when the pieces were |
| `SetupTimer.TrimAndDropKeepsTokens` | src/pages/Timer.jsx:80-81 | a list that is already tokens passes through unchanged |
| `SetupTimer.Tokenize` | src/pages/Timer.jsx:78-82 | every token is non-empty, trimmed and comma-free, and there are at most commas + 1 of them |
| `SetupTimer.TokenizeJoin` | src/pages/Timer.jsx:78-82 | tokenizing a list of tokens joined by bare commas gives that list back |
| `SetupTimer.TrimAndDropAppend` | src/pages/Timer.jsx:80-81 | trimming and dropping works piece by piece: the tokens of two lists of pieces, concatenated, are the tokens of the concatenated list |
| `SetupTimer.TrimAndDropPiece` | src/pages/Timer.jsx:80-81 | one piece yields its trim, or nothing when the trim is empty |
| `SetupTimer.TokenizePieces` | src/pages/Timer.jsx:78-82 | tokenizing comma-free pieces joined by commas, each padded or blank, gives exactly the trims of the non-blank pieces in order |
| `SetupTimer.TrimAndDropTrimsEach` | src/pages/Timer.jsx:80-81 | with no blank piece, there is one token per piece and token i is the trim of piece i |
| `SetupTimer.TokenizePaddedList` | src/pages/Timer.jsx:78-82 | numbers written with commas and any whitespace around them tokenize to the numbers themselves, one for one, in order |
| `SetupTimer.BlankPiecesDropped` | src/pages/Timer.jsx:81 | pieces that are all whitespace yield no tokens |
| `SetupTimer.Accepts` | src/pages/Timer.jsx:83 | an accepted form has a non-empty name and at least two commas in its list, and its tokens are all non-empty, trimmed and comma-free |
| `SetupTimer.SetupForm.constructor` | src/pages/Timer.jsx:6-10 | the form starts with no numbers, not running, not paused, at index 0 |
| `SetupTimer.SetupForm.Submit` | src/pages/Timer.jsx:76-88 | accepts exactly when the trimmed name is non-empty and there are at least 3 tokens; accepted sets `finalNum` to the tokens, rejected alerts and leaves `finalNum` unchanged |
| `SetupTimer.SetupForm.Start` | src/pages/Timer.jsx:25-44 | a no-op without numbers or while running; otherwise running, unpaused, index 0, with the start loop armed over `finalNum` |
| `SetupTimer.SetupForm.PauseResume` | src/pages/Timer.jsx:48-72 | a no-op unless running; pausing disarms the loop and cancels speech; resuming arms the resume loop |
| `SetupTimer.SetupForm.Tick` | src/pages/Timer.jsx:32-65 | the armed loop either announces and moves, or disarms and stops running with the index kept; under the start loop the invariant keeps index ≤ length and the speech of the run equal to `values[..index]`, where `values` is the list the armed interval closed over (which is `finalNum` unless the form was submitted again during the run) |
| `UserStore.Merge` | src/reducer/useUserStore.js:13 | the spread merge has the keys of both records; a key of the update takes the update's value, and any other key keeps its previous value |
| `UserStore.MergeIntoNull` | src/reducer/useUserStore.js:13 | merging into a `null` user gives exactly the update |
| `UserStore.MergeTwice` | src/reducer/useUserStore.js:11-14 | applying the same update twice is applying it once |
| `UserStore.MergeNothing` | src/reducer/useUserStore.js:11-14 | an empty update leaves a signed-in user unchanged |
| `UserStore.Store.constructor` | src/reducer/useUserStore.js:7 | the user starts as `null` |
| `UserStore.Store.SetUser` | src/reducer/useUserStore.js:9 | the user becomes exactly the given value |
| `UserStore.Store.UpdateUser` | src/reducer/useUserStore.js:11-14 | the user becomes the merge of the old user and the update: updated keys take the new values, other keys keep theirs |
| `UserStore.Store.Logout` | src/reducer/useUserStore.js:16 | the user becomes `null` from any state, so a second logout changes nothing |
| `ProjectStore.Store.constructor` | src/reducer/useProjectStore.js:7 | the active project starts as `null` |
| `ProjectStore.Store.SetActiveProject` | src/reducer/useProjectStore.js:8 | the active project becomes exactly the given one; no field of the previous project survives unless the new one has it, so the last write wins |
| `UserDashboard.StatusColor` | src/pages/UserDashboard.jsx:45-58 | the gray classes exactly for a status outside the four |
| `UserDashboard.StatusText` | src/pages/UserDashboard.jsx:60-73 | any other status is shown unchanged; each of the four gets a label that differs from it and is not itself a status |
| `UserDashboard.StatusesDistinguished` | src/pages/UserDashboard.jsx:45-73 | two different statuses get different badge classes and different labels |
| `UserDashboard.ProgressDenominator` | src/pages/UserDashboard.jsx:193 | the progress denominator is commas + 1, so it is never 0 |
| `UserDashboard.TotalLabel` | src/pages/UserDashboard.jsx:108 | the total line starts with "Total: " and ends in "s" exactly when the total is not 1 |
| `UserDashboard.TotalLabelPlural` | src/pages/UserDashboard.jsx:108 | the total label ends in "s" exactly when the total is not 1, and carries the total in decimal |
| `ProjectManagement.StatusColor` | src/pages/ProjectManagement.jsx:70-83 | the gray classes exactly for a status outside the four |
| `ProjectManagement.SameColoursAsDashboard` | src/pages/ProjectManagement.jsx:70-83 | the admin table colours every status exactly as the user's list does |
| `ProjectManagement.StatusOptionsMatchStatuses` | src/pages/ProjectManagement.jsx:197-200 | the selector offers exactly the four statuses, in order, each with the label the user's list gives it |
| `ProjectList.Click` | src/pages/UserDashboard.jsx:231-244 | a click keeps a page that is in range in range, moves by at most one page in its direction, and leaves the page unchanged exactly when that button is disabled |
| `ProjectList.ClicksStayInRange` | src/pages/UserDashboard.jsx:231-244 | from a page in 1..totalPages, no series of Previous/Next clicks on the guarded buttons leaves that range |
| `ProjectList.NextReachesLastPage` | src/pages/ProjectManagement.jsx:232-235 | enough Next clicks reach the last page and stay there |
| `ProjectList.ListState.Pagination` | src/pages/UserDashboard.jsx:228-247 | the pager is drawn under a loaded, non-empty list, and on the user's list only when totalPages > 1; Previous is disabled exactly on page 1, Next exactly on the last page, which are exactly the pages where a click on that button would not move |
| `ProjectList.ListState.PagerWithinRange` | src/pages/UserDashboard.jsx:231-244 | on a page within the page count, Previous is enabled exactly when there is an earlier page and Next exactly when there is a later one, so an enabled button never leaves 1..totalPages; over a single page both are disabled |
| `ProjectList.ListState.constructor` | src/pages/UserDashboard.jsx:13-20 | empty search, page 1 of 1, no projects, nothing selected, dialog closed |
| `ProjectList.ListState.EditSearch` | src/pages/UserDashboard.jsx:122-125 | editing the search sets the text and resets the page to 1; nothing else changes |
| `ProjectList.ListState.PreviousPage` | src/pages/ProjectManagement.jsx:222-224 | only a drawn, enabled Previous button goes back one page: the new page is `Click` of the old one when the pager is drawn, so a page within 1..totalPages stays within it; nothing else changes |
| `ProjectList.ListState.NextPage` | src/pages/UserDashboard.jsx:241-243 | only a drawn, enabled Next button goes forward one page: the new page is `Click` of the old one when the pager is drawn, so a page within 1..totalPages stays within it; nothing else changes |
| `ProjectList.ListState.LoadStarted` | src/pages/UserDashboard.jsx:23 | a request in flight shows the loading state |
| `ProjectList.ListState.Loaded` | src/pages/UserDashboard.jsx:34-36 | a successful load replaces the projects, the page count and the total, and ends loading |
| `ProjectList.ListState.LoadFailed` | src/pages/UserDashboard.jsx:37-42 | a failed load keeps the previous list and ends loading |
| `ProjectList.ListState.OpenDetails` | src/pages/UserDashboard.jsx:75-78 | opening selects the project and shows the dialog, which is then drawn |
| `ProjectList.ListState.CloseDetails` | src/pages/ProjectManagement.jsx:65-68 | closing clears the selection and hides the dialog, which is then not drawn |

## Left out

- HTTP: the project list requests, the status change PATCH with its reload, and the project PATCH of Save Note and of completion. The model keeps only the bodies sent (`ProgressUpdate`) and the outcome of a list load (`Loaded`/`LoadFailed`). Error toasts are left out.
- The locale-formatted pause time sent with each project update is left out. It is a clock read.
- The speech engine is a log of `Speak`/`CancelSpeech` calls. The check for an engine that is missing is not modelled; the engine is taken to be present.
- Time: both intervals are events that fire only while armed. Their periods (one second and `gap` seconds) and their interleaving are not modelled, and no relation between the countdown and the position is stated, because the two intervals are independent.
- React's batching and re-rendering are not modelled; each handler's state updates are applied in order.
- `parseInt` of the gap and of the saved position is taken as a given natural. `NaN`, a non-numeric gap and the falsy `0` gap (which falls back to 2) are not modelled.
- `Number(...)` on the tokens of the setup form is not modelled: tokens stay as strings.
- Emoji and decoration around the time display: only `m:ss` and "Complete!" are modelled.
- The interval length of the setup form (`intervalSec`) only sets the timing, so it is not modelled.
- Browser form validation: the setup form's inputs carry the HTML `required` attribute (src/pages/Timer.jsx:102-122), which the browser checks before submitting. It is not modelled, so `SetupTimer.SetupForm.Submit` also covers submissions the browser would block, and these take the alert path.
- zustand's `persist` to localStorage is I/O and is not modelled.
- Routing: the redirects to the login page, the back buttons and "Go to Project" are not modelled. "Go to Project" closes the dialog and navigates; its store write is `ProjectStore.Store.SetActiveProject`.
- src/App.jsx, src/pages/Landing.jsx, src/components/SideBar.jsx, src/pages/Login.jsx, src/pages/SignUp.jsx, src/pages/UserList.jsx and src/pages/ProjectForm.jsx are routing, markup or form I/O, and are not part of this model.
- NumberSlider.Slider.SaveNote: Save is one atomic step. The source closes the dialog and clears the note only after the awaited PATCH has finished, whatever its outcome (src/pages/Demo.jsx:33-46). A second Save, or typing in the dialog while the request is in flight, is not modelled.
- Pausing the slider does not save a checkpoint. Only Save Note sends the position. The model follows the code on this.
- `ProjectStore.Store.SetActiveProject` and the user store work on whole records. Nested objects inside a record are opaque values, and the spread merge is shallow, as in the source.

## Findings

| source | as written | input that shows it | evidently intended | confidence | as-written member | corrected member |
|---|---|---|---|---|---|---|
| src/pages/Timer.jsx:54-64 | The start loop announces `finalNum[i]` and then moves to `i + 1`, so its index counts the numbers already announced. The resume loop moves to `i + 1` and announces `finalNum[i + 1]`, so after a pause `finalNum[i]` is never announced. | `finalNum = [1, 2, 3]`, Start, Pause before the first firing, Resume: only 2 and 3 are spoken | resuming continues with the next unannounced number, so every number is announced once | not executed | `Sequencer.PauseResumeSkipsOne` | `Sequencer.PauseResumeAnnouncesAll` |

`SetupTimer.SetupForm` keeps the behaviour as written, since that is what the page does. The corrected stepping is the start loop's own stepping, and `Sequencer.PauseResumeAnnouncesAll` proves that resuming with it announces every number exactly once.
