# interview_bot session orchestrator, in Dafny

This project models the interview flow of the interview_bot Flask
application (`app.py`):

- **Question generation** (`gen_questions`). The role code maps to a job title, with "Tech" as the default. The prompt mentions the company only when the company is not blank. The model's reply is stripped and split on newlines. A line is kept when it is non-blank and does not start with "Note". At most five lines are taken. Five fixed questions are used only when no line survives.
- **Registration** (`reg_int`). The company is stripped. Each question gets a narration URL or the marker `#`. The session stored for the user has cursor 0, five empty answer slots and no result.
- **Interview routes.** `q` shows the question under the cursor. `submit` records an answer path in the slot under the cursor. `next` and `prev` move a cursor that saturates at 0 and 4.
- **Evaluation** (`submit_all`). Answer slots are partitioned into uploaded and skipped. Questions are tagged ANSWERED or SKIPPED by their 1-based position. The request carries one attachment per answered slot. The parsed result is stored only when both the scoring call and the parse succeed. Uploads are released only after success.
- **The `results` guard.** It shows the stored result or redirects when there is none.

Modules:

- `Wrappers`: `Option` and `Result`.
- `Text`: Python's `str.strip`, `startswith` and `split("\n")`. Whitespace is the set `str.isspace` accepts.
- `Questions`: `gen_questions`.
- `Evaluation`: the upload partition, the tagging and the scoring request of `submit_all`.
- `SessionSpec`: a session as a value, with one function per route.
- `Sessions`: the classes `Session` and `SessionStore`, the in-place `SESSIONS` dictionary. Each route method is proved equal to its `SessionSpec` function, and the store's methods leave every other user's session unchanged.

The model follows what `app.py` does rather than the intended design:

- A reply with fewer than five usable lines gives a session with fewer than five questions. `q` then fails with `QuestionOutOfRange` (an `IndexError` in Python) once the cursor passes the last question, although the page always announces five questions. `SessionSpec.ShortReplyBreaksSecondQuestion` exhibits this.
- The default questions are used only when the reply has no usable line. A failing generation call fails the registration with no fallback.
- Nothing checks the number of feedback entries in the scoring result.

The whole reply is stripped before it is split. A "Note" on the first line is therefore dropped even when it is indented. On a later line, leading whitespace defeats the "Note" test, and the stripped line is kept (`Questions.LeadingNoteDropped`, `Questions.IndentedNoteKept`).

External calls are parameters of the model:

- the question-generation call, the narration (Piper TTS), the file-existence test, the upload, the scoring call and `json.loads`;
- each returns `None` where the Python call returns `None` or raises. Where the code catches the exception (narration, upload, scoring, parse), `None` is the path the code takes after catching it.
- `pdf_text` and the question-generation call raise exceptions the code does not catch, so the request ends in a server error. The model returns the errors `ExtractionFailed` and `GenerationFailed` for these, with no session stored.

## Model

| member | source | states |
|---|---|---|
| `Text.Strip` | app.py:98 | `strip()` returns a string with no whitespace at either end, no longer than its input |
| `Text.TrimLeftSuffix` | app.py:98 | left stripping keeps a suffix that does not start with whitespace and drops only whitespace |
| `Text.TrimRightPrefix` | app.py:98 | right stripping keeps a prefix that does not end with whitespace and drops only whitespace |
| `Text.StripIsSlice` | app.py:98 | the stripped text is a contiguous slice of the input with only whitespace around it; it is empty exactly when the input is all whitespace |
| `Text.StripStripped` | app.py:98 | stripping a string that has no whitespace at either end changes nothing |
| `Text.SplitLines` | app.py:98 | `split("\n")` yields at least one piece and no piece contains a newline |
| `Text.JoinSplit` | app.py:98 | joining the pieces of `split("\n")` with newlines restores the text |
| `Text.SplitJoin` | app.py:98 | splitting newline-free pieces joined by newlines restores the pieces |
| `Questions.RoleTitle` | app.py:75-79 | the title differs from "Tech" exactly for the six known role codes, and is one of their titles otherwise |
| `Questions.RoleTitles` | app.py:75-79 | each of the six role codes maps to its title; any other code, including a different capitalisation, maps to "Tech" |
| `Questions.QuestionPrompt` | app.py:79-94 | the prompt uses the role's title and the resume, and mentions the company exactly when the stripped company is non-empty |
| `Questions.Usable` | app.py:98 | the kept lines are no more than the input lines, each non-empty and stripped |
| `Questions.UsableIsKeptLines` | app.py:98 | the kept lines are exactly the stripped forms of the lines accepted by the filter, position by position |
| `Questions.KeptInOrder` | app.py:98 | the accepted lines are taken in increasing order of position, and every accepted line is taken |
| `Questions.DefaultsWellFormed` | app.py:99 | the five default questions are non-empty and stripped |
| `Questions.ReplyLines` | app.py:98 | every usable line of a reply is non-empty and stripped |
| `Questions.TakeQuestions` | app.py:99 | `qs[:5] or defaults`: between one and five questions; the defaults exactly when no line is usable, otherwise the first min(5, n) usable lines |
| `Questions.ParseQuestions` | app.py:98-99 | the parsed reply has one to five well-formed questions: the defaults when no line is usable, otherwise a prefix of the usable lines of length min(5, n) |
| `Questions.GenerateQuestions` | app.py:74-99 | generation fails exactly when the model call fails; otherwise it returns the parsed reply to the prompt for the role, resume and company |
| `Questions.EmptyReplyDefaults` | app.py:98-99 | an empty reply gives the five default questions |
| `Questions.IndentedNoteKept` | app.py:98 | an indented "Note" line after the first is kept, stripped |
| `Questions.LeadingNoteDropped` | app.py:98 | an indented "Note" on the first line is dropped, because the whole reply is stripped first |
| `Questions.SingleLineReply` | app.py:98-99 | a one-line reply gives a single question, not the defaults |
| `Evaluation.UploadsSound` | app.py:234-241 | every upload is of a sent slot (a non-empty path that exists and uploaded), carries that upload, and uploads are in increasing slot order |
| `Evaluation.UploadsComplete` | app.py:234-241 | every sent slot has an upload |
| `Evaluation.AnsweredAreSentSlots` | app.py:234-241 | the answered positions strictly increase, lie between 1 and the number of slots, and position i+1 is listed exactly when slot i was sent |
| `Evaluation.CollectUploads` | app.py:230-241 | the loop over the slots yields exactly the uploads of the sent slots and their 1-based positions |
| `Evaluation.TagQuestions` | app.py:252-254 | each question keeps its text and 1-based number and is tagged ANSWERED exactly when its number was answered |
| `Evaluation.RequestMatchesSlots` | app.py:229-283 | the scoring request keeps company, role and questions, and tags a question ANSWERED exactly when its slot was sent. It attaches one uploaded file per answered position, in order; questions beyond the five slots are SKIPPED |
| `Evaluation.Evaluate` | app.py:283-290 | scoring succeeds exactly when the model call and the JSON parse of its reply both succeed, and yields the parse |
| `Evaluation.NoUploads` | app.py:234-241 | when no slot is sent, the upload loop uploads nothing |
| `Evaluation.NothingAnswered` | app.py:246-254 | when no slot is sent (each is empty, missing on disk or failed to upload), nothing is answered, nothing attached and every question is SKIPPED |
| `SessionSpec.OrNoAudio` | app.py:182 | `u or "#"`: the marker exactly when there is no non-empty URL (or the URL is itself the marker), the URL otherwise |
| `SessionSpec.AudioRefs` | app.py:177-182 | one reference per question, each `u or "#"` of that question's narration at its position: the narration URL whenever narration returned a non-empty one, the marker when it failed |
| `SessionSpec.CompanyOrDefault` | app.py:181 | `company or "General"`: never empty, the company when given, "General" otherwise |
| `SessionSpec.Registration` | app.py:166-186 | registration fails exactly when resume extraction or question generation raises, with that error. Otherwise the session has cursor 0, five empty slots, no result and one to five generated questions. Each question's audio reference is `u or "#"` of its narration, and the company is the stripped company or "General" |
| `SessionSpec.CurrentQuestion` | app.py:188-200 | `q` succeeds exactly when the cursor is within the question list. It then shows that question and its audio, the 1-based index, the total 5, the user details and the answers |
| `SessionSpec.Finalize` | app.py:226-301 | evaluation either fails with `EvaluationFailed` or stores a result and changes nothing else |
| `SessionSpec.TransitionsKeepInv` | app.py:202-224 | `next`, `prev`, `submit` and storing a result keep five slots, a cursor in 0..4 and one audio per question, and each changes only its own field |
| `SessionSpec.FreshInv` | app.py:179-185 | a newly registered session satisfies the session invariant |
| `SessionSpec.NavigationFixedPoints` | app.py:212-224 | `next` changes nothing exactly at slot 4, `prev` exactly at slot 0 |
| `SessionSpec.NavigationInverse` | app.py:212-224 | away from the bounds `prev` undoes `next` and `next` undoes `prev` |
| `SessionSpec.NavigationSaturates` | app.py:212-224 | n calls of `next` put the cursor at min(c+n, 4), n calls of `prev` at max(c-n, 0), nothing else changes |
| `SessionSpec.TenSteps` | app.py:212-224 | ten `next` calls from slot 0 reach slot 4, and ten `prev` calls return to slot 0 |
| `SessionSpec.RecordAnswerOverwrites` | app.py:202-210 | `submit` stores the path at the cursor, leaves the other slots, and a second `submit` at the same cursor replaces the first |
| `SessionSpec.FinalizeOutcome` | app.py:283-301 | `submit_all` succeeds exactly when the scoring call and parse succeed on the request composed from the session; it then stores that parse and keeps the invariant |
| `SessionSpec.ShortReplyBreaksSecondQuestion` | app.py:188-200 | a one-line reply registers a one-question session whose first question shows, but after `next` the question lookup fails |
| `Sessions.Session.constructor` | app.py:179-185 | the stored session is the fresh one: cursor 0, five empty slots, no result |
| `Sessions.Session.Question` | app.py:188-200 | the route returns exactly `CurrentQuestion` of the session |
| `Sessions.Session.Submit` | app.py:202-210 | the slot under the cursor now holds the path, and the invariant is kept |
| `Sessions.Session.Next` | app.py:212-217 | the in-place increment guarded by `current < 4` equals `Advance` |
| `Sessions.Session.Prev` | app.py:219-224 | the in-place decrement guarded by `current > 0` equals `Retreat` |
| `Sessions.Session.SubmitAll` | app.py:226-301 | the loops compose exactly `ComposeRequest`. On success the session becomes `Finalize`'s result and the attachments are released. On failure the session is unchanged and nothing is released |
| `Sessions.SessionStore.constructor` | app.py:61 | the dictionary starts empty |
| `Sessions.SessionStore.Register` | app.py:166-186 | on success the user's entry is a fresh session equal to `Registration`'s, with no result, and every other user's entry is kept. On failure the dictionary is unchanged |
| `Sessions.SessionStore.Question` | app.py:188-200 | no session gives `NoSession`; otherwise the route's answer is `CurrentQuestion` of the user's session |
| `Sessions.SessionStore.Submit` | app.py:202-210 | no session gives `NoSession`; otherwise the user's session records the answer and every other session is unchanged |
| `Sessions.SessionStore.Next` | app.py:212-217 | no session gives `NoSession`; otherwise the user's cursor advances and every other session is unchanged |
| `Sessions.SessionStore.Prev` | app.py:219-224 | no session gives `NoSession`; otherwise the user's cursor retreats and every other session is unchanged |
| `Sessions.SessionStore.SubmitAll` | app.py:226-301 | no session gives `NoSession`. Otherwise success matches `Finalize` and makes the result visible to `results`. Failure leaves the session and the visible result unchanged. Every other session is unchanged |
| `Sessions.SessionStore.Results` | app.py:157-163 | a result is shown exactly when the user has a session with a stored result, and it is that result |

## Left out

- Flask routing, login and the SQLite user store (`init_db`, `login`, `signup`, `logout`, `load_user`): authentication only decides which user id is current, which is a parameter here.
- The pages `dashboard`, `register_interview_page`, `interview` and the static `audio` route: they render templates or serve files and change no session state.
- `pdf_text` (PyPDF2): the extracted resume text is a parameter, `None` when extraction raises.
- `speak` (Piper TTS) and the WAV file names built from the user id and `time.time()`: narration is a parameter returning the URL or `None`.
- Saving the uploaded resume and answer recordings to disk: `submit` receives the path it would store.
- The Gemini calls (`generate_content`, `upload_file`, `delete_file`) and `json.loads`: they are parameters returning `None` where the Python call raises or returns nothing; `delete_file` failures are ignored by the source, so the model only reports which uploads are released.
- Questions.QuestionPrompt: the prompt is modelled by what it depends on (role title, resume, company when given), not by its wording.
- Evaluation.ComposeRequest: the scoring prompt's wording, its `answered_questions or "NONE"` rendering and the generation settings are not modelled; the request records the answered positions, the tagged questions and the attachments.
- JSON values are modelled with integer numbers only; floating-point scores are not represented.
- Concurrent requests on the shared `SESSIONS` dictionary: each route is modelled as one atomic step.
