# Med-Flash AI: leveling, account and deck store, exam navigation

Med-Flash AI is a study-flashcard web app for medical students. Users sign up, upload study
material, have a generative model turn it into multiple-choice decks, study the decks as exams
and climb a five-rank ladder ("Nivel 1 (Novato)" up to "Nivel 5 (Especialista)") by passing them.
This project models, in Dafny, the part of `main_medflash.py` that is bookkeeping rather than
user interface:

- **Leveling** (`leveling.dfy`): the rank ladder and the rule applied when an exam ends. A
  passed exam earns 10 XP and moves one rank up unless the rank is the top one; a level string
  that is not on the ladder earns the XP but never moves, because the failed lookup is
  swallowed; a failed exam changes nothing and returns an encouragement message. The rule is
  written once for any ladder of distinct rank names (`Advance`) and applied to the app's
  five-rank ladder (`Promote`). The returned message is a small tagged value, and `Text`
  renders it as the exact string the user sees.
- **Registration form** (`registration_form.dfy`): the sign-up form's checks, in their fixed order.
- **Store** (`store.dfy`): the document database as a class holding two maps, the `usuarios`
  collection (user name to user document) and the per-user `mazos` deck collections, plus an
  `online` flag for "no database client". Its methods are `get_user_progress`,
  `update_user_level`, `register_new_user`, the form's submit branch, `get_user_decks`,
  `save_user_deck` and `delete_user_deck`, with their early returns.
- **Session** (`session.dfy`): the session-state fields with their start-up defaults, and the
  two exam handlers `go_to_next_question` and `restart_exam`. The source defines both handlers
  twice with the same bodies (lines 261-273 and 523-535); one model covers both.
- **Catalog** (`catalog.dfy`): the subject and organ-system lists, and the guard that asks for
  both before an upload (see Findings).
- `wrappers.dfy` holds the `Option` type used for Python's `None` and for missing document fields.

Decks live in their own map keyed by user name rather than inside the user document. A deck
collection in the database exists whether or not the parent user document does, and
`save_user_deck` never checks that the user exists. Level and experience in a user document are
optional, and readers fall back to the defaults when a field is missing. `update_user_level` always writes both fields
back, so a failed exam on a document that lacked them fills in the defaults. What a reader sees
is still unchanged (`Store.FailKeepsStoredProgress`).

Two methods are worked examples that call the model's operations in sequence rather than
model a source function: `Store.RegisterAndPass` registers a user, reads the progress, passes
one exam and registers the same name again; `Session.WalkAndRestart` moves twice through a
deck and restarts.

Three facts about the code shape the model:
- `save_user_deck` checks only that the content is a non-empty list. It never inspects the
  questions.
- Progress is kept per user, not per subject.
- There is no local cache beside the database.

## Model

| member | source | states |
|---|---|---|
| Leveling.Text | main_medflash.py:420-433 | the rendered message is empty exactly for the "no message" case (a pass at the top rank or with a level off the ladder); the level-up and encouragement texts are never empty |
| Leveling.IndexOf | main_medflash.py:426 | Python's `list.index`: the result is the first position holding the value, and there is none exactly when the value is absent (where Python raises) |
| Leveling.IndexOfDistinct | main_medflash.py:418-426 | on a ladder without repeated names, looking up the rank at position i finds position i |
| Leveling.Advance | main_medflash.py:418-433 | the end-of-exam rule on any ladder: a pass adds exactly 10 XP and a fail adds none; a fail keeps the level and gives the encouragement message; the level changes only on a pass from a level on the ladder, to another ladder entry, with the level-up message naming it; on a ladder without repeats, a pass that keeps the level gives no message (the per-case statements are Leveling.PassOneStep, Leveling.PassOffLadderStays and Leveling.FailKeepsProgress) |
| Leveling.Promote | main_medflash.py:418-433 | the rule on the app's five-rank ladder keeps a level on the ladder exactly when it was on it (per-case statements: Leveling.PassBelowTopAdvances, Leveling.PassAtTopStays, Leveling.NeverSkipsRank) |
| Leveling.RanksDistinct | main_medflash.py:418 | the five rank strings are pairwise different |
| Leveling.RankOf | main_medflash.py:418-426 | a level string has a rank exactly when it is on the ladder, and the rank points back at that string |
| Leveling.PassOneStep | main_medflash.py:423-431 | on any ladder without repeats, one pass from position i lands on position i+1 with the level-up message naming it, or stays at the top with no message, and adds 10 XP |
| Leveling.PassBelowTopAdvances | main_medflash.py:423-429 | passing below the top rank adds exactly 10 XP, moves to the next entry of the ladder and returns the level-up message naming it |
| Leveling.PassAtTopStays | main_medflash.py:420-429 | passing at "Nivel 5 (Especialista)" adds 10 XP, keeps the rank and returns no message |
| Leveling.PassOffLadderStays | main_medflash.py:423-431 | passing with a level not on the ladder adds 10 XP, keeps the level and returns no message |
| Leveling.FailKeepsProgress | main_medflash.py:432-433 | failing keeps level and XP and returns "Sigue practicando para subir de nivel." |
| Leveling.PassMessageIffAdvanced | main_medflash.py:420-431 | after a pass the message text is non-empty if and only if the rank changed |
| Leveling.NeverSkipsRank | main_medflash.py:418-433 | a rank on the ladder stays on it, moves up by exactly one step on a pass below the top and otherwise stays, and XP never decreases |
| Leveling.ClimbLadder | main_medflash.py:418-431 | on any ladder without repeats, k passes in a row from position i reach position min(i+k, top) with exactly 10·k more XP: no rank is ever skipped |
| Leveling.ClimbFromNovice | main_medflash.py:418-431 | on the app's ladder, k passes from "Nivel 1 (Novato)" with 0 XP reach rank min(k+1, 5) with 10·k XP |
| RegistrationForm.Validate | main_medflash.py:560-566 | the form accepts exactly when the passwords match, the password has at least 4 characters and user name and full name are non-empty; a mismatch is reported whenever there is one, a short password only when the passwords match, missing fields only when both earlier checks pass |
| RegistrationForm.MismatchReportedFirst | main_medflash.py:560-561 | a mismatch is reported whatever the other fields hold, a short password and empty fields included |
| RegistrationForm.ShortPasswordBeforeMissingFields | main_medflash.py:562-565 | a short matching password is reported whatever name and user name hold, empty ones included |
| RegistrationForm.EmailIgnored | main_medflash.py:559-566 | the e-mail address plays no part in the verdict |
| RegistrationForm.Complaint | main_medflash.py:561-565 | every rejected form is answered with a non-empty message ("Las contraseñas no coinciden.", "La contraseña es muy corta.", "Por favor completa todos los campos."); which check fails first is stated by RegistrationForm.Validate |
| Catalog.UploadBlockedAsWritten | main_medflash.py:645 | the guard as written blocks an upload exactly when the subject is "Seleccionar Materia" or the system is "Cardiovascular" (see Findings and Catalog.AsWrittenBlocksCardiovascular) |
| Catalog.UploadBlocked | main_medflash.py:645 | the guard as intended blocks an upload exactly when the subject is the first entry of the subject list or the system is the last entry of the system list, the two placeholders (see Findings and Catalog.UploadBlockedOnlyOnPlaceholders) |
| Catalog.AsWrittenBlocksCardiovascular | main_medflash.py:645 | the upload guard as written blocks the real system "Cardiovascular" and lets the placeholder "Seleccionar Sistema" through |
| Catalog.UploadBlockedOnlyOnPlaceholders | main_medflash.py:51-76 | the corrected guard blocks a choice from the two lists exactly when the system is the placeholder (the subject being a real one) |
| Store.NewUser | main_medflash.py:383-389 | a new account's document reads back at "Nivel 1 (Novato)" with 0 XP and keeps the given name, e-mail and hash |
| Store.LevelOf | main_medflash.py:415 | a document's rank is its stored level, or "Nivel 1 (Novato)" when the field is missing; `get_user_progress` reads it the same way at line 401 |
| Store.XpOf | main_medflash.py:416 | a document's experience is its stored XP, or 0 when the field is missing; `get_user_progress` reads it the same way at line 401 |
| Store.Recorded | main_medflash.py:435-438 | the write-back always sets both level and XP and keeps name, e-mail and hash; that the values are the rule's is Store.RecordedFollowsRule |
| Store.DecksOf | main_medflash.py:449-454 | a user's decks are that user's `mazos` collection, and none when the user has never saved one |
| Store.RecordedFollowsRule | main_medflash.py:435-438 | recording an outcome stores the leveling rule's level and XP and leaves name, e-mail and hash alone |
| Store.FailKeepsStoredProgress | main_medflash.py:432-438 | after a failed exam the stored level and XP read back as before, missing fields included |
| Store.NewUserFirstPass | main_medflash.py:383-438 | a freshly registered user who passes reads back as "Nivel 2 (Estudiante)" with 10 XP |
| Store.PutDeck | main_medflash.py:469-474 | after a save the user's collection exists and holds the deck under its name; the set of users with a collection gains at most that user and every other user's decks are untouched (read-back: Store.PutDeckThenRead) |
| Store.DropDeck | main_medflash.py:485 | a delete leaves the set of users with collections unchanged, the name is absent from that user's decks, and every other user's decks are untouched (read-back: Store.DropDeckThenRead, Store.PutThenDrop) |
| Store.PutDeckThenRead | main_medflash.py:469-474 | a saved deck is read back under its name, overwriting any deck of that name; the user's other decks and other users' decks are untouched |
| Store.DropDeckThenRead | main_medflash.py:485 | a deleted name is gone, the user's other decks and other users' decks are untouched, and deleting a missing deck changes nothing |
| Store.PutThenDrop | main_medflash.py:469-485 | saving then deleting a deck leaves the user's decks as before without that name |
| Store.Store.GetUserProgress | main_medflash.py:394-404 | the stored level and XP, with defaults for missing fields; "Nivel 1 (Novato)" and 0 without a database or for an unknown user |
| Store.Store.UpdateUserLevel | main_medflash.py:406-443 | without a database: no level, "Base de datos no disponible.", nothing written; unknown user: no level, "Usuario no encontrado.", nothing written; otherwise returns the rule's level and message and writes level and XP into that user's document only |
| Store.Store.RegisterNewUser | main_medflash.py:372-392 | without a database: the not-initialised reason, nothing written; an existing user name: "exists", nothing written; otherwise "success" and a new document at Novato with 0 XP |
| Store.Store.SubmitRegistration | main_medflash.py:559-576 | a form the checks reject writes nothing and reports the first failed check; an accepted form reports the not-initialised reason without a database, "exists" for a taken user name and success otherwise, and creates the user document exactly in the success case |
| Store.Store.GetUserDecks | main_medflash.py:445-457 | the user's saved decks; none without a database or with an empty user name |
| Store.Store.SaveUserDeck | main_medflash.py:459-478 | saves exactly when there is a database, a user name and non-empty list content; then the deck is stored under its name, replacing any old one; otherwise nothing changes |
| Store.Store.DeleteUserDeck | main_medflash.py:480-490 | with a database and a user name, removes that deck name (present or not) and reports success; otherwise nothing changes |
| Session.SkipAdvances | main_medflash.py:261-265 | k moves to the next question advance the position by exactly k, clear the pending answer and explanation, and keep the deck and the results |
| Session.RestartThenSkip | main_medflash.py:267-273 | after a restart, k moves put the position at k with no deck and no results |
| Session.Next | main_medflash.py:261-265 | moving on advances the position by one, clears the answer, hides the explanation and keeps the deck and the results (repeated moves: Session.SkipAdvances) |
| Session.SessionState.constructor | main_medflash.py:276-299 | a new session starts on "Cargar Contenido" with no content, no exam, position 0, no answer, no explanation, no results, no sign-in outcome, rank "Nivel 1 (Novato)", the first subject and the first system of the lists, no last login |
| Session.SessionState.GoToNextQuestion | main_medflash.py:261-265 | the position goes up by exactly 1, the answer is cleared, the explanation hidden, and no other field changes |
| Session.SessionState.RestartExam | main_medflash.py:267-273 | whatever the prior state, the exam fields return to their start-of-session values (no exam, position 0, no answer, explanation hidden, no results) and no other field changes |

## Findings

| source | as written | input that shows it | evidently intended | confidence | as-written member | corrected member |
|---|---|---|---|---|---|---|
| main_medflash.py:645 | the guard compares the chosen system with `SISTEMAS[0]`; `SISTEMAS` is the key list of the icon table (line 76), whose first key is "Cardiovascular" and whose placeholder "Seleccionar Sistema" is the last key | subject "Anatomía", system "Cardiovascular": the upload is blocked; system "Seleccionar Sistema": it is allowed | compare with the placeholder "Seleccionar Sistema", as is done for subjects, whose placeholder is first | high that the guard misbehaves on these inputs; not executed | Catalog.AsWrittenBlocksCardiovascular | Catalog.UploadBlockedOnlyOnPlaceholders |

The same list order is why a new session's default system is "Cardiovascular" (line 297). The
session model keeps that value, since it is what the code stores.

## Left out

- Concurrent sessions: every browser session shares one database client (lines 303-321), and each store method is modelled as one atomic step. In the code, `register_new_user` checks `exists` (378) and then writes with `set` (383), and `update_user_level` reads the document (411) and then writes with `update` (435). Two sessions running at once can therefore both register the same new user name, the second write replacing the first account, or can both read the same XP so that one pass is lost. Store.Store.RegisterNewUser's "exists, nothing written" and Leveling.ClimbLadder's "exactly 10·k more XP" hold only when calls run one at a time.
- Database failures: every `except` branch of the store functions is left out. These branches cover network errors and the client library's rejection of bad document ids, such as an empty deck name. They return `(None, None)`, `False`, `{}`, the defaults or the exception text.
- Store.LevelOf, Store.XpOf: a level or XP field that is present but holds null or a value of another type is not modelled; only a missing field is. The code behaves differently on such a field. `data.get` then returns `None` instead of the default (lines 401, 415). On a pass with a null level, `levels_order.index(None)` raises, the exception is swallowed (430-431), `None` is written back and `(None, "")` is returned. On a pass with a null XP, `current_xp += 10` raises and the outer `except` (441-443) returns `(None, None)`.
- Store.Store.RegisterNewUser: the password is hashed with bcrypt and a random salt. The model takes the hash as a parameter and treats it as an opaque string.
- Store.Store.SaveUserDeck: the `creado` server timestamp is not stored. The questions in a deck are kept as they come; the code never inspects them.
- Firebase start-up and secrets lookup: these only decide whether a database client exists, which is the store's `online` flag.
- Gemini configuration and prompting, PDF and slide text extraction, the cookie authenticator and the fallback credentials list: these are foreign services and libraries.
- The Streamlit pages, sidebar, CSS and messages shown with `st.error`/`st.success`, `time.sleep` and `st.rerun`. The form's complaint strings are kept in `RegistrationForm.Complaint`. Resetting the sign-in status after a successful registration is not modelled.
- Reloading progress and decks into the session when the signed-in user changes (lines 586-593): this is page flow around the modelled calls.
- Session.SessionState.constructor: a session is modelled as created with every default at once. The code's "set only if missing" re-runs leave existing fields as they are.
- Exam scoring, the pass threshold, answer submission and the repair of the generator's JSON output: that code is not part of this model.
