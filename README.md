# Agentic Collective — a verified model of its client logic and account API

Agentic Collective is a Next.js catalogue of AI agents. Visitors filter the
catalogue, keep favourites and a "recent agents" list in `localStorage`,
keep personal notes per favourite agent on the dashboard, and write through
a three-step contact form. Signed-in users manage their account through a
handful of API routes over one Prisma user table.

This project models that logic in Dafny and proves what it promises.

- **Client lists.**
  - `ActivityLogger`: the move-to-front recents list, capped at four.
  - `RecentAgents`: resolving stored ids back to catalogue entries.
  - `HomePage`: the category and search filter, the favourites toggle and the launch link.
  - `Dashboard`: the favourites derivation and the open-agent and notes-cache workspace.
- **Client forms.**
  - `ContactOrb`: the contact wizard with its step guards and its reset on close.
  - `ChangePasswordModal`: the ordered checks of the change-password dialog.
- **API routes.**
  - `ContactApi`: the contact endpoint's guard ladder.
  - `Signup`, `ForgotPassword`, `ResetPassword`, `ChangePassword`, `UpdateName`, `DeleteAccount` and `ShareNote`, each over `Api.UserTable`.
- **Shared modules.**
  - `Wrappers` and `Lists`: JavaScript's `null` and the array operations.
  - `Catalogue`: catalogue entries, `find` and the launch URL.
  - `Text`: JavaScript whitespace and `trim`.
  - `Api`: methods, bodies, responses, digests and the user table.

Stateful code is modelled in two layers:

- A value-level state and a pure transition function carry the contract and the lemmas.
- A class, or a handler method over `Api.UserTable`, performs the same steps imperatively. Its `ensures` ties the new state to that function.

Each API handler's spec function is named `Respond`, and its method `Handler`.

Environment inputs are parameters, so every call is deterministic:

- The outcome of `fetch` and of the mail service.
- Whether a Prisma write succeeds.
- The clock.
- The random bcrypt salt, the reset token's random bytes and database-assigned ids.

bcrypt and SHA-256 are symbolic digests (`Api.Digest`):

- `compare(p, hash(q))` holds exactly when `p == q`. This idealises bcrypt, which reads only the first 72 bytes (see "## Left out").
- A SHA-256 digest never compares equal to any password.
- A digest is a symbolic stand-in that records its input (`Bcrypt(plain, salt)`); nothing reads that input except `compare`. The claim the types make is only about the table's fields: the password and token fields hold a `Digest`, never a `string`.

## Model

| member | source | states |
|---|---|---|
| ActivityLogger.NextRecents | src/lib/activityLogger.js:13-21 | the new list starts with the logged id, holds it exactly once, has between 1 and 4 entries, and continues with the previous ids minus that id, cut to fit |
| ActivityLogger.NextRecentsKeepsOrder | src/lib/activityLogger.js:13-21 | the ids after the first keep their previous relative order (a subsequence of the old list) |
| ActivityLogger.NextRecentsMembers | src/lib/activityLogger.js:13-16 | no id is invented: each entry is the logged id or was already stored |
| ActivityLogger.NextRecentsIdempotent | src/lib/activityLogger.js:10-23 | logging the same id twice in a row gives the same list as logging it once |
| ActivityLogger.NextRecentsDistinct | src/lib/activityLogger.js:13-16 | a duplicate-free list stays duplicate-free |
| ActivityLogger.RecentsStorage.LogAgentActivity | src/lib/activityLogger.js:6-27 | outside a browser nothing changes; a missing value becomes `[botId]`; a stored list becomes `NextRecents` of it; an unparsable value is left as it is (the exception is caught) |
| RecentAgents.IdsOf | src/components/RecentAgents.js:14 | the ids of the resolved bots, position by position |
| RecentAgents.ResolveBots | src/components/RecentAgents.js:14 | never more bots than stored ids, and each resolved bot is what `find` returns for its id (the first catalogue entry with that id) |
| RecentAgents.ResolveFollowsStoredOrder | src/components/RecentAgents.js:14 | the resolved ids are exactly the stored ids that the catalogue knows, in stored order |
| RecentAgents.ResolveKeepsKnownIds | src/components/RecentAgents.js:14 | a stored id is shown exactly when some catalogue entry carries it |
| RecentAgents.LoadRecentBots | src/components/RecentAgents.js:11-16 | nothing stored gives an empty panel; an unparsable value makes the effect throw; a stored list shows `ResolveBots` of it, whose ids are the stored ids the catalogue knows, in stored order |
| RecentAgents.LoggedAgentShownFirst | src/components/RecentAgents.js:14 | after a known agent is logged, the panel shows it first |
| Catalogue.FindBot | src/components/RecentAgents.js:14 | `find` yields nothing exactly when no entry has the id, and otherwise the earliest entry with it |
| Catalogue.LaunchUrl | src/pages/index.js:190-192 | the link starts with `/embed/` exactly when `embedType` is `'iframe'`, otherwise with `/chat/`, ends with the bot id, and is exactly as long as prefix and id together (nothing in between) |
| HomePage.LowerChar | src/pages/index.js:76 | `'A'`..`'Z'` become the matching lower-case letter (code point + 32), no upper-case ASCII letter is left, and every other character is kept |
| HomePage.Lower | src/pages/index.js:76 | `toLowerCase` keeps the length and lower-cases character by character |
| HomePage.LowerIdempotent | src/pages/index.js:76 | lower-casing twice is lower-casing once |
| HomePage.Includes | src/pages/index.js:79 | `includes` holds exactly when the term occurs at some position |
| HomePage.Matches | src/pages/index.js:77-81 | with an empty search term an entry matches exactly when it is in the chosen category (any, for `*`); a matching entry's name or description is at least as long as the term |
| HomePage.FilterBots | src/pages/index.js:74-84 | the grid is a subsequence of the catalogue; with a key other than `*` every entry is in that category; every entry's lower-cased name or description contains the lower-cased term; and a catalogue entry is shown exactly when it matches |
| HomePage.FilterShowsAll | src/pages/index.js:78-79 | key `*` with an empty term shows the whole catalogue |
| HomePage.FilterIgnoresCase | src/pages/index.js:76-79 | searching for a term or for its lower-case form gives the same grid |
| HomePage.ToggleFavorite | src/pages/index.js:89-98 | afterwards the id is a favourite exactly when it was not; a present id loses every occurrence while the others keep theirs, in order; an absent id is appended at the end |
| HomePage.ToggleTwiceRestores | src/pages/index.js:89-101 | toggling an absent id twice restores the original list |
| HomePage.HomePageState.constructor | src/pages/index.js:31-37 | first render: loading, no favourites, empty grid, key `*`, empty term |
| HomePage.HomePageState.ApplyFilters | src/pages/index.js:74-84 | once loaded, the grid becomes `FilterBots` of the current key and term; while loading it is left alone |
| HomePage.HomePageState.FinishLoading | src/pages/index.js:41-49 | favourites are read from storage (missing means none); loading ends and the grid shows the filter of the current inputs, the whole catalogue for `*` and `''` |
| HomePage.HomePageState.SetFilterKey | src/pages/index.js:87 | a new key keeps the grid equal to the filter of the current inputs |
| HomePage.HomePageState.SetSearchTerm | src/pages/index.js:88 | a new term keeps the grid equal to the filter of the current inputs |
| HomePage.HomePageState.ToggleFavoriteBot | src/pages/index.js:89-101 | the favourites become `ToggleFavorite` of the old ones, and storage holds the same list |
| Dashboard.FavoriteBots | src/pages/dashboard.js:34-35 | the favourites are a subsequence of the catalogue, and an entry is listed exactly when its id was stored |
| Dashboard.LoadFavorites | src/pages/dashboard.js:33-37 | nothing stored lists no favourites; a stored list lists `FavoriteBots` of it |
| Dashboard.FavoritedAgentListed | src/pages/dashboard.js:34-35 | an agent favourited on the explore page is listed on the dashboard |
| Dashboard.BotClick | src/pages/dashboard.js:40-71 | clicking the open agent closes it and changes nothing else; another agent opens with the spinner off; a cached note is shown with no fetch; a fetched note is cached and shown, `''` for `null`; a failed fetch leaves the cache and the text alone; no cached entry is ever overwritten |
| Dashboard.SaveNote | src/pages/dashboard.js:74-91 | a successful save caches the server's content for the open agent; a failed one changes nothing |
| Dashboard.ClickTwiceCloses | src/pages/dashboard.js:41-45 | opening and clicking again closes with no fetch and the cache the first click left |
| Dashboard.ReopenUsesCache | src/pages/dashboard.js:51-64 | a fetched note is shown again on reopening, with no second fetch |
| Dashboard.SavedNoteShownOnReopen | src/pages/dashboard.js:51-55 | after a save, reopening the agent shows the saved text with no fetch |
| Dashboard.DashboardPage.constructor | src/pages/dashboard.js:19-25 | first render: no favourites, nothing open, empty cache and text, no spinner |
| Dashboard.DashboardPage.LoadFavoriteBots | src/pages/dashboard.js:33-37 | the favourites become `LoadFavorites` of what storage holds |
| Dashboard.DashboardPage.HandleBotClick | src/pages/dashboard.js:40-71 | the new workspace and whether it fetched are exactly `BotClick` of the old one |
| Dashboard.DashboardPage.HandleSaveNote | src/pages/dashboard.js:74-91 | posts the editor text for the open agent and updates the cache as `SaveNote` says |
| ContactOrb.LooksLikeEmail | src/components/InteractiveContactOrb.js:33 | an address the pattern accepts has an `@`, a `.` and at least five characters |
| ContactOrb.EmailUnanchored | src/components/InteractiveContactOrb.js:33 | the pattern is not anchored: text around an accepted address is accepted too |
| ContactOrb.NextStep | src/components/InteractiveContactOrb.js:27-38 | only `step` changes, by 0 or 1; step 0 advances exactly when the name has at least two characters, step 1 exactly when the email matches `\S+@\S+\.\S+` |
| ContactOrb.Submit | src/components/InteractiveContactOrb.js:44-65 | a message under ten characters sends nothing and changes nothing; otherwise the form is posted as it stands; a delivered send sets both `isSubmitting` and `isSuccess` and changes nothing else; a failed send clears `isSubmitting` and changes nothing else |
| ContactOrb.FormSubmit | src/components/InteractiveContactOrb.js:83-98 | closed, succeeded or submitting: nothing happens; otherwise steps before 2 run `NextStep` and post nothing, and the form as it stands is posted exactly at step 2 with a message of ten or more characters, where the new state is `Submit`'s; `step` never exceeds 2 |
| ContactOrb.Change | src/components/InteractiveContactOrb.js:40-42 | the named field takes the value; the other fields and the rest of the state are kept |
| ContactOrb.Toggle | src/components/InteractiveContactOrb.js:16-25 | opening changes only `isOpen`; closing resets the step to 0, `isSuccess` to false and every field to empty, but keeps `isSubmitting` |
| ContactOrb.WizardPostsAnswers | src/components/InteractiveContactOrb.js:27-65 | valid answers and three presses post exactly those answers and show success |
| ContactOrb.SentFormStaysDisabled | src/components/InteractiveContactOrb.js:16-25 | after a successful send, closing and reopening leaves `isSubmitting` set, so the reopened form can never be submitted |
| ContactOrb.Orb.constructor | src/components/InteractiveContactOrb.js:7-10 | first render: step 0, empty fields, not submitting, no success |
| ContactOrb.Orb.OnToggle | src/components/InteractiveContactOrb.js:16-25 | the new state is `Toggle` of the old |
| ContactOrb.Orb.HandleChange | src/components/InteractiveContactOrb.js:40-42 | one field takes the input's value, as `Change` says |
| ContactOrb.Orb.OnSubmit | src/components/InteractiveContactOrb.js:92 | the new state and the posted form are `FormSubmit` of the old state |
| ChangePasswordModal.CheckNewPassword | src/components/ChangePasswordModal.js:18-25 | a differing confirmation is reported whatever the length; a matching password under six characters is too short; only a matching password of six or more passes |
| ChangePasswordModal.FailureMessage | src/components/ChangePasswordModal.js:38-47 | a non-ok reply shows the server's message, or `'Failed to change password.'` when it is absent or empty; an exception shows its own message |
| ChangePasswordModal.Submit | src/components/ChangePasswordModal.js:12-48 | a closed dialog does nothing; a request is sent exactly when the checks pass, and it carries the current and the new password; each rejection sets its message; success clears the error and closes |
| ChangePasswordModal.PreviousErrorDiscarded | src/components/ChangePasswordModal.js:16 | what a submission leaves never depends on the error shown before it |
| ChangePasswordModal.RejectedPairSendsNothing | src/components/ChangePasswordModal.js:18-25 | a rejected pair never reaches the server, whatever it would have answered |
| ChangePasswordModal.PasswordDialog.constructor | src/components/ChangePasswordModal.js:7-10 | first render: empty fields and no error |
| ChangePasswordModal.FormSubmit | src/components/ChangePasswordModal.js:55-67 | with any of the three `required` inputs empty the browser blocks the submit, so nothing is sent and the state, the shown error included, is kept; otherwise it is `Submit`; a sent request has a non-empty current password and a new one of six or more characters |
| ChangePasswordModal.PasswordDialog.HandleSubmit | src/components/ChangePasswordModal.js:14-49 | the new state and the request sent are `Submit` of the old state |
| ChangePasswordModal.PasswordDialog.OnFormSubmit | src/components/ChangePasswordModal.js:55-67 | the new state and the request sent are `FormSubmit` of the old state |
| ContactApi.HandleContact | src/pages/api/contact.js:8-57 | non-POST is 405; a filled honeypot gets the success reply with no e-mail; a missing field is 400; a missing destination is 500 with no e-mail; otherwise one e-mail goes to the destination, replying to the visitor, and the reply is the success message when it was sent and 500 "Failed to send message. Please try again later." when it was not |
| ContactApi.HoneypotIndistinguishable | src/pages/api/contact.js:18-21 | the honeypot reply equals the reply of a delivered message |
| Text.Trim | src/pages/api/user/update-name.js:24 | `trim` is a slice of the input with only whitespace cut off either side; it is empty exactly for blank input, and otherwise starts and ends with non-whitespace |
| Text.TrimIdempotent | src/pages/api/user/update-name.js:31 | trimming a trimmed name changes nothing |
| Api.Compare | src/pages/api/user/change-password.js:34-37 | `compare` holds only for a bcrypt digest made from that very password, so a digest matches at most one password |
| Api.Hash | src/pages/api/auth/signup.js:29 | bcrypt's digest compares equal to its password and to no other |
| Api.HashToken | src/pages/api/auth/forgot-password.js:31-34 | a SHA-256 digest never compares equal to any password |
| Lists.Without | src/pages/index.js:93 | `filter(id => id !== x)` leaves no occurrence of `x` and is no longer than the input |
| Signup.Respond | src/pages/api/auth/signup.js:8-44 | 405, 400 and 409 change nothing; 201 happens exactly for a complete body with a new email, and adds exactly one user with that name, that email, the new id, no reset token and a password digest that compares equal only to the given password; a failed create (or an id in use) is 500 "Something went wrong" and changes nothing; the table's constraints are kept |
| Signup.SecondSignupConflicts | src/pages/api/auth/signup.js:20-26 | signing up again with a registered email is a 409 that changes nothing |
| Signup.Handler | src/pages/api/auth/signup.js:8-44 | the table and the response are `Respond` of the old table |
| ForgotPassword.Respond | src/pages/api/auth/forgot-password.js:10-65 | non-POST is 405 and no email is 400; every request naming an email gets the same 200 message; an unknown email or a failed write changes nothing and mails nothing; otherwise only that user's token digest and expiry (now + 3600000 ms) change and the raw token is mailed to that user |
| ForgotPassword.OnlyRequestedUserChanges | src/pages/api/auth/forgot-password.js:40-46 | every other user keeps every field |
| ForgotPassword.ResponseUniform | src/pages/api/auth/forgot-password.js:26-63 | two requests naming emails get the same response, whatever the database holds |
| ForgotPassword.Handler | src/pages/api/auth/forgot-password.js:10-65 | the table, the response and the mail are `Respond` of the old table |
| ResetPassword.FindResetUser | src/pages/api/auth/reset-password.js:26-31 | the lookup finds a user exactly when one holds the digest with an expiry strictly after now, and it returns such a user |
| ResetPassword.Respond | src/pages/api/auth/reset-password.js:9-51 | 405 and 400 change nothing; success happens exactly when some user matches; the match gets the new password's digest and loses its token pair; an invalid or expired token is 400 and changes nothing |
| ResetPassword.TokenSingleUse | src/pages/api/auth/reset-password.js:26-48 | after a successful reset the same token is refused, at any later time and with any password |
| ResetPassword.LinkValidWithinHour | src/pages/api/auth/forgot-password.js:30-58 | the mailed token resets the password within the hour; the new password then compares equal and the token pair is cleared |
| ResetPassword.LinkExpiresAfterHour | src/pages/api/auth/reset-password.js:26-35 | from one hour after issue, the mailed token is refused and nothing changes |
| ResetPassword.Handler | src/pages/api/auth/reset-password.js:9-51 | the table and the response are `Respond` of the old table |
| ChangePassword.Respond | src/pages/api/user/change-password.js:10-51 | 405 comes before 401; 404 exactly when the session email has no row or no password; a wrong current password is exactly the 403 case; an absent current password, an absent new password or a failed write is 500; 200 exactly when it matches and the write succeeds; only that row's password changes, to a digest of the new password; other statuses change nothing |
| ChangePassword.OldPasswordRefused | src/pages/api/user/change-password.js:34-44 | after a change, the old password is refused with 403 |
| ChangePassword.Handler | src/pages/api/user/change-password.js:10-51 | the table and the response are `Respond` of the old table |
| UpdateName.Respond | src/pages/api/user/update-name.js:9-38 | 401 comes before 405; a missing or blank name is 400; 200 exactly when the session's email has a row and the write succeeds, and 500 with nothing changed when the row is missing or the write fails; only that row changes, to the trimmed, non-empty name |
| UpdateName.RenameIdempotent | src/pages/api/user/update-name.js:29-32 | sending back the stored name changes nothing further |
| UpdateName.Handler | src/pages/api/user/update-name.js:9-38 | the table and the response are `Respond` of the old table |
| DeleteAccount.Respond | src/pages/api/user/delete-account.js:9-34 | 401 comes before 405; 200 exactly for DELETE on an existing row; exactly that row goes and every other user is kept as it was; a missing row or a failed delete is 500 and changes nothing |
| DeleteAccount.DeletedAccountStaysGone | src/pages/api/user/delete-account.js:25-29 | with a session that outlives its account, change-password gives 404, rename and a second delete give 500, and nothing changes |
| DeleteAccount.Handler | src/pages/api/user/delete-account.js:9-34 | the table and the response are `Respond` of the old table |
| ShareNote.Respond | src/pages/api/actions/share-note.js:9-40 | 405, 401 and 400 change nothing; a failed create is 500 and changes nothing; 200 exactly when a complete body is stored; exactly one note is appended, owned by the session's user id and carrying the body's content and bot; it returns the note's id; users never change |
| ShareNote.Handler | src/pages/api/actions/share-note.js:9-40 | the table and the response are `Respond` of the old table |

## Left out

- Async interleaving, React state batching, re-renders and toasts. Each handler is one atomic step.
- ContactOrb.Toggle: the close effect's 500 ms `setTimeout` is folded into the close itself. The automatic close two seconds after a successful send is the same `Toggle(_, false)` event and has no member of its own.
- ContactOrb.FormSubmit / ContactOrb.WizardPostsAnswers: the browser's constraint validation of the step-1 input, which is `type="email"` (InteractiveContactOrb.js:95), is not modelled. The model advances on the `\S+@\S+\.\S+` test alone, so for an address such as "a@@b.c" or "x y@z.w" it reaches step 2 and can post, where the browser blocks the submit and the wizard stays at step 1.
- ContactOrb.FormSubmit: `isSubmitting` is set before the request and cleared on failure. Only the settled state after the request is modelled, so "disabled while in flight" shows only through the `isSubmitting` guard.
- Dashboard: the textarea's `onChange` setter is a plain assignment with no member of its own. The notes API route (`/api/notes/[botId]`) is not part of this model; its reply is the `NoteFetch` or `SaveResponse` parameter.
- Dashboard.SaveNote: the source needs an open agent (the save button renders only then), so this member and `HandleSaveNote` require `activeBotId` to be set.
- ChangePasswordModal: the three inputs' `onChange` setters are plain assignments with no member of their own. The dialog's fields live on across close and reopen, as they do in the component.
- HomePage.LowerChar: lower-cases ASCII letters only. Unicode case mapping is not modelled.
- HomePage.FilterBots, ContactOrb.NextStep, ContactOrb.Submit and ChangePasswordModal.CheckNewPassword: lengths and positions count Dafny characters (code points), not UTF-16 code units as JavaScript does. A character outside the Basic Multilingual Plane counts once here and twice in JavaScript: the password "😀😀😀" has length 6 there and passes the six-character check, while the model answers `TooShort`.
- HomePage.HomePageState: the load delay (`setTimeout` of 500 ms), the tilt effect and the modal are left out.
- Non-string JSON values are not modelled. Body fields are absent or strings, and stored lists hold strings; For `recentAgents`, JSON parsing errors are the `Unparsable` case. A `localStorage` quota error on write is not modelled.
- Dashboard.LoadFavorites and HomePage.HomePageState.FinishLoading: a corrupt `favoriteBots` value makes `JSON.parse` throw, and the effect with it (dashboard.js:34, index.js:44). The model takes the stored value as absent or a list of ids and does not model that throw.
- Api.Hash: the digest is idealised as injective. bcrypt reads only the first 72 UTF-8 bytes of a password, so two passwords that share those bytes match each other's digest. The "compares equal only to" clauses of `Api.Hash`, `Signup.Respond` and `ChangePassword.Respond`, and `ChangePassword.OldPasswordRefused`, hold only under that idealisation.
- bcrypt, SHA-256 and `randomBytes` are symbolic digests and parameters, not their algorithms. The cost factor 12 is not represented.
- ForgotPassword.Handler: needs no freshness assumption. Keeping `ValidDb` does (no other user may hold the digest of the new random token), and `LinkValidWithinHour` and `LinkExpiresAfterHour` require it. 32 random bytes repeating a pending token is not modelled.
- ResetPassword.FindResetUser: requires the table's constraints, under which at most one row can match. This makes `findFirst`'s choice unique.
- ChangePassword.Respond: the row is updated by its email key, while the source updates `where: { id: user.id }`. For a table satisfying `ValidDb` (each user filed under its own email, ids unique) these are the same row; `ChangePassword.Respond` does not require `ValidDb`, so for other tables the model speaks of the email's row only.
- ResetPassword.Respond: likewise updates the matched row by its email key where reset-password.js:42 updates `where: { id: user.id }`; it requires `ValidDb`, under which the two are the same row.
- Signup.Handler: the `findUnique` lookup and bcrypt `hash` run outside the `try` in the source, so their failures become an unhandled 500 from Next.js. The model assumes both succeed.
- ResetPassword.Handler: none of its database calls are inside a `try`. The model assumes the lookup and the update succeed.
- DeleteAccount.Respond: cascade deletion of next-auth `Account` and `Session` rows is not modelled (those tables are not in the model). Shared notes are kept, since their cascade rule is not modelled.
- ShareNote.Respond: a foreign-key check of `userId` against the user table is not modelled, since the schema is not modelled. `createOk` covers any refused create.
- The session token comes from next-auth's `getToken`, which is not part of this model. It is a parameter: a session with an id and an email, or none.
- Email delivery (Resend) is represented only by the e-mail handed to it. The HTML bodies and the reset URL's host are left out.
- Not in this model: update-profile, both save-to-drive routes, check-email, the `[...nextauth]` sign-in, the pages for login, signup, forgot password and reset password, and every presentation component. They are uploads, third-party API wrappers, canvas or layout code.
