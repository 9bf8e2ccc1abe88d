# TrustiQR dashboard: a verified model

TrustiQR is a Next.js prototype for issuing certificates that carry a QR token. This project models
the logic behind its dashboard pages and proves properties of that logic:

- **Create page.** The token `TX-<TIME36>-<RAND>` and the address check `/\S+@\S+\.\S+/`. The
  create-certificate handlers (issue, send, copy, draft save and load, reset) act on the form, the
  token and the status line.
- **Verify page.** The certificate registry: a list of records mirrored to the `"certificates"`
  entry of local storage. It has a case-insensitive search listed newest first, a recent-activity
  view, and add, remove and clear-all.
- **Manage-templates page.** A template list whose ids are assigned as one more than the last id.
- **User-account and settings pages.** Boolean switches flipped with `{ ...m, [k]: !m[k] }`, one
  profile field updated at a time, and the avatar initials taken from the profile name.
- **Mock session context.** A hard-coded login, a logout, and the restore of the `"user"` entry
  when the provider mounts.

Each page whose state the source updates is a `class`. Its fields are the page's state variables
and local storage, and each handler is a method whose `modifies` clause names exactly the fields the
handler sets. The pure helpers are functions and lemmas.

Local storage is a map from key to `Storage.Entry`, which is one of three things:

- `Blank`: the empty text;
- `Malformed`: text on which `JSON.parse` throws;
- `Json(v)`: text that parses to `v`.

What the browser supplies becomes a parameter:

- the clock reading `Date.now()`;
- the text of `Math.random().toString(36)`;
- today's date;
- the answers to `confirm` and `prompt`;
- whether the clipboard write succeeded.

Modules:

- `JsString`, JavaScript string operations:
  - `trim`, `toLowerCase`/`toUpperCase`, `includes`, `slice`;
  - `split`/`join` on one character.
- `Seqs`: `filter` and `reverse`, each described element by element.
- `Storage`.
- `Token`: the token and its reader.
- `Email`.
- One module per page: `Create`, `Registry`, `Templates`, `Users`, `Settings`.
- `Flags`: flipping a boolean key.
- `Session`.

The token generator has a partner, `Token.ParseToken`, which reads a token back into its clock value
and random digits. `Token.GeneratedTokenParses` proves that every generated token reads back to the
values it was made from. The scanner `Email.IsValidEmail` is proved equal to a direct statement of
what the regular expression matches. That statement is `Email.RegexMatches`: some span of the
string has no white space and consists of at least one character, an `@`, at least one character,
a `.`, and at least one character.

One edge case of the token: when `Math.random()` returns 0, its text is `"0"` and the random segment
is empty. The model includes this case, `Token.IsRandomText`, and the round-trip lemmas hold for it.

## Model

| member | source | states |
|---|---|---|
| Token.GenerateUniqueHash | app/dashboard/create/page.js:19-23 | `generateUniqueHash()` with the clock and the random text as parameters; its partner is `Token.ParseToken`, and `Token.GeneratedTokenParses` proves every token it makes reads back to the clock value and the random segment |
| Token.GeneratedTokenParses | app/dashboard/create/page.js:19-23 | a generated token begins with "TX-" and has exactly two hyphens; it reads back to the clock value it was made from and to the upper-cased characters 2..8 of the random text |
| Token.ParseRender | app/dashboard/create/page.js:22 | any clock value and any random segment of at most six upper-case base-36 digits survive rendering as `TX-<TIME>-<RAND>` and reading back |
| Token.ParseToken | app/dashboard/create/page.js:22 | whatever it accepts renders back to the same text: the "TX-" prefix, exactly two hyphens, and a random segment of at most six upper-case base-36 digits |
| Token.TimeSegment | app/dashboard/create/page.js:20 | the time segment is non-empty and has only upper-case base-36 digits, hence no hyphen; read in base 36 it gives back the clock value |
| Token.RandSegment | app/dashboard/create/page.js:21 | the random segment is all upper-case base-36 digits: the first six digits after "0.", all of them when there are fewer, and none for the text "0" |
| Token.Radix36RoundTrip | app/dashboard/create/page.js:20 | `n.toString(36).toUpperCase()` has only upper-case digits and reads back as `n` |
| Token.Radix36 | app/dashboard/create/page.js:20 | `n.toString(36)` is non-empty, has only lower-case base-36 digits, and has no leading zero: it starts with "0" only for 0 |
| Token.CountHyphens | app/dashboard/create/page.js:22 | a token whose two segments are digits has exactly two hyphens |
| Token.DistinctTimesDistinctTokens | app/dashboard/create/page.js:19-23 | tokens made at different clock readings differ, whatever the random digits |
| Email.IsValidEmail | app/dashboard/create/page.js:25-27 | `isValidEmail` as a scan for an '@' followed, within one run of non-space characters, by a '.'; `Email.IsValidEmailMatchesRegex` proves it equal to the regular expression's meaning |
| Email.IsValidEmailMatchesRegex | app/dashboard/create/page.js:25-27 | the scanner accepts a string exactly when some span of it is non-space characters, then '@', non-space characters, '.', non-space characters |
| Email.NoAtSignRejected | app/dashboard/create/page.js:25-27 | a string without '@' is rejected, the empty string included |
| Email.ValidInContext | app/dashboard/create/page.js:26 | the test is unanchored: an accepted address stays accepted with any text before and after it |
| Create.CreateCertificate.constructor | app/dashboard/create/page.js:32-42 | the page starts with the default form ("" fields, template "Academic Degree"), no token and no status message |
| Create.CreateCertificate.HandleChange | app/dashboard/create/page.js:53-56 | only the named field changes, to the typed value; the token is untouched |
| Create.CreateCertificate.SelectTemplate | app/dashboard/create/page.js:286 | a template button sets the template field and nothing else |
| Create.CreateCertificate.HandleIssue | app/dashboard/create/page.js:58-75 | the checks run in order: blank trimmed name, then empty program, then invalid email; the first one that fails sets its own message and keeps the token; when all pass, the token is the generated one and the message is "Certificate issued."; the form is never written |
| Create.CreateCertificate.HandleSendEmail | app/dashboard/create/page.js:77-87 | refused without a token, then refused for an invalid address; otherwise "Certificate sent to <email>"; form and token untouched |
| Create.CreateCertificate.HandleCopyHash | app/dashboard/create/page.js:89-97 | with no token, "No hash to copy."; otherwise the copied or failed message, depending on the clipboard outcome |
| Create.CreateCertificate.HandleSaveDraft | app/dashboard/create/page.js:134-137 | the whole form is stored under "cert-draft"; the form and the token are untouched |
| Create.CreateCertificate.HandleLoadDraft | app/dashboard/create/page.js:139-149 | a missing or empty draft gives "No draft found."; an unreadable one gives "Failed to load draft."; in both the form is unchanged; a parsed draft is merged over the form, its fields winning |
| Create.CreateCertificate.HandleReset | app/dashboard/create/page.js:151-162 | the default form, no token, "Form cleared."; storage untouched |
| Create.SaveThenLoad | app/dashboard/create/page.js:134-149 | saving a draft and loading it straight back gives the same form and keeps the token |
| Create.TokenSurvivesEdits | app/dashboard/create/page.js:72-73 | after a successful issue, editing, sending, copying, saving and loading all keep the issued token |
| Registry.MatchesQuery | app/dashboard/verify/page.js:61-64 | the search condition: the lower-cased name, id or status includes the query; `Registry.ListingSelectsMatches` and `Registry.ListingMissesNoMatch` prove the listing keeps exactly the records meeting it |
| Registry.Normalize | app/dashboard/verify/page.js:57 | the query is the trimmed, lower-cased search text; by `JsString.TrimEmptyIff` it is "" exactly for an all-white-space search |
| Registry.Listing | app/dashboard/verify/page.js:58-67 | all records reversed for "", else the matching records reversed; `Registry.ListingMembership` states which records it holds, and `Registry.ListingSelectsMatches` and `Registry.ListingMissesNoMatch` their order |
| Registry.SearchResults | app/dashboard/verify/page.js:56-68 | `filtered`: the listing for the normalized search text; `Registry.BlankSearchListsAll` covers the blank search |
| Registry.VerifyCertificate.Filtered | app/dashboard/verify/page.js:56-68 | the rows shown for the page's current list and search text, that is `Registry.SearchResults` of the two |
| Registry.LoadCertificates | app/dashboard/verify/page.js:19-26 | the stored list when the entry parses; [] when it is missing, empty or unreadable |
| Registry.BlankSearchListsAll | app/dashboard/verify/page.js:57-58 | an empty or all-white-space query lists every record, last stored first |
| Registry.ListingSelectsMatches | app/dashboard/verify/page.js:59-67 | for a non-empty query, the results follow the kept stored positions in increasing order; each kept record matches, and the record at the j-th kept position is the j-th result counted from the end |
| Registry.ListingMissesNoMatch | app/dashboard/verify/page.js:60-65 | every stored position whose record matches the query is among the kept positions |
| Registry.ListingMembership | app/dashboard/verify/page.js:56-68 | a record is listed exactly when it is stored and either the query is blank or its lower-cased name, id or status contains the query |
| Registry.RecentActivity | app/dashboard/verify/page.js:283 | the last min(6, n) records, newest first |
| Registry.RecentIsHeadOfListing | app/dashboard/verify/page.js:283 | the recent-activity view is the head of the unfiltered listing |
| Registry.DraftId | app/dashboard/verify/page.js:72 | the id `handleAddOpen` proposes; `Registry.DraftIdShape` proves its shape |
| Registry.DraftIdShape | app/dashboard/verify/page.js:72 | a proposed id is "CERT-" followed by at most seven upper-case base-36 digits |
| Registry.VerifyCertificate.constructor | app/dashboard/verify/page.js:37-45 | empty search, empty list, dialog closed, blank draft dated today with status "Issued" |
| Registry.VerifyCertificate.Reload | app/dashboard/verify/page.js:108-110 | the list becomes what is loaded from storage (the mount effect does the same, line 48) |
| Registry.VerifyCertificate.SetSearch | app/dashboard/verify/page.js:154 | the search box text is set |
| Registry.VerifyCertificate.HandleAddOpen | app/dashboard/verify/page.js:70-78 | a fresh draft with the proposed random id, empty name, today's date and status "Issued"; the dialog opens |
| Registry.VerifyCertificate.HandleAddCancel | app/dashboard/verify/page.js:346 | the dialog closes, and nothing else changes |
| Registry.VerifyCertificate.HandleAddingChange | app/dashboard/verify/page.js:308-336 | each input writes its own field of the draft and no other |
| Registry.VerifyCertificate.HandleAddSave | app/dashboard/verify/page.js:80-89 | refused exactly when the trimmed name or trimmed id is empty, and then the list, storage and dialog are unchanged; otherwise the draft is appended at the end, storage holds the new list, and the dialog closes |
| Registry.VerifyCertificate.HandleRemove | app/dashboard/verify/page.js:91-96 | unconfirmed: nothing changes; confirmed: exactly the records with other ids remain, in their order, and storage holds that list |
| Registry.VerifyCertificate.HandleClearAll | app/dashboard/verify/page.js:102-106 | unconfirmed: nothing changes; confirmed: the list is empty, and so is what loading from storage gives |
| Registry.SaveThenReload | app/dashboard/verify/page.js:85-87 | after a successful save, a reload reads back the old list with the draft at the end |
| Seqs.Filter | app/dashboard/verify/page.js:59-65 | `filter`: never longer than its input; `Seqs.FilterByIndices`, `Seqs.KeptIndicesComplete` and `Seqs.FilterMembership` describe its contents and order |
| Seqs.FilterByIndices | app/dashboard/verify/page.js:59-65 | `filter` returns the accepted elements in order: the k-th result is the element at the k-th kept position; the positions strictly increase and are all accepted |
| Seqs.KeptIndicesComplete | app/dashboard/verify/page.js:59-65 | every accepted position is kept |
| Seqs.FilterMembership | app/dashboard/templates/page.js:31 | an element is kept exactly when it is in the input and accepted |
| Seqs.FilterAll | app/dashboard/templates/page.js:31 | a filter that accepts every element returns its input |
| Seqs.Reverse | app/dashboard/verify/page.js:58 | `slice().reverse()` has the same length, and element i is the input's element n-1-i |
| Seqs.ReverseFilterByIndices | app/dashboard/verify/page.js:59-67 | a filter read last-first: the element at the j-th kept position is the j-th result from the end |
| Seqs.ReverseMembership | app/dashboard/verify/page.js:58 | reversing keeps exactly the same elements |
| JsString.TrimStartSpec | app/dashboard/verify/page.js:57 | the leading part `trim` drops is all white space, and what is left is a suffix not starting with white space |
| JsString.TrimEndSpec | app/dashboard/verify/page.js:57 | the trailing part `trim` drops is all white space, and what is left is a prefix not ending in white space |
| JsString.Trim | app/dashboard/create/page.js:59 | `s.trim()` is never longer than `s`; it is `trimStart` after `trimEnd`, each pinned down by `JsString.TrimStartSpec` and `JsString.TrimEndSpec` |
| JsString.TrimEmptyIff | app/dashboard/create/page.js:59 | `s.trim()` is empty exactly when every character of `s` is white space |
| JsString.Slice | app/dashboard/create/page.js:21 | `slice(start, end)` with JavaScript's clamping: with both bounds clamped to the length, the result has length `end - start`, or 0 when the clamped `end` is not past the clamped `start`, and element i is `s[start + i]` |
| JsString.Includes | app/dashboard/verify/page.js:62-64 | `s.includes(sub)`: `sub` occurs in `s` at some position |
| JsString.ToUpper | app/dashboard/users/page.js:99 | `toUpperCase` works character by character and keeps the length |
| JsString.ToLower | app/dashboard/verify/page.js:57 | `toLowerCase` works character by character and keeps the length |
| JsString.ToUpperAppend | app/dashboard/users/page.js:99 | upper-casing distributes over concatenation |
| JsString.Split | app/dashboard/users/page.js:96 | `split(" ")` gives one more piece than there are separators; no piece has a separator; joining the pieces gives back the input |
| JsString.SplitAround | app/dashboard/users/page.js:96 | splitting at the first separator splits the two sides independently |
| Templates.ManageTemplates.constructor | app/dashboard/templates/page.js:19-23 | the page starts with the three initial templates, ids increasing |
| Templates.InitialTemplatesWellFormed | app/dashboard/templates/page.js:19-23 | the initial ids are 1, 2, 3, in that order |
| Templates.IncreasingIdsAreUnique | app/dashboard/templates/page.js:19-23 | strictly increasing ids are pairwise distinct |
| Templates.NextId | app/dashboard/templates/page.js:39 | 1 for an empty list; otherwise above every id of an increasing list |
| Templates.AddKeepsIdsIncreasing | app/dashboard/templates/page.js:38-42 | appending under the next id keeps the ids strictly increasing |
| Templates.FilterKeepsIdsIncreasing | app/dashboard/templates/page.js:31 | any filter keeps the ids strictly increasing |
| Templates.DeleteUnknownId | app/dashboard/templates/page.js:31 | deleting an id no template has changes nothing |
| Templates.DeleteRemovesOne | app/dashboard/templates/page.js:31 | with increasing ids, deleting a present id removes exactly one template |
| Templates.ManageTemplates.HandleDelete | app/dashboard/templates/page.js:29-33 | unconfirmed: nothing changes; confirmed: exactly the templates with other ids remain, in order; an unknown id changes nothing; ids stay strictly increasing |
| Templates.ManageTemplates.HandleAddNew | app/dashboard/templates/page.js:35-44 | a cancelled or empty name changes nothing; otherwise a template with the next id is appended at the end; ids stay strictly increasing |
| Flags.Flip | app/dashboard/settings/page.js:26 | the key is added or kept with the negation of its old value (a missing key counts as false); every other key keeps its value |
| Flags.FlipTwice | app/dashboard/settings/page.js:25-27 | flipping a present key twice gives back the record |
| Flags.FlipMissingTwice | app/dashboard/settings/page.js:25-27 | flipping a missing key twice leaves it present and off |
| Flags.FlipsCommute | app/dashboard/users/page.js:39-40 | flips of different keys commute |
| Settings.SettingsPage.constructor | app/dashboard/settings/page.js:17-23 | darkMode off, emailAlerts on, multiUser on, roleAccess off, securityLock on |
| Settings.SettingsPage.ToggleSetting | app/dashboard/settings/page.js:25-27 | the key is negated and every other key keeps its value |
| Settings.ToggleTwice | app/dashboard/settings/page.js:25-27 | toggling a present key twice restores the settings |
| Users.FirstChars | app/dashboard/users/page.js:97-98 | `map((n) => n[0]).join("")` gives at most one character per piece |
| Users.FirstCharsAppend | app/dashboard/users/page.js:97-98 | the first characters of two lists of pieces concatenate |
| Users.Initials | app/dashboard/users/page.js:95-99 | the avatar text; `Users.InitialsOfWord` and `Users.InitialsAroundSpace` determine it word by word, and `Users.InitialsLength` bounds it |
| Users.UserAccount.AvatarInitials | app/dashboard/users/page.js:95-99 | the avatar text for the page's current profile name, that is `Users.Initials` of it |
| Users.InitialsOfWord | app/dashboard/users/page.js:95-99 | a single word gives its upper-cased first character; "" gives "" |
| Users.SingleWordSplit | app/dashboard/users/page.js:96 | a text without a space splits into itself alone |
| Users.InitialsAroundSpace | app/dashboard/users/page.js:95-99 | a word followed by a space contributes its initial, and the rest contributes its own initials |
| Users.TwoWordInitials | app/dashboard/users/page.js:95-99 | two non-empty words give their two upper-cased first characters |
| Users.InitialsLength | app/dashboard/users/page.js:95-99 | there are at most as many initials as pieces, one more than the number of spaces |
| Users.DefaultInitials | app/dashboard/users/page.js:95-99 | the default name "Institution Admin" (line 23) shows "IA" |
| Users.UserAccount.constructor | app/dashboard/users/page.js:22-34 | the initial profile, light appearance, two-factor on, google connected and facebook not |
| Users.UserAccount.HandleChange | app/dashboard/users/page.js:36-37 | only the named profile field changes, to the typed value |
| Users.UserAccount.ToggleConnection | app/dashboard/users/page.js:39-40 | that provider flips, and the others keep their state |
| Users.UserAccount.SetAppearance | app/dashboard/users/page.js:166-173 | the light and dark buttons set the appearance |
| Users.UserAccount.ToggleTwoFA | app/dashboard/users/page.js:189 | the two-factor switch is negated |
| Users.ToggleConnectionTwice | app/dashboard/users/page.js:39-40 | toggling a present provider twice restores the connections |
| Session.CredentialsAccepted | app/login/AutoContext.js:22 | the one credential pair `login` accepts; `Session.AuthProvider.Login` succeeds exactly when it holds |
| Session.ReadStoredUser | app/login/AutoContext.js:12-15 | a user is restored exactly when the "user" entry parses, and it is that value; the entry is unreadable exactly when it does not parse; otherwise nothing is restored |
| Session.StoreRoundTrips | app/login/AutoContext.js:25-34 | after storing a user the entry reads back as that user; after removing it nothing is restored |
| Session.AuthProvider.constructor | app/login/AutoContext.js:8-9 | no current user, still loading |
| Session.AuthProvider.Mount | app/login/AutoContext.js:11-19 | a stored user becomes the current user; with none, the current user is kept; loading ends, except when the entry does not parse, and then nothing changes |
| Session.AuthProvider.Login | app/login/AutoContext.js:21-30 | succeeds exactly for "admin@test.com" with "123456"; then the current user is that email, and the "user" entry holds the same value; on failure nothing changes |
| Session.AuthProvider.Logout | app/login/AutoContext.js:32-35 | no current user, and the "user" entry is removed |
| Session.LoginThenRemount | app/login/AutoContext.js:21-26 | a successful login followed by a new provider over the same storage restores the same user and ends loading |
| Session.LogoutThenRemount | app/login/AutoContext.js:32-35 | a logout followed by a remount gives no user and ends loading |
| Session.LogoutIsIdempotent | app/login/AutoContext.js:32-35 | logging out twice leaves the same state as logging out once |

## Left out

- QR rendering and downloading are not modelled. The QR image comes from the `react-qr-code`
  library (app/dashboard/create/page.js:17, 311). The PNG download uses canvas, Blob and DOM calls
  (99-132). The pages hold no decoder, so no QR round trip can be stated.
- The clipboard write, `alert`, `confirm` and `prompt` are not modelled. Their outcomes are
  parameters (`copied`, `confirmed`, `answer`), and an `alert` is the boolean `alerted`.
- The status message's 3.5-second auto-clear timer (create page, 46-51) and the storage-event
  listener (verify page, 47-54) are timers and event plumbing. They are not modelled.
- `Date.now()` is a `nat` parameter. `Math.random().toString(36)` is a text parameter described by
  `Token.IsRandomText`. Today's ISO date is a text parameter. The float behind the random text is
  not modelled.
- `JSON.stringify`/`JSON.parse` and the text in local storage are not modelled. An entry is blank,
  unreadable or a parsed value of the shape the page expects. Parsed values of another shape (a
  number, `null`, an array where an object is expected) are not modelled.
- Create.CreateCertificate.HandleLoadDraft: a parsed draft that is not an object cannot be
  expressed. The model does not capture that `{ ...s, ...null }` keeps the form and still says
  "Draft loaded.".
- Registry.Certificate: a stored record that lacks a field is modelled with that field as "". The
  search treats a missing field this way (`c.name || ""`). `handleRemove` compares ids with `!==`,
  which tells an `undefined` id from "", and the model does not capture that.
- `saveCertificatesToStorage` swallows storage write failures (verify page, 28-32). The model's
  writes always succeed.
- JsString.ToLower and JsString.ToUpper map only the ASCII letters. JavaScript's full Unicode case
  mapping is not modelled.
- JsString: strings are sequences of Unicode scalar values, not UTF-16 code units. So `slice`,
  `n[0]` and `\S` act on whole characters where JavaScript would act on halves of surrogate pairs.
- Templates.Template: ids and clock readings are unbounded integers. JavaScript numbers lose
  precision above 2^53, which the model does not capture.
- Session.AuthProvider.Login and Session.AuthProvider.Logout are `async` in the source. Here they
  are modelled as immediate updates. Re-renders and other callers of the context run in between in
  the source, and the model does not capture that.
- Token.DistinctTimesDistinctTokens separates tokens only by clock reading. Two tokens in the same
  millisecond differ only when the random digits do, and the model makes no claim about
  randomness.
- These handlers are not modelled because they do nothing but alert or navigate:
  - `handleView` on the verify page (98-100);
  - `handleEdit` on the templates page (25-27);
  - `handleSaveProfile` on the users page (42-45).
- The create page's `previewOpen` flag (43, 201, 351, 376) opens and closes the preview dialog. It is
  display state that no modelled handler reads, so it is not modelled.
- The `useAuth` hook (AutoContext.js:44) is React context plumbing and is not modelled.
- app/login/page.js, context/AuthContext.jsx and app/dashboard/page.js are not part of this model.
  They are Firebase authentication and Firestore calls, and a chart with fixed data.
- Page markup, the sidebar navigation, components/Login.jsx and the layout files are not part of
  this model.
