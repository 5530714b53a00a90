# insta-hub-direct: the keyword store and its pages, in Dafny

insta-hub-direct is a dashboard for an Instagram comment-to-DM automation. The
user keeps a list of trigger keywords, each with the link, message and button
text to send and a trigger counter. They also keep one configuration record:
credentials, a delay, and two behaviour switches. This project models the
logic that drives that dashboard:

- **`UseAutomation`** (`use_automation.dfy`) is the `useAutomation` hook's
  in-memory store. It holds the default configuration and the two default
  keywords, and derives the `stats` figures. It has five operations:
  `addKeyword`, `updateKeyword`, `deleteKeyword`, `toggleKeyword` and
  `updateConfig`. A `Store`/`Action`/`Run` layer composes these operations
  into sequences of calls.
- **`KeywordsPage`** (`keywords_page.dfy`) is the keyword dialog as a state
  machine over {dialog open, keyword being edited, form}. It covers reset,
  open-for-new, open-for-edit and field edits. A submit rejects a blank word
  and then a blank link; otherwise it dispatches an add or an update. The
  page also has a delete.
- **`SettingsPage`** (`settings_page.dfy`) is the settings form. It has a
  local copy of the configuration, one handler per field, the
  `parseInt(text) || 0` delay field, the two show/hide switches, and a save
  that hands the whole copy to `updateConfig`.
- **`ProfilePage`** (`profile_page.dfy`) holds the avatar initials from the
  full name, then the e-mail, then "U". It also holds the `full_name || ''`
  normalisation of the fetched row.
- **`AppLayout`** (`app_layout.dfy`) is the sidebar's navigation table, the
  rule that highlights the current route, and the footer's initials from the
  e-mail.
- **`AutomationTypes`** (`automation_types.dfy`) holds the `Keyword`,
  `AutomationConfig` and `DashboardStats` records. `Partial<…>` patches are
  records of `Option` fields.
- **`Text`** (`text.dfy`) and **`JsParseInt`** (`js_parse_int.dfy`) model the
  ECMAScript primitives the pages call: `trim`, `toUpperCase`, `charAt`,
  `split` on one character, and `parseInt` without a radix. That `parseInt`
  skips leading white space, reads a sign and a `0x` prefix, then reads the
  longest digit run; `NaN` becomes `None`.
- **`Wrappers`** (`wrappers.dfy`) defines `Option`.

The clock and `crypto.randomUUID()` are parameters. `now` is a
`Timestamp` that is only compared for equality, and an added keyword's id is a parameter that must be absent from
the list (`UseAutomation.FreshId`). Every handler is a pure function from the
old state to the new one.

`src/hooks/useAutomation.ts:46` sets `lastActivity` to `new Date()` each time
the stats are computed, so `UseAutomation.Stats` states `lastActivity ==
Some(now)`.

## Model

| member | source | states |
|---|---|---|
| UseAutomation.DefaultConfig | src/hooks/useAutomation.ts:4-12 | the starting configuration has empty credentials, a 5 second delay, and both replying and DMs on |
| UseAutomation.DefaultStats | src/hooks/useAutomation.ts:14-35 | the two starting keywords have distinct ids, 211 triggers in total and two active |
| UseAutomation.Stats | src/hooks/useAutomation.ts:42-47 | total triggers is the sum of the counts; messages sent always equals it; the active count is the number of enabled entries and never exceeds the list length; last activity is the clock reading at computation time |
| UseAutomation.FoldIsSum | src/hooks/useAutomation.ts:43 | the `reduce` left fold started at `acc` equals `acc` plus the head-first sum of the counts |
| UseAutomation.SumAppend | src/hooks/useAutomation.ts:43 | the trigger sum of a concatenation is the sum of the two parts' sums |
| UseAutomation.EnabledOnes | src/hooks/useAutomation.ts:44 | the filter keeps exactly the enabled entries and is no longer than the list |
| UseAutomation.EnabledOnesAppend | src/hooks/useAutomation.ts:44 | filtering a concatenation filters each part, in order |
| UseAutomation.MapMatching | src/hooks/useAutomation.ts:61 | the map keeps the length; position i is `f(k)` when its id matches and `k` otherwise |
| UseAutomation.AddKeyword | src/hooks/useAutomation.ts:49-57 | with a fresh id, the list grows by exactly one; the old entries are unchanged and in order; the last entry holds the draft's five fields, the id, the creation time and a count of 0 |
| UseAutomation.AddKeepsTotal | src/hooks/useAutomation.ts:43-56 | adding leaves the trigger total unchanged and raises the active count by one exactly when the draft is enabled |
| UseAutomation.AddKeepsIdsDistinct | src/hooks/useAutomation.ts:50-56 | adding with a fresh id keeps all ids distinct |
| UseAutomation.UpdateKeyword | src/hooks/useAutomation.ts:59-63 | same length and order; entries with another id are unchanged; a matching entry takes each field present in the patch and keeps every other field |
| UseAutomation.UpdateWithNoChanges | src/hooks/useAutomation.ts:59-63 | an empty patch leaves the list unchanged |
| UseAutomation.UpdateIdempotent | src/hooks/useAutomation.ts:59-63 | applying the same update twice equals applying it once |
| UseAutomation.UpdateKeepsTotal | src/hooks/useAutomation.ts:59-63 | an update that does not set the count keeps the trigger total |
| UseAutomation.UpdateKeepsActive | src/hooks/useAutomation.ts:59-63 | an update that does not set `enabled` keeps the active count |
| UseAutomation.DeleteKeyword | src/hooks/useAutomation.ts:65-67 | an entry survives exactly when its id differs; an absent id leaves the list unchanged |
| UseAutomation.DeleteAppend | src/hooks/useAutomation.ts:66 | deleting from a concatenation deletes from each part, so survivors keep their order |
| UseAutomation.DeleteIdempotent | src/hooks/useAutomation.ts:65-67 | deleting twice equals deleting once |
| UseAutomation.DeleteUndoesAdd | src/hooks/useAutomation.ts:49-67 | deleting the id just added restores the list from before the add |
| UseAutomation.DeleteActive | src/hooks/useAutomation.ts:43-44 | after a delete the active count has not grown, and the total drops by exactly the removed entries' counts |
| UseAutomation.DeleteKeepsIdsDistinct | src/hooks/useAutomation.ts:65-67 | deleting keeps ids distinct |
| UseAutomation.ToggleKeyword | src/hooks/useAutomation.ts:69-73 | same length; entries with another id are unchanged; a matching entry has `enabled` flipped and every other field kept |
| UseAutomation.ToggleTwice | src/hooks/useAutomation.ts:69-73 | toggling the same id twice restores the list |
| UseAutomation.ToggleKeepsTotal | src/hooks/useAutomation.ts:69-73 | toggling leaves the trigger total unchanged |
| UseAutomation.ToggleOne | src/hooks/useAutomation.ts:69-73 | with distinct ids, toggling a present id replaces that one entry by its flipped copy |
| UseAutomation.ToggleActive | src/hooks/useAutomation.ts:69-73 | with distinct ids, toggling a present id moves the active count by exactly one: down if the entry was enabled, up if it was not |
| UseAutomation.EnabledOnesReplace | src/hooks/useAutomation.ts:44 | replacing one entry changes the active count by the difference between the two entries' flags |
| UseAutomation.UpdateConfig | src/hooks/useAutomation.ts:75-77 | each field present in the patch is overridden and each absent field is kept |
| UseAutomation.UpdateConfigIdempotent | src/hooks/useAutomation.ts:75-77 | applying the same configuration update twice equals applying it once |
| UseAutomation.UpdateConfigWithNoChanges | src/hooks/useAutomation.ts:75-77 | an empty patch leaves the configuration unchanged |
| UseAutomation.UpdateConfigWhole | src/hooks/useAutomation.ts:75-77 | a patch holding every field replaces the whole record |
| UseAutomation.RunKeepsIdsDistinct | src/hooks/useAutomation.ts:49-77 | any sequence of calls keeps ids distinct, given fresh ids on adds and patches that leave ids alone |
| UseAutomation.AddThenToggleScenario | src/hooks/useAutomation.ts:49-73 | adding an enabled keyword to an empty store gives one active keyword with no triggers; toggling it leaves none active |
| KeywordsPage.ResetForm | src/pages/Keywords.tsx:46-55 | the form becomes empty strings with `enabled` on, nothing is being edited, and the dialog flag is untouched |
| KeywordsPage.OpenDialog | src/pages/Keywords.tsx:57-71 | the dialog opens; with a keyword, that keyword is being edited and its five editable fields fill the form; without one, the result is a reset |
| KeywordsPage.OpenForNewIsReset | src/pages/Keywords.tsx:36-71 | opening for a new keyword gives an open dialog, no edited keyword and the empty form, which is also the page's initial form |
| KeywordsPage.SetDialogOpen | src/pages/Keywords.tsx:182 | cancelling or closing changes only the open flag; the form and the edited keyword stay |
| KeywordsPage.EditForm | src/pages/Keywords.tsx:135-177 | a field edit replaces that one form field; the other fields, the edited keyword and the dialog flag stay |
| KeywordsPage.Submit | src/pages/Keywords.tsx:73-93 | rejected exactly when the trimmed word or link is empty, with the word reported first; a rejection changes no state; otherwise the untrimmed form becomes an update of the edited id, or an add when nothing is edited, and the dialog closes on an empty form |
| KeywordsPage.BlankWordWins | src/pages/Keywords.tsx:74-81 | a blank word is refused as a missing word even when the link is blank too, and the state is unchanged |
| KeywordsPage.HandleSubmit | src/pages/Keywords.tsx:83-92 | a rejected submit leaves the list and state as they were; an add appends the form's fields with a count of 0; an edit applies the five-field patch to the edited id; a dispatched submit ends closed and reset |
| KeywordsPage.EditWithoutChangesKeepsKeyword | src/pages/Keywords.tsx:57-84 | opening a keyword and submitting unchanged keeps the list length and that keyword |
| KeywordsPage.EditWithoutChangesKeepsList | src/pages/Keywords.tsx:57-84 | with distinct ids, opening a keyword and submitting unchanged leaves the whole list as it was |
| KeywordsPage.HandleDelete | src/pages/Keywords.tsx:95-98 | an entry is in the result exactly when it was in the list and its id differs: no entry with the id is left, nothing is added, and an id not in the list changes nothing |
| KeywordsPage.HandleDeleteKeepsOrder | src/pages/Keywords.tsx:95-98 | deleting from two lists joined equals deleting from each and joining, so the entries that stay keep their order |
| SettingsPage.OpenSettings | src/pages/Settings.tsx:28-30 | the local copy starts as the stored configuration, with both secrets hidden |
| SettingsPage.Handle | src/pages/Settings.tsx:75-260 | a field event sets that field to the typed or switched value and keeps the other six fields and both switches; a show/hide click flips only its own switch and leaves the local copy alone |
| SettingsPage.VisibilityTwice | src/pages/Settings.tsx:84 | clicking a show/hide switch twice restores the page state |
| SettingsPage.DelayFromText | src/pages/Settings.tsx:214 | the delay is the parsed integer when `parseInt` finds one, and 0 when it gives `NaN` |
| SettingsPage.DelayNotClamped | src/pages/Settings.tsx:207-215 | from any page state, typing the decimal form of any integer, negative or above 60 included, stores exactly that integer |
| SettingsPage.DelayOfNonNumber | src/pages/Settings.tsx:214 | text with no decimal digit, such as "abc", "e" or "-", stores a delay of 0 |
| SettingsPage.HandleSave | src/pages/Settings.tsx:32-35 | after saving, the stored configuration equals the local copy, whatever it held before |
| SettingsPage.SaveWithoutEdits | src/pages/Settings.tsx:30-35 | saving without edits writes back the copy taken at opening time and overwrites the store's value at save time |
| JsParseInt.DigitPrefix | src/pages/Settings.tsx:214 | the digit run `parseInt` reads is a prefix, all digits, and stops at the first non-digit |
| JsParseInt.ParseIntOfDecimal | src/pages/Settings.tsx:214 | `parseInt` reads back every integer's decimal form, with or without a trailing non-digit suffix |
| JsParseInt.ParseInt | src/pages/Settings.tsx:214 | `parseInt` of text without a decimal digit is `NaN`; a `0x` prefix cannot rescue it, since it starts with the digit 0 |
| ProfilePage.FullNameAfterFetch | src/pages/Profile.tsx:28-30 | no row leaves the name as it was; a null `full_name` becomes the empty string; any other name is taken as is |
| ProfilePage.FetchSettles | src/pages/Profile.tsx:28-30 | loading the same row twice equals loading it once, and a null `full_name` gives the initials of an empty name (the e-mail's first character, or "U") |
| ProfilePage.TwoNameInitials | src/pages/Profile.tsx:59-63 | when the first two space-separated pieces are non-empty, the initials are those pieces' first characters, upper-cased |
| ProfilePage.OneNameInitial | src/pages/Profile.tsx:64 | a non-empty name without a space gives its first character, upper-cased |
| ProfilePage.FullNameBeatsEmail | src/pages/Profile.tsx:59-66 | a non-empty full name decides the initials, whatever the e-mail |
| ProfilePage.EmailAndDefaultInitials | src/pages/Profile.tsx:66-69 | without a full name, a non-empty e-mail gives its upper-cased first character; with neither, the result is "U" |
| ProfilePage.InitialsAsWritten | src/pages/Profile.tsx:58-70 | reproduces `getUserInitials` as written, including the text "undefined" for an empty piece: the result has 1 or 2 characters, or 10 or 18 when "undefined" appears, and that happens only for a name holding a space |
| ProfilePage.TrailingSpaceShowsUndefined | src/pages/Profile.tsx:60-62 | the code as written turns "Ana " into "AUNDEFINED" |
| ProfilePage.Initials | src/pages/Profile.tsx:58-70 | the corrected initials are always one or two characters |
| ProfilePage.Words | src/pages/Profile.tsx:60-62 | the words of a split name are exactly its non-empty pieces |
| ProfilePage.WordsAppend | src/pages/Profile.tsx:60-62 | dropping empty pieces works piecewise, so the words keep their order |
| ProfilePage.SquashSpaces | src/pages/Profile.tsx:60 | the squashed name has the same words as the name, and splitting it on spaces gives exactly those words with no empty piece; a name without words squashes to the empty string |
| ProfilePage.InitialsOfSquashedName | src/pages/Profile.tsx:58-70 | for every name and e-mail, the corrected initials are what the code as written gives for the name with its empty pieces dropped |
| ProfilePage.LeadingSpaceIgnored | src/pages/Profile.tsx:60-62 | a leading space does not change the corrected initials |
| ProfilePage.DoubledSpaceIgnored | src/pages/Profile.tsx:60-62 | two spaces after the first word count as one for the corrected initials |
| ProfilePage.InitialsAgreeOnWellFormedNames | src/pages/Profile.tsx:58-70 | the corrected initials equal the code's for every empty name, space-free name, or name whose first two pieces are non-empty |
| ProfilePage.CorrectedTrailingSpace | src/pages/Profile.tsx:60-62 | the corrected initials of "Ana " are "A" |
| AppLayout.ActiveItems | src/components/layout/AppLayout.tsx:95 | an item is highlighted exactly when the path equals its route |
| AppLayout.AtMostOneActive | src/components/layout/AppLayout.tsx:95 | with distinct routes, at most one item is highlighted on any path |
| AppLayout.OwnRouteHighlightsOnlyItself | src/components/layout/AppLayout.tsx:95 | with distinct routes, an item's own route highlights that item and no other |
| AppLayout.NavigationHrefsDistinct | src/components/layout/AppLayout.tsx:32-36 | the three routes of the sidebar table are distinct |
| AppLayout.NavigationHighlighting | src/components/layout/AppLayout.tsx:32-137 | in the sidebar table, at most one item is highlighted; each route highlights its own item alone; the profile route `/perfil` highlights none |
| AppLayout.Initials | src/components/layout/AppLayout.tsx:48-51 | always one character: "U" without an e-mail, otherwise the e-mail's first character upper-cased |
| AppLayout.InitialsMatchProfileWithoutName | src/components/layout/AppLayout.tsx:48-51 | the footer's initials equal the profile page's, as written and corrected, for a user without a full name |
| Text.Trim | src/pages/Keywords.tsx:74-78 | trimming gives the empty string exactly when the input is blank; otherwise the result starts and ends with a non-white-space character |
| Text.TrimStart | src/pages/Keywords.tsx:74-78 | the result is a suffix; the dropped prefix is blank; it does not start with white space |
| Text.TrimEnd | src/pages/Keywords.tsx:74-78 | the result is a prefix; the dropped suffix is blank; it does not end with white space |
| Text.TrimIdempotent | src/pages/Keywords.tsx:74-78 | trimming a trimmed string changes nothing |
| Text.ToUpper | src/pages/Profile.tsx:62-67 | upper-casing keeps the length, leaves no lower-case letter, and keeps every character that is not one |
| Text.ToUpperIdempotent | src/pages/Profile.tsx:62-67 | upper-casing an upper-cased string changes nothing |
| Text.CharAt | src/pages/Profile.tsx:64-67 | the one-character string at the index, or the empty string past the end |
| Text.Split | src/pages/Profile.tsx:60 | splitting always gives at least one piece, and exactly one when the separator does not occur |
| Text.SplitPiecesLackSeparator | src/pages/Profile.tsx:60 | no piece contains the separator |
| Text.JoinSplit | src/pages/Profile.tsx:60 | joining the pieces with the separator gives back the input |
| Text.SplitJoin | src/pages/Profile.tsx:60 | splitting the join of separator-free pieces gives back the pieces |

## Left out

- JSX, CSS classes, icons, dialogs and toasts are presentation. The toasts only echo which branch a handler took, and the model's outcome values record that branch.
- The sidebar's mobile open/closed flag (`sidebarOpen`) is a presentation switch and is not modelled.
- `src/pages/Dashboard.tsx` only renders the stats. Its percentages and badges are static text, and its relative time comes from the date-fns library.
- `src/types/database.ts` holds declarations only, and no code maps rows to the model types.
- The Supabase `select` and `update` in `src/pages/Profile.tsx:21-56` and the auth context's `signOut` are network I/O. Only the row-to-name step after the fetch is modelled.
- React's lifecycle is left out: `useState`, `useEffect`, `useCallback`, render timing and async ordering. Handlers are synchronous transition functions.
- Each page calls `useAutomation()` for its own instance of the store. The model has one store value and does not model which page instance holds it.
- The settings page copies the store's configuration once, when it first renders (`useState(config)`). `SettingsPage.OpenSettings` models that copy; later store changes do not reach the copy.
- `new Date()` and `crypto.randomUUID()` become parameters: a timestamp `now`, and an id that must be absent from the list.
- Numbers are unbounded integers. JavaScript's float semantics are not modelled, so neither is precision loss in `parseInt` above 2^53 or in the trigger sums.
- JsParseInt.ParseIntOfDecimal: stated for a suffix that starts with neither a decimal digit nor `x`/`X`. This excludes "0x…", which `parseInt` reads as hexadecimal.
- Text.ToUpper: maps ASCII and the Latin-1 lower-case letters only. Other Unicode letters are left unchanged, including `ß` and `ÿ`, whose upper-case forms are longer or lie outside Latin-1.
- Strings are sequences of Unicode code points, not of UTF-16 code units. `charAt(0)` and `names[i][0]` on a name or e-mail that starts outside the Basic Multilingual Plane (an emoji, say) return a lone surrogate in the source; the model returns the whole character.
- ProfilePage.Initials: its own contract bounds only the length. What the corrected initials are, for every input, is stated by `ProfilePage.InitialsOfSquashedName`.
- A `Partial<…>` field explicitly set to `undefined` is not modelled. A patch field is either absent (`None`) or a value.
- Text.Split: only the one-character separator the profile page uses is modelled. The general `split` with longer separators or a limit is not.
- `useAutomation`'s `isLoading` flag is never changed by the hook and is not modelled.

## Findings

| source | as written | input that shows it | evidently intended | confidence | as-written member | corrected member |
|---|---|---|---|---|---|---|
| src/pages/Profile.tsx:60-62 | `fullName.split(' ')` with two or more pieces takes `names[0][0]` and `names[1][0]`. An empty piece yields `undefined`, and the template literal spells it out. | full name "Ana " (trailing space) gives "AUNDEFINED"; a leading or doubled space behaves the same way | initials from the first two words, ignoring empty pieces, so "Ana " gives "A" | not executed | ProfilePage.TrailingSpaceShowsUndefined | ProfilePage.InitialsOfSquashedName |
