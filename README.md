# Pink diary — a verified model of the diary store and its screens

The application is a small diary kept in the browser (or in a Capacitor shell on Android).
It is built from the following parts:

- **Store.** Entries and settings live in two IndexedDB tables through Dexie (`db.ts`).
- **Shell.** `App.tsx` picks one of four screens from the URL fragment and writes the fragment when the user navigates.
- **Screens.** The list (`DiaryList.tsx`), the editor (`DiaryEditor.tsx`), the viewer (`DiaryViewer.tsx`) and the settings page (`MyPage.tsx`).
- **Records.** The record types are in `types.ts`.

This project restates that code in Dafny and proves what it promises.

| file | module | models |
|---|---|---|
| `opt.dfy` | `Opt` | optional values (`undefined`, `null`, `NaN`) |
| `text.dfy` | `Text` | the JavaScript string operations used: `split`, `trim`, `includes`, `<` on strings, `parseInt`, number to string |
| `seqs.dfy` | `Seqs` | `Array.prototype.filter` and the subsequence relation |
| `types.dfy` | `Types` | `types.ts`: `DiaryEntry`, the setting values, `Mood`; `date.split('T')[0]` |
| `db.dfy` | `Db` | `db.ts`: the two tables as the map fields of a `Database` class with the `++id` key generator, and the helper queries |
| `diary_editor.dfy` | `Editor` | `DiaryEditor.tsx`: the form as a class, the tag and image edits, `handleSave` |
| `diary_list.dfy` | `DiaryList` | `DiaryList.tsx`: `fetchData`, the year snap, the search filter |
| `app.dfy` | `App` | `App.tsx`: `handleHashChange`, `navigateTo` |
| `my_page.dfy` | `MyPage` | `MyPage.tsx`: loading and saving the profile, the storage-folder choice and its label, the background choice |
| `diary_viewer.dfy` | `Viewer` | `DiaryViewer.tsx`: the card background, the photo grid, the export file name and payload |

How the source's imperative parts are modelled:

- Component state (`useState`) becomes class fields.
- Event handlers become methods with `modifies` clauses.
- The Dexie tables become `map` fields that the store's methods reassign.
- Pure computations (filters, routing, labels, orderings) become functions.
- The properties about those functions are lemmas.

Asynchronous steps run in program order, so each handler is one method call.

Ordering of `getDiariesByYear`: `where('year').equals(y).reverse().sortBy('date')` reads the year's index in reverse key order and then stably sorts by date. For the dates this shows, the result is latest date first, and among equal dates the larger key first. `Db.Before` states that order.

Behaviours the model follows from the code:

- `navigateTo` looks up the entry id in its argument first and then in the selection as it was *before* the call. The React state update has not happened yet when the fragment is written.
- `fetchData` snaps the chosen year to the newest stored year when the chosen year has no entries. It still loads the entries of the year it started with; the year change runs the effect again.
- A fragment `#view/<x>` where `x` does not parse as a number asks the store for `NaN`. IndexedDB rejects that key, so the `.then` callback never runs and nothing changes.

## Model

| member | source | states |
|---|---|---|
| `Text.Split` | App.tsx:24 | `split` with a one-character separator: at least one piece, and no piece holds the separator |
| `Text.JoinSplit` | App.tsx:24 | joining the pieces with the separator gives the original string back |
| `Text.SplitWithoutSeparator` | components/DiaryEditor.tsx:17 | a string without the separator splits into itself alone |
| `Text.SplitAround` | App.tsx:23-24 | a separator between two strings splits their pieces apart |
| `Text.SplitJoin` | App.tsx:24 | splitting the join of separator-free pieces gives the pieces back (the other half of the round trip) |
| `Text.SplitSeveral` | components/DiaryViewer.tsx:51 | there is a second piece exactly when the separator occurs |
| `Text.SplitFirst` | components/DiaryEditor.tsx:17 | the first piece of `p + sep + q` is `p` when `p` has no separator |
| `Text.TrimStart` | components/DiaryEditor.tsx:70 | the result is a suffix, starts with a non-white-space character, and only white space was removed |
| `Text.TrimEnd` | components/DiaryEditor.tsx:70 | the result is a prefix, ends with a non-white-space character, and only white space was removed |
| `Text.BlankIffAllWhitespace` | components/DiaryList.tsx:36 | `!s.trim()` holds exactly when every character is white space |
| `Text.IncludesOccurs` | components/DiaryList.tsx:38 | what `includes` finds occurs at some position |
| `Text.OccursIncludes` | components/DiaryList.tsx:38 | an occurrence at any position is found by `includes` |
| `Text.IncludesIffOccurs` | components/DiaryList.tsx:38-39 | `includes` holds exactly when the query occurs at some position |
| `Text.StrLessIrreflexive` | db.ts:32 | no date string sorts before itself |
| `Text.StrLessAsymmetric` | db.ts:32 | two date strings never sort before each other |
| `Text.StrLessTransitive` | db.ts:32 | the string order is transitive |
| `Text.StrLessTotal` | db.ts:32 | of two different strings one sorts first |
| `Text.DigitPrefix` | App.tsx:24 | the digits `parseInt` reads are the longest prefix made only of digits: the character after it, if any, is not a digit |
| `Text.NatToString` | App.tsx:52 | the decimal notation of a natural number is non-empty and all digits |
| `Text.IntToString` | App.tsx:52 | the notation of an id is non-empty and holds no `/` |
| `Text.NatToStringValue` | App.tsx:52 | the digits written for `n` have the value `n` |
| `Text.DigitPrefixOfDigits` | App.tsx:24 | `parseInt` reads all of a string made only of digits |
| `Text.DecimalMagnitude` | App.tsx:24 | a run of decimal digits, with no hex prefix, reads as its decimal value |
| `Text.ParseNatDigits` | App.tsx:24 | `parseInt` of the notation of a natural number is that number |
| `Text.ParseNegativeDigits` | App.tsx:24 | `parseInt` of `-` followed by the notation of `m` is `-m` |
| `Text.ParseIntToString` | App.tsx:24 | `parseInt` of the decimal notation of any integer `n` gives `n` back |
| `Text.ParseInt` | App.tsx:24 | `NaN` for a blank string; a number only when the first non-blank character is a digit or a sign; a negative number only after `-` |
| `Text.DigitPrefixStops` | App.tsx:24 | the digits read stop at a `/` |
| `Text.TrimStartStops` | App.tsx:24 | leading white space is trimmed the same way whatever follows a `/` |
| `Text.ParseMagnitudeStops` | App.tsx:24 | the unsigned number read before a `/` ignores what follows it |
| `Text.UnsignedStops` | App.tsx:24 | removing the sign commutes with appending `/` and more text |
| `Text.ParseSignedStops` | App.tsx:24 | the signed number read before a `/` ignores what follows it |
| `Text.ParseIntStops` | App.tsx:23-24 | `parseInt(p + '/' + q)` is `parseInt(p)`: the rest of a fragment after the id does not change the id |
| `Text.SecondPiece` | components/DiaryViewer.tsx:51 | when the separator occurs, the second piece is the text after its first occurrence up to the next one or the end |
| `Seqs.Filter` | components/DiaryList.tsx:37-40 | the result is no longer than the input and holds exactly the input's elements that pass the test |
| `Seqs.FilterIsSubsequence` | components/DiaryEditor.tsx:188 | filtering keeps the order of what it keeps |
| `Seqs.FilterAppend` | components/DiaryList.tsx:37-40 | filtering distributes over concatenation |
| `Seqs.FilterCounts` | components/DiaryEditor.tsx:188 | every copy of a kept value stays and every copy of a dropped value goes |
| `Seqs.SubsequenceKeepsDistinct` | components/DiaryEditor.tsx:188 | a subsequence of a list without duplicates has none |
| `Seqs.SubsequenceElements` | components/DiaryList.tsx:37-40 | every element of a subsequence is in the original list |
| `Seqs.FilterLast` | components/MyPage.tsx:167 | the last element a filter keeps is the last element of the input that passes, with nothing passing after it |
| `Types.MoodButtonsDistinct` | components/DiaryEditor.tsx:139-147 | every mood has a button, and no two buttons carry the same mood or symbol |
| `Types.DatePart` | components/DiaryEditor.tsx:17 | `iso.split('T')[0]` is a prefix of the string without `T`, and a `T` follows it when it is shorter |
| `Types.DatePartOf` | components/DiaryEditor.tsx:17 | the date part of `day + "T" + time` is `day` |
| `Db.Database.constructor` | db.ts:9-17 | the store opens with both tables empty and the key generator at 1 |
| `Db.Database.SaveDiary` | db.ts:23-25 | `put` stores the entry under its own id or under a fresh key, writes that key into the entry, moves the key generator past the key, and keeps every stored entry's id equal to its key |
| `Db.Database.DeleteDiary` | db.ts:27-29 | the entry under the id is gone and every other entry is unchanged |
| `Db.Database.SetSetting` | db.ts:48-50 | reading the key returns the stored value, and every other key reads as before |
| `Db.GetSetting` | db.ts:43-46 | a present key returns its stored record, whatever it holds; a missing key returns the default |
| `Db.TextSetting` | db.ts:43-46 | a stored text value is returned; a missing key gives the default |
| `Db.FlagSetting` | db.ts:43-46 | a stored flag is returned; a missing key gives the default |
| `Db.SortDescending` | db.ts:38-39 | the result holds exactly the set's numbers, strictly decreasing |
| `Db.GetAllYears` | db.ts:35-40 | non-empty and strictly decreasing; with no entries it is the current year alone; otherwise it holds exactly the years of the stored entries |
| `Db.DescendingUnique` | db.ts:38-39 | two strictly decreasing lists with the same elements are equal |
| `Db.GetAllYearsUnique` | db.ts:35-40 | the year list is the one strictly decreasing list of the stored years |
| `Db.BeforeTransitive` | db.ts:32 | the listing order is transitive |
| `Db.BeforeAsymmetric` | db.ts:32 | the listing order never puts two keys each before the other |
| `Db.BeforeTotal` | db.ts:32 | of two different keys one is listed first |
| `Db.FirstKey` | db.ts:32 | the key listed first comes before every other key of the set |
| `Db.OrderKeys` | db.ts:32 | the keys of a set, each once, in listing order |
| `Db.GetDiariesByYear` | db.ts:31-33 | one entry per stored key of the year; each is a stored entry of that year; every stored entry of the year appears; dates never increase |
| `Editor.WithTag` | components/DiaryEditor.tsx:88-93 | the tag is appended exactly when it is non-empty and new; otherwise the list is unchanged; distinct tags stay distinct |
| `Editor.AppendCapped` | components/DiaryEditor.tsx:30 | at most nine images; the new image is kept exactly when there was room; the old images keep their order |
| `Editor.RemoveAt` | components/DiaryEditor.tsx:122 | removes exactly position `i`, shifting the later images down; an index outside the list changes nothing |
| `Editor.WithoutTag` | components/DiaryEditor.tsx:188 | the tag is gone, every other tag keeps its count, and the order is kept |
| `Editor.TagEditsKeepDistinct` | components/DiaryEditor.tsx:88-93 | adding or removing a tag keeps the tag list free of duplicates |
| `Editor.BuildEntry` | components/DiaryEditor.tsx:73-82 | the id is carried over exactly when it is truthy; a non-empty location is kept and an empty one becomes the `場所未設定` placeholder; date, year and the form fields are copied |
| `Editor.DiaryEditor.constructor` | components/DiaryEditor.tsx:14-20 | the form starts from the entry's fields with their defaults, or empty, dated today, with the first mood |
| `Editor.DiaryEditor.AddTag` | components/DiaryEditor.tsx:88-93 | the tags become `WithTag` of the typed tag, and the input is cleared only when a tag was added |
| `Editor.DiaryEditor.ImageLoaded` | components/DiaryEditor.tsx:29-31 | the images become the capped append of the loaded image |
| `Editor.DiaryEditor.RemoveImage` | components/DiaryEditor.tsx:122 | the images lose position `i` |
| `Editor.DiaryEditor.RemoveTag` | components/DiaryEditor.tsx:188 | the tags lose every copy of the tag |
| `Editor.DiaryEditor.SelectMood` | components/DiaryEditor.tsx:142 | the mood becomes the button's symbol |
| `Editor.DiaryEditor.HandleSave` | components/DiaryEditor.tsx:69-86 | nothing is written exactly when the content is blank or the date does not convert; otherwise the built entry is stored under its truthy id or a fresh key, the key generator moves past that key, and the store stays consistent |
| `DiaryList.FilteredEntries` | components/DiaryList.tsx:35-41 | a blank query shows all entries; otherwise exactly the entries whose content or some tag contains the query, in their order, each matching entry as many times as it occurs |
| `DiaryList.ContentHitIsShown` | components/DiaryList.tsx:37-38 | an entry whose lower-cased content contains the query at some position is shown |
| `DiaryList.SnapYear` | components/DiaryList.tsx:25-27 | with years loaded, the chosen year is one of them; a year that has entries is kept; a year without entries becomes the first listed year |
| `DiaryList.SnapToNewest` | components/DiaryList.tsx:24-27 | a year without entries is replaced by the newest year the store lists |
| `DiaryList.SnapYearSettles` | components/DiaryList.tsx:25-27 | snapping twice gives the same year, so the reload caused by the snap does not snap again |
| `DiaryList.DiaryListPage.constructor` | components/DiaryList.tsx:13-18 | the page starts on the current year, loading, with no entries and no search |
| `DiaryList.DiaryListPage.FetchData` | components/DiaryList.tsx:21-31 | years are the store's years; the chosen year is snapped into them; the entries are those of the year the load began with; loading ends |
| `DiaryList.DiaryListPage.SelectYear` | components/DiaryList.tsx:68 | the chosen year becomes the selected one |
| `DiaryList.DiaryListPage.StartSearch` | components/DiaryList.tsx:60 | search mode is on |
| `DiaryList.DiaryListPage.SetSearchQuery` | components/DiaryList.tsx:94 | the query becomes the typed text |
| `DiaryList.DiaryListPage.CancelSearch` | components/DiaryList.tsx:99-102 | search mode is off, the query is empty, and every loaded entry is shown |
| `App.RouteOf` | App.tsx:17-33 | `#list` and the empty fragment give the list, `#edit` the editor, `#settings` the settings page; exactly the fragments starting with `#view/` are entry lookups |
| `App.ViewId` | App.tsx:50-51 | the id comes from the argument when it is truthy, else from the selection; it is absent exactly when neither is truthy |
| `App.HashFor` | App.tsx:43-53 | a fragment is written for every screen except a view with no id, and it starts with `#` |
| `App.RouteOfHashFor` | App.tsx:41-54 | every fragment `navigateTo` writes is routed back to the requested screen, or to a lookup of the entry's id |
| `App.ViewRoute` | App.tsx:23-24 | `#view/<rest>`, for any `rest`, is a lookup of whatever `parseInt` gives for the piece of `rest` before its first `/` |
| `App.ViewHashRoundTrip` | App.tsx:52 | `#view/<id>` is routed to a lookup of `id` itself |
| `App.Shell.constructor` | App.tsx:11-12 | the shell starts on the list with nothing selected |
| `App.Shell.HandleHashChange` | App.tsx:15-34 | each route's effect: a screen is shown; a found entry is selected and shown; a missing one resets the fragment to `#list`; `NaN` and unknown fragments change nothing |
| `App.Shell.NavigateTo` | App.tsx:41-54 | a given entry argument (null included) becomes the selection; the fragment becomes the target's fragment, or stays when a view has no id |
| `MyPage.ReadProfile` | components/MyPage.tsx:31-43 | each of the five fields is the stored value when a value of its kind is stored under its key, and its default when the key is absent; with nothing stored, the page shows the defaults |
| `MyPage.WriteProfile` | components/MyPage.tsx:47-52 | after the five writes the profile reads back unchanged; exactly the five keys are added; other settings are untouched |
| `MyPage.FolderLabel` | components/MyPage.tsx:167 | when some piece of the path is non-empty, the label is the last non-empty piece; when every piece is empty, it is the `フォルダを選択` caption; it never holds `/` |
| `MyPage.NonEmptyPieces` | components/MyPage.tsx:167 | `filter(Boolean)` leaves nothing exactly when every piece is empty, and otherwise leaves last the last non-empty piece |
| `MyPage.PathCaption` | components/MyPage.tsx:169 | the path is shown when it is non-empty, else the `未設定` placeholder |
| `MyPage.DevicePath` | components/MyPage.tsx:89 | a chosen folder's path is `Device/`, then the folder name, then `/DiaryStorage/`, and is labelled `DiaryStorage` |
| `MyPage.FolderSegments` | components/MyPage.tsx:167 | the pieces of `prefix/folder/` are those of the prefix, then the folder, then an empty piece |
| `MyPage.TrailingFolderLabel` | components/MyPage.tsx:167 | a path ending in a non-empty folder name and a slash is labelled with that name |
| `MyPage.StorageLabel` | components/MyPage.tsx:89 | any path ending in `/DiaryStorage/` is labelled `DiaryStorage` |
| `MyPage.FolderClick` | components/MyPage.tsx:79-97 | native: no change; with a picker: a path exactly when a folder was picked, built from the picked folder's name; without one: the hidden input opens |
| `MyPage.FallbackFolder` | components/MyPage.tsx:99-105 | a path exactly when files were chosen, built from the first file's top folder, or from `選択したフォルダ` when that is empty; always labelled `DiaryStorage` |
| `MyPage.SettingsPage.constructor` | components/MyPage.tsx:19-24 | the page starts with the default name, avatar and background, an empty path and no saved notice |
| `MyPage.SettingsPage.LoadSettings` | components/MyPage.tsx:31-43 | the page's profile becomes the stored profile |
| `MyPage.SettingsPage.HandleSave` | components/MyPage.tsx:47-56 | the settings become `WriteProfile` of the page's profile, which reads back as the same profile; the saved notice shows |
| `MyPage.SettingsPage.SavedNoticeExpired` | components/MyPage.tsx:55 | the saved notice is hidden |
| `MyPage.SettingsPage.SetUserName` | components/MyPage.tsx:143 | the name becomes the typed text |
| `MyPage.SettingsPage.AvatarLoaded` | components/MyPage.tsx:62 | the avatar becomes the data URL and is then drawn as an image |
| `MyPage.SettingsPage.BackgroundImageLoaded` | components/MyPage.tsx:71-74 | the background becomes the image, and no colour preset is marked |
| `MyPage.SettingsPage.PickPreset` | components/MyPage.tsx:198-203 | the background becomes the colour, and exactly that preset is marked |
| `MyPage.SettingsPage.HandleFolderClick` | components/MyPage.tsx:79-97 | the path follows `FolderClick`, and the folder input is opened exactly in the no-picker case |
| `MyPage.SettingsPage.HandleFolderSelectFallback` | components/MyPage.tsx:99-105 | the path follows `FallbackFolder`, and after any choice the label is `DiaryStorage` |
| `Viewer.GridCols` | components/DiaryViewer.tsx:88-92 | one column exactly for one photo, two exactly for two or four, three otherwise |
| `Viewer.ExportFileName` | components/DiaryViewer.tsx:49 | `Diary-` + the part of the date before its first `T` + `.png`: that part holds no `T`, and a `T` follows it in the date when the date is longer |
| `Viewer.ExportFileNameOfIso` | components/DiaryViewer.tsx:71 | for a stored ISO date-time the file name carries its calendar date |
| `Viewer.NativePayload` | components/DiaryViewer.tsx:51 | the payload is absent exactly when the data URL has no comma; otherwise it is the text after the first comma up to the next comma or the end |
| `Viewer.PayloadOfDataUrl` | components/DiaryViewer.tsx:51 | the payload of `header,data` is `data` |
| `Viewer.CardStyleOf` | components/DiaryViewer.tsx:94-96 | an image background exactly when the image flag is set, with `url(...)` around the value; otherwise the value as colour |
| `Viewer.DiaryViewer.constructor` | components/DiaryViewer.tsx:18-19 | a white card until the background settings are loaded |
| `Viewer.DiaryViewer.LoadBackground` | components/DiaryViewer.tsx:21-27 | the background value and flag are read with their defaults |
| `Viewer.CardShowsSavedBackground` | components/DiaryViewer.tsx:94-96 | after the settings page saves a profile, the card shows that profile's background |

## Left out

- Dexie and IndexedDB internals are reduced to maps: asynchrony, transactions, schema versions and the `*tags` multi-entry index (db.ts:12). The index serves no query in the model.
- The model has no per-character case mapping. `toLowerCase` is a function parameter of the search.
- The model has no time zones. The editor's `new Date(date)` with `toISOString`/`getFullYear` is a parameter returning an optional `DateStamp`; `None` stands for an invalid date that throws. The clock (`new Date()`) is a parameter: an ISO string for the editor, a year for the list and the store.
- Db.GetAllYears: the current year for an empty table is a parameter rather than read from the clock.
- The geolocation lookup and reverse geocoding (DiaryEditor.tsx:36-67) are left out. They are network and device I/O; their only effect is a new location string, and that string enters the model through the form field.
- `FileReader`, `html2canvas`, the Capacitor file system and media plugins, `alert`, `console` and `setTimeout` are outside calls. The model keeps their inputs and the state their callbacks set (`ImageLoaded`, `AvatarLoaded`, `BackgroundImageLoaded`, `SavedNoticeExpired`, `NativePayload`, `ExportFileName`).
- Rendering is not modelled (JSX, class names, `formatDate`, `toLocaleDateString`). The only render-time values modelled are the ones that decide behaviour: the shown entries, the grid columns, the card style, the folder label and caption, the marked preset and the avatar kind.
- `capacitor.config.ts` is configuration only; `capacitor.config.ts` is not part of this model.
- Strings are sequences of Unicode scalar values, while JavaScript strings are UTF-16 code units. Lengths and positions differ for characters outside the Basic Multilingual Plane. No modelled decision depends on such a length.
- Numbers are unbounded integers. JavaScript numbers are doubles, so ids and years beyond 2^53 are not modelled.
- App.Shell.NavigateTo: a browser fires `hashchange` after the fragment is written, and only when its value changes. The model leaves that event to a separate `HandleHashChange` call; `App.RouteOfHashFor` states what that call then does.
- App.Shell.HandleHashChange: the store lookup is synchronous in the model. A second fragment change while the lookup is pending is not modelled.
- Db.TextSetting: a settings value is a string or a boolean. A value of the other kind under a key reads as the default, while the source would return it as is. The page only ever stores strings under the text keys and a boolean under `bg_is_image`.
- Db.FlagSetting: same restriction as `Db.TextSetting`, for the boolean key.
- MyPage.ReadProfile: inherits the restriction of `Db.TextSetting` and `Db.FlagSetting`: a stored value of the wrong kind reads as the field's default.
