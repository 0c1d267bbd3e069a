# passbook in Dafny

passbook is a password manager that comes in two front ends. The Electron "pass"
store decrypts `.gpg` files from a password-store directory. The Go terminal app keeps
an encrypted vault of entries (logins, cards, notes) in folders, imports them from
Bitwarden, 1Password and LastPass exports, and guards the vault with a PIN and a
TOTP second factor.

This project models the logic at the core of both front ends, with one Dafny module
per source file:

- `ContentParser`, `Totp`, `StoreIndex` cover the Electron store:
  - the `key: value` credential format and its parser;
  - the OTP countdown;
  - the directory walk behind the menu and the search list;
  - the view stack and the order of the git calls of a sync.
- `ImporterCommon`, `Bitwarden`, `OnePassword`, `LastPass` cover the importers:
  - the entry each export item becomes;
  - title sanitising;
  - custom-field and note formatting;
  - the name-collision suffix loop;
  - the imported/skipped counts.
- `Password`, `PasswordGen`, `StrengthBar` cover the two password generators, the
  strength score and the strength meter.
- `CryptoParams`, `CryptoAead`, `CryptoWalk` cover the vault key-derivation
  parameters:
  - their stored form and defaults;
  - the rehash decision and the order of a rehash;
  - the length guards of encryption;
  - the walks that decide whether a vault has entries and re-key it.
- `Editor`, `EditorCard`, `EditorLogin`, `Folder`, `Tree`, `Pin` cover the
  terminal UI:
  - field validation and input acceptance;
  - how a form becomes an entry;
  - the save and rename rules;
  - folder rename and delete;
  - the folder tree;
  - the PIN and TOTP screens.
- `Directory` and `Config` cover the older file list and the configuration file.

Shared modules:

- `Wrappers` (Option, Result);
- `Text` (Go and JavaScript string functions on `seq<char>`);
- `Bytes`;
- `Vault`: the entry record, and a file store as a map from path to entry.

Two rules hold throughout:

- Every operation with side effects takes its environment as input. This covers
  directory listings, file contents, clock readings, random draws, git outcomes and
  cryptographic primitives.
- Where the code keeps state in place, the model keeps it in place too: the UI
  globals and the controller are classes, and loops are methods with invariants.

## Model

| member | source | states |
|---|---|---|
| Config.ExpandPath | internal/config/config.go:14-20 | a path starting with `~/` becomes `join(home, rest)`; any other path is returned unchanged |
| Config.ExpandPathNeedsSlash | internal/config/config.go:15 | a bare `~` and `~name/…` are not expanded |
| Config.ExpandPathIdempotent | internal/config/config.go:14-20 | expanding twice equals expanding once when the joined path does not itself start with `~/` |
| Config.LoadOrInit | internal/config/config.go:27-40 | the stored data directory is kept when the file parses and the directory is non-empty; otherwise it is `~/.passbook/data`; the result is never empty |
| Config.LoadOrInitStable | internal/config/config.go:27-40 | the configuration written back is the one the next start loads |
| Directory.UpdateList | utils/directory.go:24-40 | an unreadable directory gives the empty list; otherwise the entries without a leading dot, in directory order |
| Directory.ShownNamesIff | utils/directory.go:32-38 | a name is listed exactly when it is an entry and does not start with `.` |
| Directory.ShownNamesIdempotent | utils/directory.go:32-38 | filtering a listing again changes nothing |
| Directory.ShownNamesIsSubsequence | utils/directory.go:32-38 | the listing keeps the directory's order |
| Directory.GetFilteredList | utils/directory.go:42-54 | a term of at most 2 bytes returns the list unchanged; a longer term keeps the items whose lower-cased text contains it, in order |
| Directory.MatchingIff | utils/directory.go:45-49 | an item is kept exactly when it is in the list and its lower-cased text contains the term |
| Directory.MatchingIsSubsequence | utils/directory.go:45-49 | the filtered list is a sub-list of the input |
| Directory.UppercaseTermMatchesNothing | utils/directory.go:46 | only the item is lower-cased, so a term with an upper-case letter matches nothing |
| Totp.CeilDiv | src/app/lib/totp.js:10 | `Math.ceil(a / b)`: the least multiple of `b` at or above `a` |
| Totp.RemainingTime | src/app/lib/totp.js:8-13 | the countdown is below 30, lands on a multiple of 30 and is 0 exactly at a step boundary |
| Totp.RemainingTimeIsLeast | src/app/lib/totp.js:8-13 | no smaller wait reaches a step boundary |
| Totp.RemainingTimeByRemainder | src/app/lib/totp.js:8-13 | the countdown equals `(30 - now mod 30) mod 30` |
| Totp.GetOtpInfo | src/app/lib/totp.js:3-26 | none exactly for an empty URL; an error exactly when the URL is set and `generateOTP` throws on it; otherwise the URL, the code generated from it and the current countdown |
| StoreIndex.PathJoin | src/app/app.js:25 | the item path starts with the directory and ends with the entry name |
| StoreIndex.LeafName | src/app/app.js:29 | the menu name is a prefix of the file name, and the whole name when it has no `.gpg` |
| StoreIndex.LeafItemsAreLeaves | src/app/app.js:27-34 | only files are pushed onto `flatNames`, never directories |
| StoreIndex.LeafItemsAppend | src/app/app.js:21-45 | the leaves of a concatenated listing are the concatenated leaves |
| StoreIndex.TreeSkipsHidden | src/app/app.js:22-24 | an entry whose name starts with `.` adds nothing to the menu |
| StoreIndex.TreeShownUnder | src/app/app.js:19-46 | every menu item at every depth sits at `dir/name` under its parent, with a name that is not hidden |
| StoreIndex.ColorOf | src/app/app.js:61-67 | blue exactly from 20 seconds up, orange exactly below 10, green between |
| StoreIndex.SyncPlan | src/app/app.js:106-124 | offline makes no git call; otherwise `status` first, then `pull` exactly when clean and `push` exactly when not |
| StoreIndex.Performed | src/app/app.js:108-124 | the calls made are a prefix of the plan |
| StoreIndex.PerformedStopsAtRejection | src/app/app.js:108-124 | every call before the last one made succeeded, and the whole plan runs exactly when no call before the last is rejected |
| StoreIndex.RunGit | src/app/app.js:108-124 | the awaited calls are the plan up to and including the first rejection; success exactly when none was rejected |
| StoreIndex.MainController.constructor | src/app/app.js:48-57 | the menu is the walk of the store, the stack is empty and `flatNames` holds every leaf |
| StoreIndex.MainController.Walk | src/app/app.js:19-46 | `getAllCredentials` returns the menu of the listing and appends its leaves, in pre-order, to `flatNames` |
| StoreIndex.MainController.WalkItem | src/app/app.js:21-44 | one entry: skipped when hidden, a leaf that is also pushed to `flatNames`, or a branch whose children are walked |
| StoreIndex.MainController.OpenDirectory | src/app/app.js:69-78 | the current view is pushed and the directory's children are shown; the credential is cleared and the countdown stops |
| StoreIndex.MainController.OpenFile | src/app/app.js:79-98 | the credential parsed from the decrypted content is shown; a failed decryption or a throwing `getCredentialObject` leaves no credential; the countdown runs exactly when the credential has an OTP code, with its colour; the stack and menu are unchanged |
| StoreIndex.MainController.Tick | src/app/app.js:87-97 | the countdown drops by one; at zero a fresh code is generated and the countdown restarts at 30; the colour follows; the tick throws with no credential shown or when the code cannot be generated, keeping the old code |
| StoreIndex.NextCountdown | src/app/app.js:88-95 | one tick: `r - 1` above 1, otherwise back to 30 |
| StoreIndex.CountdownCycles | src/app/app.js:87-97 | from any value in 1..30, after `k` ticks the countdown is `(r - 1 - k) mod 30 + 1`, so it repeats every 30 ticks |
| StoreIndex.MainController.Back | src/app/app.js:102-104 | the view is popped from the stack; an empty stack shows `undefined` |
| StoreIndex.MainController.Search | src/app/app.js:139-154 | an empty term pops one level when the stack is non-empty; a term of 1–2 UTF-16 units does nothing; a longer term pushes the view and shows the matches |
| StoreIndex.MainController.Rebuild | src/app/app.js:125-126 | the menu is rebuilt from the listing, and all leaves are appended to `flatNames` again; stack, credential and countdown are untouched |
| StoreIndex.MainController.Sync | src/app/app.js:106-129 | the git calls are the plan up to the first rejection; the menu is rebuilt only when all of them succeed |
| StoreIndex.MainController.DeleteCredential | src/app/app.js:167-172 | a failing unlink changes nothing; otherwise the credential is cleared, the menu is rebuilt from the listing without the file at the item's path, `flatNames` gains the old leaves minus that path, and the countdown keeps running |
| StoreIndex.DropPath | src/app/app.js:168 | the items kept are exactly those whose path is not the unlinked one |
| StoreIndex.DropPathAppend | src/app/app.js:168 | dropping a path distributes over concatenation |
| StoreIndex.TreeAppend | src/app/app.js:19-48 | the walk of two listings is the walk of each, concatenated |
| StoreIndex.UnlinkLeaves | src/app/app.js:168-171 | after the unlink the walk finds the leaves it found before, in order, minus those at the unlinked path |
| StoreIndex.UnlinkNodeLeaves | src/app/app.js:168-171 | the same for one file, directory or other node of the listing |
| StoreIndex.UnlinkFileLeaves | src/app/app.js:168-171 | the file case: the file's leaf disappears exactly when its path is the unlinked one |
| StoreIndex.UnlinkDirLeaves | src/app/app.js:168-171 | the directory case, given the result for its children |
| StoreIndex.DeletedNotListed | src/app/app.js:167-172 | after a delete no leaf of the rebuilt menu has the deleted path, and every other leaf is still listed |
| StoreIndex.Utf16Length | src/app/app.js:147 | `length` counts UTF-16 units: between one and two per character, zero only for the empty string, one per character below U+10000 |
| ContentParser.Lines | src/app/lib/content-parser.js:59 | `split('\n')` yields at least one line and no line holds a newline |
| ContentParser.JoinLines | src/app/lib/content-parser.js:59 | joining the split lines with newlines gives the text back |
| ContentParser.LinesOfUnlines | src/app/lib/content-parser.js:3-31 | splitting newline-terminated lines gives those lines and one empty last line |
| ContentParser.WriteHeader | src/app/lib/content-parser.js:4-21 | the text written is the password line (empty when unset), then the `username:`, `url:` and `otpauth://` lines for the values that are set, in that order |
| ContentParser.WriteExtraLines | src/app/lib/content-parser.js:23-29 | one `key: value` line per entry whose key is not excluded and whose value is set, in entry order |
| ContentParser.CreateContentString | src/app/lib/content-parser.js:3-31 | `createContentString` writes the header lines and then the extra lines |
| ContentParser.ContentStringStartsWithPassword | src/app/lib/content-parser.js:6-10 | the written text starts with the password and a newline |
| ContentParser.OutLinesNewlineFree | src/app/lib/content-parser.js:3-31 | when no value holds a newline, no written line does |
| ContentParser.SplitSecond | src/app/lib/content-parser.js:37 | `split(sep)[1]` is missing exactly when `sep` does not occur, and otherwise starts right after its first occurrence |
| ContentParser.GetCredValue | src/app/lib/content-parser.js:33-42 | the value holds no newline; it is empty when `key:` does not occur; otherwise it is the whole text after the first `key:` up to its first newline (or to the next `key:`, as `split` gives) |
| ContentParser.GetCredValueOfLine | src/app/lib/content-parser.js:33-42 | a `key:v` line with no earlier `key:` yields `v` |
| ContentParser.GetNote | src/app/lib/content-parser.js:44-56 | an empty value leaves the notes unchanged (missing becomes empty) |
| ContentParser.Classify | src/app/lib/content-parser.js:68-73 | a line is plain exactly when it holds no colon; otherwise its key is the text before the first colon |
| ContentParser.GetCredentialObject | src/app/lib/content-parser.js:58-103 | the result is `CredentialOf` the content; it throws exactly when the last `otpauth` line is set and cannot be turned into a code; otherwise the first line is the password and `raw` is the input |
| ContentParser.ScanLine | src/app/lib/content-parser.js:67-90 | one iteration of the line loop equals one fold step |
| ContentParser.StepByKind | src/app/lib/content-parser.js:75-89 | the fold step follows the branch for the line's kind |
| ContentParser.FoldKeepsLastField | src/app/lib/content-parser.js:76-83 | `username` and `url` hold the value of the last line that sets them |
| ContentParser.FoldKeepsLastOtpLine | src/app/lib/content-parser.js:79-80 | the OTP URL is the last `otpauth` line |
| ContentParser.FoldCollectsNotes | src/app/lib/content-parser.js:77-89 | the notes are the non-empty note contributions of the lines, joined by newlines, and are missing when there are none |
| ContentParser.LastKeyed | src/app/lib/content-parser.js:82 | a field that was set comes from a line with that key |
| ContentParser.LastOtpLine | src/app/lib/content-parser.js:80 | a non-empty OTP URL is a line of the input with key `otpauth` |
| ContentParser.ClassifyFieldLine | src/app/lib/content-parser.js:13-27 | a written `key: value` line reads back with that key and, for a trimmed value, that value |
| ContentParser.ClassifyOtpLine | src/app/lib/content-parser.js:20 | the written `otpauth://` line reads back with key `otpauth` |
| ContentParser.ScanOfContentString | src/app/lib/content-parser.js:3-103 | the line loop over written text recovers the username, the url, the `otpauth` line and, as notes, the extra lines |
| ContentParser.ParseContentString | src/app/lib/content-parser.js:3-103 | round trip: parsing what `createContentString` wrote fails exactly when `otpToken` is set and its otpauth line yields no code; otherwise it gives back the password, the username and url (missing when unset), the OTP info for `otpToken`, and the extra lines as notes |
| Vault.NewEntry | internal/importer/bitwarden.go:155-158 | a fresh entry carries its type, title and notes, with every other field empty |
| Vault.SuffixNameInjective | internal/importer/common.go:63 | different counters give different `title_n.pb` names |
| Vault.FirstFreeUnique | internal/importer/common.go:60-69 | only one counter is the first free one |
| Vault.FirstFreeSuffix | internal/importer/common.go:60-69 | when the names Stat does not report missing form a finite set, the counter loop stops at the least `n >= 1` whose `title_n.pb` is free |
| Vault.FirstFreeIsLoopStop | internal/importer/common.go:60-69 | with Stat's reports given name by name, the first free counter is where the loop as written stops |
| Vault.PersistentStatErrorLoops | internal/importer/common.go:60-69 | when Stat fails with an error other than not-exist for every candidate, no counter stops the loop as written |
| Vault.ChooseFileNameChecked | internal/importer/common.go:57-69 | the collision rule with Stat errors reported: the plain name when missing, otherwise the first counter whose name is not present; an error exactly when Stat fails on the name the rule would use |
| Vault.ChooseFileName | internal/importer/common.go:57-69 | the name chosen is never taken: `title.pb` when free, otherwise the first free `title_n.pb` |
| Vault.FreshWritesAppend | internal/importer/common.go:85-91 | writing under a free name extends a batch that never overwrites, and counts one more import |
| Vault.FreshWritesSkip | internal/importer/common.go:44-47 | a skipped position leaves the batch and the import count as they were |
| ImporterCommon.ReplaceChar | internal/importer/common.go:102-105 | an allowed character is kept; a forbidden one is deleted, or becomes `-` |
| ImporterCommon.ReplaceForbidden | internal/importer/common.go:102-106 | the result holds no forbidden character, is never longer, and a text without one is unchanged |
| ImporterCommon.SanitizeTitle | internal/importer/common.go:100-111 | the result holds no forbidden character and is never `.` or `..` |
| ImporterCommon.SanitizeCleanTitle | internal/importer/common.go:100-111 | a clean title passes through unchanged |
| ImporterCommon.CleanOfSanitizeFixed | internal/importer/common.go:100-111 | a title that passes through unchanged is clean |
| ImporterCommon.SanitizeTitleFixed | internal/importer/common.go:100-111 | a title is left unchanged exactly when it is clean |
| ImporterCommon.SanitizeTitleNotIdempotent | internal/importer/common.go:101-106 | trimming happens before deletion, so `"a :"` becomes `"a "`, and that changes again to `"a"` |
| ImporterCommon.StoredTitle | internal/importer/common.go:51-54 | the stored title is non-empty, free of forbidden characters and never `.`/`..`; it is the sanitised title unless that is empty, and then `Untitled` |
| ImporterCommon.FormatCustomFields | internal/importer/common.go:113-127 | `formatCustomFields` returns the custom-fields block of the pairs |
| ImporterCommon.FieldLinesAppend | internal/importer/common.go:118-122 | field lines distribute over concatenation of the pairs |
| ImporterCommon.FieldLinesEmpty | internal/importer/common.go:118-122 | no line is produced exactly when every pair has both halves empty |
| ImporterCommon.CustomFieldsTextEmpty | internal/importer/common.go:113-127 | the block is empty exactly when every pair is empty; otherwise it starts with `Custom Fields:` and a newline |
| ImporterCommon.AppendNotes | internal/importer/common.go:129-137 | the result starts with the existing notes and ends with the extra notes; it is empty exactly when both are; an empty side gives the other side |
| ImporterCommon.AppendNotesAssociative | internal/importer/common.go:129-137 | successive appends do not depend on grouping |
| ImporterCommon.ImportedAtExtend | internal/importer/common.go:43-92 | recording one position keeps the records of the earlier positions |
| ImporterCommon.SaveEntries | internal/importer/common.go:17-98 | a setup failure writes nothing. Otherwise every position is either imported or skipped. A position writes exactly when its entry is present and its write does not fail, and then writes the entry under its stored title, to `title.pb` when that name is free among the files that existed and the earlier writes, otherwise to `title_n.pb` for the first free `n`. No existing file is overwritten, no two writes share a file, and `imported` counts the writes |
| ImporterCommon.ChosenNameFor | internal/importer/common.go:57-69 | the name the writer picks is the one the collision rule gives |
| ImporterCommon.NameForUnique | internal/importer/common.go:57-69 | the collision rule gives exactly one name for a title and a set of taken names |
| Bitwarden.FieldPairs | internal/importer/bitwarden.go:238-242 | one (name, value) pair per custom field, in order |
| Bitwarden.FormatFields | internal/importer/bitwarden.go:233-247 | `formatFields` builds the same block as `formatCustomFields` on the field pairs |
| Bitwarden.Expiry | internal/importer/bitwarden.go:206-212 | the expiry is empty exactly when month and year both are; it starts with the month and ends with the year when they are given |
| Bitwarden.ExpiryMonth | internal/importer/bitwarden.go:207 | with both parts given and no `/` in the month, the text before the first `/` is the month |
| Bitwarden.HistoryOf | internal/importer/bitwarden.go:168-173 | one history record per exported record, in order, with its password and last-used date |
| Bitwarden.InlineAppendIsAppendNotes | internal/importer/bitwarden.go:175-180 | the inline `"\n\n"` append equals `appendNotes` |
| Bitwarden.ConvertItem | internal/importer/bitwarden.go:151-231 | `convertItem` builds the entry and sub-directory the declarative conversion gives |
| Bitwarden.ConvertedKinds | internal/importer/bitwarden.go:152-230 | kinds 1, 2 and 3 give a Login, a Note and a Card under `logins`, `notes` and `cards`, titled with the item name; any other kind gives nothing |
| Bitwarden.ConvertedNotes | internal/importer/bitwarden.go:157-225 | the notes start with the exported notes and end with the custom-fields block; with only empty fields and no cardholder they are the exported notes |
| Bitwarden.ConvertedHistory | internal/importer/bitwarden.go:167-173 | a login keeps its password history in order, one record per exported record |
| Bitwarden.NamesUnder | internal/importer/bitwarden.go:109-121 | the names taken in a sub-directory are exactly the files in it |
| Bitwarden.ImportedAtExtend | internal/importer/bitwarden.go:90-144 | recording one position keeps the records of the earlier positions |
| Bitwarden.NotBlockedExtend | internal/importer/bitwarden.go:97-100 | an item whose directory exists or can be made extends the run of unblocked items |
| Bitwarden.SaveConverted | internal/importer/bitwarden.go:102-143 | one converted item is written under its stored title, unless its write fails, to `title.pb` when that is free in its sub-directory, otherwise to the first free `title_n.pb`; no file is overwritten |
| Bitwarden.ImportBitwarden | internal/importer/bitwarden.go:63-149 | a setup failure writes nothing. A sub-directory that cannot be made ends the import with an error at that item, keeping the earlier writes. Otherwise every item is imported or skipped. An item writes exactly when it converts and its write does not fail, and then writes the stored entry into its kind's sub-directory, as `title.pb` when that is free among the sub-directory's earlier files and the earlier writes, otherwise as the first free `title_n.pb`. No file is overwritten, and `imported` counts the writes |
| OnePassword.LastDesignatedIs | internal/importer/onepassword.go:89-96 | the last field with a designation decides the username or password |
| OnePassword.LastDesignatedNone | internal/importer/onepassword.go:89-96 | without a field of that designation the value stays empty |
| OnePassword.FillNamedKeeps | internal/importer/onepassword.go:136-157 | a section field never replaces a card value that is already non-empty |
| OnePassword.FillNamedFirst | internal/importer/onepassword.go:136-157 | from an empty value, the first non-empty section field of that name fills it |
| OnePassword.FillNamedEmpty | internal/importer/onepassword.go:136-157 | when every section field of that name is empty, the value stays empty |
| OnePassword.DesignatedFields | internal/importer/onepassword.go:89-96 | the loop over the top-level fields yields the last username and the last password |
| OnePassword.SectionOtp | internal/importer/onepassword.go:100-104 | the loop over one section keeps the last OTP field (type `OTP`, ID `TOTP` or name `one-time password`) |
| OnePassword.LoginFields | internal/importer/onepassword.go:89-105 | a login's username, password and TOTP secret are the last matching fields |
| OnePassword.NamedCardFields | internal/importer/onepassword.go:123-134 | the loop over the top-level fields yields the last `ccnum`, `cvv`, `expiry` and `cardholder` values |
| OnePassword.FillCardSection | internal/importer/onepassword.go:137-156 | the loop over one section's fields fills each card value only while it is empty |
| OnePassword.CardFields | internal/importer/onepassword.go:122-157 | each card value is the top-level value, or, when that is empty, the section value that fills it |
| OnePassword.ExtraPairs | internal/importer/onepassword.go:213-230 | there are never more extra pairs than section fields |
| OnePassword.ExtraPairsAppend | internal/importer/onepassword.go:213-230 | the extra pairs distribute over concatenation of the fields |
| OnePassword.ExtraPairsNonEmpty | internal/importer/onepassword.go:221-228 | every collected pair has a non-empty value, so `formatCustomFields` keeps a line for each pair |
| OnePassword.CollectExtraFields | internal/importer/onepassword.go:206-232 | `collect1PasswordExtraFields` yields, in order, a (label, value) pair for each section field that is not skipped, not an OTP and not empty; the label is the name, or the ID when there is no name |
| OnePassword.ConvertItem | internal/importer/onepassword.go:80-202 | `convert1PasswordItem` builds the entry and sub-directory the declarative conversion gives |
| OnePassword.ConvertedCategories | internal/importer/onepassword.go:81-201 | a login for `001` and a card for `002`; every other category gives a note under `notes`; nothing only for an unknown category with an empty title; the title is the item's |
| OnePassword.CardNumberSource | internal/importer/onepassword.go:123-150 | a top-level card number is never replaced; otherwise the first non-empty section `ccnum` is used |
| OnePassword.AlignedAppend | internal/importer/onepassword.go:69-72 | one conversion extends the three parallel lists in step |
| OnePassword.AlignedConcat | internal/importer/onepassword.go:66-75 | concatenated aligned lists stay aligned |
| OnePassword.ConvertItems | internal/importer/onepassword.go:68-73 | one entry, sub-directory and title per item of a vault, in order |
| OnePassword.FlattenItems | internal/importer/onepassword.go:63-75 | the nested loops yield one entry, sub-directory and title per item, account after account and vault after vault |
| OnePassword.Import1Password | internal/importer/onepassword.go:63-77 | a setup failure writes nothing. Otherwise there is one outcome per flattened item. An item writes exactly when it converts and its write does not fail. It then writes its stored entry as `title.pb` when that is free among the existing files and the earlier writes, otherwise as the first free `title_n.pb`. No file is overwritten |
| LastPass.HeaderKeys | internal/importer/lastpass.go:51-53 | each header cell's key is the cell trimmed and lower-cased, position by position |
| LastPass.ColumnIndex | internal/importer/lastpass.go:49-55 | every header key is indexed, at the position of the last cell with that key |
| LastPass.ColumnIndexStep | internal/importer/lastpass.go:51-53 | one more header cell maps its key to its own position |
| LastPass.BuildColumnIndex | internal/importer/lastpass.go:49-55 | `buildColumnIndex` builds the column index of the header keys |
| LastPass.ColVal | internal/importer/lastpass.go:57-62 | an unknown column, or an index past the end of the row, reads `""` |
| LastPass.ColValUnderHeader | internal/importer/lastpass.go:49-62 | a row reads the cell under the last header cell with that key, or `""` when the row is too short |
| LastPass.ColValMissing | internal/importer/lastpass.go:57-62 | a column that no header cell names reads `""` |
| LastPass.SecureNoteCaseInsensitive | internal/importer/lastpass.go:105-113 | the `Secure Notes` group is matched without regard to letter case |
| LastPass.ConvertRowCases | internal/importer/lastpass.go:64-103 | a row is dropped exactly when name, username, password and extra are all empty. Otherwise it becomes a secure note (URL `http://sn` or the group `Secure Notes`) under `notes`, or a login under `logins` that keeps its columns and is titled by its URL when it has no name |
| LastPass.ConvertRows | internal/importer/lastpass.go:36-44 | one converted entry and one name per data row, in order |
| LastPass.ImportLastPass | internal/importer/lastpass.go:29-46 | fewer than two records is an error and writes nothing. Otherwise there is one outcome per data row. A row writes exactly when it converts and its write does not fail. It then writes its stored entry as `title.pb` when that is free among the existing files and the earlier writes, otherwise as the first free `title_n.pb`. No file is overwritten |
| Password.LengthScore | internal/utils/password.go:53-66 | the length score is at most 40 |
| Password.LengthScoreMonotone | internal/utils/password.go:53-66 | a longer password never gets a lower length score |
| Password.ClassOf | internal/utils/password.go:70-81 | each rune falls in exactly one of four classes, examined in `switch` order: lower case exactly for `a`–`z`, digit exactly for a digit |
| Password.HasClass | internal/utils/password.go:69-81 | a class flag is set exactly when some rune is of that class |
| Password.Variety | internal/utils/password.go:82-95 | between 0 and 4 classes, and at least one for a non-empty password |
| Password.Distinct | internal/utils/password.go:98-101 | the keys of the `unique` map are exactly the runes of the password |
| Password.DistinctAtMost | internal/utils/password.go:98-102 | never more distinct runes than runes |
| Password.DistinctAllDifferent | internal/utils/password.go:98-102 | pairwise different runes are all counted |
| Password.UniqueScore | internal/utils/password.go:102-113 | the uniqueness score is at most 20 |
| Password.AllDifferentFullUnique | internal/utils/password.go:97-113 | an ASCII password of pairwise different runes gets the full 20 |
| Password.Runs | internal/utils/password.go:126-132 | at most one run per rune |
| Password.RunsNone | internal/utils/password.go:128-132 | no neighbouring code points means no run |
| Password.Penalty | internal/utils/password.go:115-135 | the penalty is at most 30 |
| Password.RawAtMost100 | internal/utils/password.go:137-143 | the unclamped sum never exceeds 100, so only the lower clamp can apply |
| Password.StrengthShape | internal/utils/password.go:46-161 | only the empty password scores `Empty` (with 0 and `""`); every score lies in 0..100 and is the clamped sum; the label names the level |
| Password.LevelMonotone | internal/utils/password.go:145-158 | a higher score never gives a lower level |
| Password.LevelThresholds | internal/utils/password.go:145-158 | `Strong` exactly from 70, `Good` in 50..69, `Fair` in 30..49, `Weak` below 30 |
| Password.ClassFlags | internal/utils/password.go:69-81 | the rune loop sets each flag exactly when its class is present |
| Password.CommonWordPenalty | internal/utils/password.go:116-124 | 20 exactly when the lower-cased password contains a common word |
| Password.CountRuns | internal/utils/password.go:126-132 | the loop counts the neighbouring pairs of adjacent code points |
| Password.UniqueRunes | internal/utils/password.go:98-101 | the map loop collects exactly the distinct runes |
| Password.LengthPoints | internal/utils/password.go:54-66 | the `switch` computes the length score |
| Password.VarietyPoints | internal/utils/password.go:69-95 | ten points per class present |
| Password.UniquePoints | internal/utils/password.go:98-113 | the uniqueness score of the distinct-rune ratio |
| Password.PenaltyPoints | internal/utils/password.go:115-135 | the common-word and run deductions |
| Password.SumOfScores | internal/utils/password.go:51-137 | the sum before clamping |
| Password.PasswordStrength | internal/utils/password.go:46-161 | `PasswordStrength` returns the score, level and label of the scoring rules |
| Password.Charset | internal/utils/password.go:11-23 | the character set is never empty |
| Password.CharsetMembers | internal/utils/password.go:11-23 | with some flag set, the set holds exactly the upper-case, lower-case and special characters that were asked for; with none, exactly lower case and digits |
| Password.BuildCharset | internal/utils/password.go:11-23 | the appends build the character set of the flags |
| Password.DrawFrom | internal/utils/password.go:25-29 | the byte array holds, at each position, the character at the drawn index |
| Password.GeneratePassword | internal/utils/password.go:10-31 | the password has the requested length, and each character is taken from the character set at the drawn index |
| PasswordGen.CharSet | utils/passwordgen.go:18-27 | the set always starts with the 26 lower-case letters |
| PasswordGen.CharSetLayout | utils/passwordgen.go:18-27 | each enabled part sits at its fixed offset, in the order lower case, upper case, digits, specials; a disabled part is absent |
| PasswordGen.CharSetHolds | utils/passwordgen.go:18-27 | every lower-case letter, and every character of an enabled part, is in the set |
| PasswordGen.BuildCharSet | utils/passwordgen.go:18-27 | the appends build the character set of the flags |
| PasswordGen.GeneratePassword | utils/passwordgen.go:17-38 | `max(length, 0)` characters, each taken from the character set at the drawn index |
| StrengthBar.Filled | internal/ui/strength.go:76-79 | between 0 and 15 segments: none for score 0, at least one for any positive score, all 15 at 100 |
| StrengthBar.FilledMonotone | internal/ui/strength.go:76-79 | a higher score never fills fewer segments |
| StrengthBar.CountConcat | internal/ui/strength.go:82-86 | segment counts add up over concatenation |
| StrengthBar.CountRepeat | internal/ui/strength.go:83-84 | `strings.Repeat` of a segment `n` times holds `n` segments |
| StrengthBar.BarSegments | internal/ui/strength.go:80-86 | the filled and the grey part together hold exactly 15 segments |
| StrengthBar.BarEnds | internal/ui/strength.go:82-86 | the bar opens with the colour tag and the filled segments, and closes with the colour tag, the label and `[-]` |
| StrengthBar.BarShape | internal/ui/strength.go:55-87 | the empty password shows nothing. Any other password shows the bar of its level's colour and its label, with `score * 15 / 100` segments filled (at least one) out of exactly 15 |
| StrengthBar.Meter.constructor | internal/ui/strength.go:22-24 | a new meter has no views |
| StrengthBar.Meter.AddTo | internal/ui/strength.go:29-36 | one fresh view is appended to the form's items and to the meter's views |
| StrengthBar.Meter.NewTextView | internal/ui/strength.go:40-44 | one fresh view is appended to the meter and returned |
| StrengthBar.Meter.Update | internal/ui/strength.go:47-52 | every attached view shows the bar of the password |
| CryptoParams.NeedsRehashIff | internal/crypto/crypto.go:124-130 | no rehash is needed exactly when time is at least 6, memory at least 262144 KiB and threads at least 4 |
| CryptoParams.NeedsRehashMonotone | internal/crypto/crypto.go:126-130 | raising a cost parameter never makes a rehash needed |
| CryptoParams.MarshalDefaults | internal/crypto/crypto.go:132-141 | version, KDF and cipher are filled in when missing and kept otherwise; every other field is untouched |
| CryptoParams.MarshalDefaultsIdempotent | internal/crypto/crypto.go:132-141 | filling the defaults twice equals filling them once |
| CryptoParams.HashOfDefaulted | internal/crypto/crypto.go:132-160 | parameters hash like their defaulted form |
| CryptoParams.BackFill | internal/crypto/crypto.go:203-220 | each zero or empty field gets its default (version 1, the recommended cost, `argon2id`, `aes-256-gcm`); salt and purposes are kept |
| CryptoParams.BackFillFixed | internal/crypto/crypto.go:203-220 | back-filled parameters have no zero field, back-filling them again changes nothing, and they already carry the marshalling defaults |
| CryptoParams.BackFillOfZeroCost | internal/crypto/crypto.go:206-214 | parameters with no cost recorded are back-filled to the recommended cost and need no rehash |
| CryptoParams.LoadVaultParamsFrom | internal/crypto/crypto.go:191-222 | read and decode errors are passed on with their messages; a salt of any length but 32 is rejected; otherwise the back-filled parameters |
| CryptoParams.LoadVaultParams | internal/crypto/crypto.go:180-189 | a missing file gives no parameters and no error; parameters come only from a decoded file with a 32-byte salt, back-filled, and such a file always gives them |
| CryptoParams.KDFParams.constructor | internal/crypto/crypto.go:32-37 | the stored salt and cost |
| CryptoParams.EnsureKDFParams | internal/crypto/crypto.go:670-680 | each zero cost field is set to its recommended value, and the others and the salt are unchanged |
| CryptoParams.DeriveKeys | internal/crypto/crypto.go:244-261 | a missing purpose string is an error; on success both keys are expansions of the one root key, for the master and the vault purpose |
| CryptoParams.Rehashed | internal/crypto/crypto.go:277-288 | the new parameters keep the salt and purposes, need no rehash and are already back-filled |
| CryptoParams.RehashedDerivable | internal/crypto/crypto.go:248-261 | after the old keys were derived, deriving the new ones can fail only in an expansion |
| CryptoParams.RehashVault | internal/crypto/crypto.go:263-314 | it succeeds exactly when the old keys derive and pass the `.secret` check, the new keys derive, and all three writes succeed. The writes happen in the order `.secret` (with the new master key), entries (from the old vault key to the new one), parameters, each only after the previous one succeeded. A failed derivation of the old keys writes nothing |
| Bytes.Zeros | internal/crypto/crypto.go:26-30 | a slice of `n` zero bytes |
| CryptoAead.WipeBytes | internal/crypto/crypto.go:26-30 | every byte of the slice becomes zero; a nil slice is left alone |
| CryptoAead.GenerateNonce | internal/crypto/crypto.go:341-357 | a read error is passed on; an all-zero nonce is rejected; any other nonce is returned as read |
| CryptoAead.NewCipherCheck | internal/crypto/crypto.go:360-363 | `aes.NewCipher` accepts exactly 16-, 24- and 32-byte keys |
| CryptoAead.Decrypt | internal/crypto/crypto.go:375-390 | a ciphertext shorter than the 12-byte nonce is rejected as too short; success needs a valid key and a full nonce |
| CryptoAead.DecryptAES256GCM | internal/crypto/crypto.go:707-734 | only 32-byte keys are accepted; a ciphertext shorter than the nonce is rejected |
| CryptoAead.Encrypt | internal/crypto/crypto.go:359-373 | the result is the fresh nonce followed by the sealed plaintext; it succeeds exactly when the key is valid and the nonce was read and is not all zero; a key error is passed on |
| CryptoAead.EncryptAES256GCM | internal/crypto/crypto.go:682-705 | only 32-byte keys; the result is the nonce followed by the text sealed with the additional data; it succeeds exactly when the key is 32 bytes and a non-zero nonce was read |
| CryptoAead.EncryptDecrypt | internal/crypto/crypto.go:682-734 | decrypting `nonce ‖ sealed` recovers the plaintext whenever the cipher opens what it sealed |
| CryptoAead.EncryptDecryptPlain | internal/crypto/crypto.go:359-390 | the same round trip for `Encrypt` and `Decrypt` |
| DirTree.Ext | internal/crypto/crypto.go:332 | `filepath.Ext` is empty or starts with a dot |
| DirTree.ExtIsSuffix | internal/crypto/crypto.go:332 | the extension is a suffix of the name |
| DirTree.ExtOfPbSuffix | internal/crypto/crypto.go:332 | a name ending in `.pb` has the extension `.pb` |
| DirTree.ExtPb | internal/crypto/crypto.go:332 | the extension is `.pb` exactly when the name ends in `.pb` |
| CryptoWalk.EntryFilesShape | internal/crypto/crypto.go:610-630 | every file the walk visits lies below the data directory, passes only through directories whose names do not start with `.` or `_`, and has the extension `.pb` |
| CryptoWalk.HasEntriesIff | internal/crypto/crypto.go:316-339 | `VaultHasEntries` is true exactly when the walk meets an entry file |
| CryptoWalk.AttachmentFiles | internal/crypto/crypto.go:636-648 | attachment files sit directly in `_attachments` |
| CryptoWalk.AttachmentsNotWalked | internal/crypto/crypto.go:618-621 | the entry walk never enters `_attachments` |
| CryptoWalk.ReKeyEach | internal/crypto/crypto.go:610-648 | files are re-encrypted in order up to the first failure, whose full path under the data directory and cause make up the error message; no failing file counts as done |
| CryptoWalk.ReKeyInOrder | internal/crypto/crypto.go:608-650 | the entry files come first, then the attachments; the pass stops at the first failure, and succeeds exactly when every file is done |
| CryptoWalk.ReKeyEntries | internal/crypto/crypto.go:608-650 | the files re-encrypted are a prefix of the entry files in walk order followed by the attachment files; success exactly when all are done; a failure names the next file by its full path, as an entry or as an attachment |
| EditorCard.DigitsOnly | internal/ui/editor_card.go:23-27 | true exactly when every character is an ASCII digit |
| EditorCard.IsDigits | internal/ui/editor_card.go:131-141 | true exactly when the text is non-empty and all ASCII digits |
| EditorCard.DigitsByteLen | internal/ui/editor_card.go:131-141 | a digit string's byte length is its character count, so the byte limits of the filters are character limits |
| EditorCard.ExpiryCharsFromIff | internal/ui/editor_card.go:40-52 | the expiry filter's scan accepts exactly when every character from the index on is a digit, except a '/' at index 2 |
| EditorCard.AcceptExpiryTyped | internal/ui/editor_card.go:35-54 | a typed expiry is accepted exactly when it has at most 5 characters in the `DD/DD` shape |
| EditorCard.AcceptPrefixes | internal/ui/editor_card.go:16-73 | every prefix of an accepted typed number, expiry or CVV is itself accepted |
| EditorCard.CheckNumberIff | internal/ui/editor_card.go:102-106 | the number passes exactly when it is empty or 13 to 19 digits; otherwise the error is the number message |
| EditorCard.TwoDigitsValue | internal/ui/editor_card.go:116 | the value of two digits is ten times the first plus the second |
| EditorCard.CheckExpiryIff | internal/ui/editor_card.go:108-120 | the expiry passes exactly when it is empty or `MM/YY` with a month from 1 to 12; otherwise the error is the expiry message |
| EditorCard.CheckCvvIff | internal/ui/editor_card.go:122-126 | the CVV passes exactly when it is empty or 3 or 4 digits; otherwise the error is the CVV message |
| EditorCard.ValidateCardFieldsIff | internal/ui/editor_card.go:90-129 | a card passes exactly when its inputs exist and each trimmed field is acceptable; a failure names the first bad field, in the order number, expiry, CVV |
| EditorCard.FiltersAdmitValid | internal/ui/editor_card.go:16-126 | every value validation accepts also gets through the input filters, typed or pasted |
| EditorCard.CollectCardFields | internal/ui/editor_card.go:80-87 | the saved values are the trimmed inputs, or three empty strings when the inputs do not exist |
| EditorCard.CollectedAreValid | internal/ui/editor_card.go:80-129 | after a passing validation the saved values are acceptable |
| EditorCard.ShownNumberHidesPrefix | internal/ui/editor_card.go:146-148 | a hidden long number shows as 19 characters ending in its last four; two numbers with the same last four look the same |
| EditorCard.ShownNumberPlain | internal/ui/editor_card.go:146-149 | a revealed number, or one of at most four bytes, is shown unchanged |
| EditorCard.ShownCvv | internal/ui/editor_card.go:157-160 | the CVV shows as three stars unless revealed |
| Editor.ValidateTitleField | internal/ui/editor.go:136-150 | no title input is one error, a blank trimmed title another, a title with one of `<>:"/\|?*` or equal to "." or ".." a third; otherwise the trimmed title |
| Editor.ValidateTitleClean | internal/ui/editor.go:141-149 | a title is accepted as typed exactly when it is non-empty and the importers' sanitizing would leave it unchanged; an accepted title is accepted again |
| Editor.SubDir | internal/ui/editor.go:206 | the sub-directory is the lower-cased type followed by "s" |
| Editor.EntryPath | internal/ui/editor.go:206-212 | an entry is stored in its type's sub-directory under its title plus ".pb" |
| Editor.FailIndex | internal/ui/editor.go:223-231 | the first pending attachment that is readable and whose write fails; none before it fails |
| Editor.ReadableIff | internal/ui/editor.go:223-231 | the attachments written are exactly those whose local file is readable |
| Editor.Editor.UpdateSaveState | internal/ui/editor.go:152-160 | with a title input, Save is disabled exactly when the title or the card fields fail validation; without one nothing changes |
| Editor.Editor.ShowEntry | internal/ui/editor.go:71-104 | the form shows the entry's title and notes; the pending attachments are a copy taken before login, card and note fields clear the edited entry's attachments |
| Editor.Editor.Open | internal/ui/editor.go:71-134 | the form shows the entry, Save is disabled exactly when validation fails, and the editor page is shown; the login, card and note fields clear the attachments of the entry being edited, which only the pending list keeps |
| Editor.Editor.EditCurrent | internal/ui/ui.go:181-184 | with a current entry and path, the editor opens on that very entry: the current entry and the edited one are the same, and a login, card or note entry loses its attachments to the pending list; otherwise nothing changes |
| Editor.Editor.New | internal/ui/editor.go:65-69 | a blank entry of the type is opened with no current path, and its empty title keeps Save disabled |
| Editor.Editor.SavedEntry | internal/ui/editor.go:174-201 | the saved entry has the type, title, notes, prior history and pending attachments, plus the login or card fields collected from the form |
| Editor.Editor.WriteAttachments | internal/ui/editor.go:223-231 | readable attachments are written in order up to the first failing write; success exactly when none fails |
| Editor.Editor.CommitSave | internal/ui/editor.go:222-244 | the readable attachments before the first failing write are stored; a failed attachment write or removal changes no entry; a failed entry write leaves only the removal of a renamed entry's old file; otherwise the old file of a renamed entry is gone and the entry is stored at the new path and loaded |
| Editor.Editor.SaveEntry | internal/ui/editor.go:162-220 | invalid input writes nothing and disables Save; a failed `MkdirAll` writes nothing; a title taken by another file is refused with the message; otherwise the entry built from the form is committed with every outcome of `commitSave`, a renamed entry's old file removed; no other entry is ever overwritten or removed |
| Editor.Editor.TakenIn | internal/ui/editor.go:50 | the names taken in a directory are those of its files |
| Editor.Editor.AddSuffix | internal/ui/editor.go:44-55 | the entry is committed under the first free `base_n.pb` in the same directory, a name no existing file has, with every outcome of `commitSave`; no other entry is disturbed |
| Editor.Editor.OnCollisionChoice | internal/ui/editor.go:36-57 | "Cancel" returns to the editor with nothing written; "Replace" commits to the pending path; "Add Suffix" commits to the first free suffixed name; an unknown choice writes nothing |
| EditorLogin.AddLoginFields | internal/ui/editor_login.go:17-36 | opening a login clears the edited entry's attachments and fills the form with its username, password, link and TOTP secret |
| EditorLogin.CollectLoginFields | internal/ui/editor_login.go:40-56 | the form's values replace the login fields (the password only when its input exists); a prior password that differs from the new one is appended to the history with the save time, otherwise the history is kept |
| EditorLogin.CollectAgainKeepsHistory | internal/ui/editor_login.go:50-55 | saving again without changing the password adds no history |
| EditorLogin.OpenThenCollect | internal/ui/editor_login.go:17-56 | opening a login and saving it unedited changes nothing but the attachments |
| EditorLogin.CleanTotpSecret | internal/ui/editor_login.go:98 | the cleaned secret has no space and otherwise the same characters as the secret |
| EditorLogin.CleanTotpSecretIdempotent | internal/ui/editor_login.go:98 | cleaning a cleaned secret changes nothing |
| EditorLogin.LoginView.Render | internal/ui/editor_login.go:59-113 | the username row shows for a non-empty username, the link row for a non-blank link, the TOTP rows for a secret with a non-space character; an empty password hides its row and turns revealing off, otherwise the row shows the password or one star per byte |
| EditorLogin.HiddenPasswordShape | internal/ui/editor_login.go:72 | a hidden password shows only as many stars as its bytes, as many as its characters when it is ASCII |
| Folder.ValidFolderVisible | internal/ui/folder.go:23-29 | a name is valid exactly when it is non-empty, holds none of `<>:"/\|?*` and is not hidden (no leading "." or "_"); the "." and ".." tests add nothing |
| Folder.RenameDir | internal/ui/folder.go:117 | the rename changes the name of the folder `from` to `to` and nothing else |
| Folder.RemoveDir | internal/ui/folder.go:188 | after removal the listing holds every node but the folder |
| Folder.PbCount | internal/ui/folder.go:145-150 | the count of entry files is at most the number of files |
| Folder.CountEntryFiles | internal/ui/folder.go:144-150 | the counting loop counts the `*.pb` files that are not directories |
| Folder.PbCountIsTreeItems | internal/ui/folder.go:145-150 | the prompt counts exactly the items the unfiltered tree shows for the folder |
| Folder.Ids | internal/ui/folder.go:184-186 | the ids are exactly those of the attachments |
| Folder.RemoveAttachments | internal/ui/folder.go:184-186 | an entry's attachments are taken out of the store, and nothing else |
| Folder.RemoveFolderAttachments | internal/ui/folder.go:166-187 | the attachments of every decodable entry file in the folder leave the store, and nothing else does |
| Folder.FolderUi.Create | internal/ui/folder.go:34-48 | an invalid trimmed name or a failed mkdir changes nothing; otherwise the folder exists afterwards (created if it was missing) and the main page is shown |
| Folder.FolderUi.Rename | internal/ui/folder.go:104-124 | an invalid name changes nothing; the current name only returns to the main page; a failed rename changes nothing; otherwise the folder is renamed and becomes the current one |
| Folder.FolderUi.ShowDeletePrompt | internal/ui/folder.go:139-160 | with no folder selected nothing happens; otherwise the prompt reports the folder's entry-file count and the delete page is shown |
| Folder.FolderUi.Delete | internal/ui/folder.go:162-193 | with no folder selected nothing happens; otherwise the attachments of its decodable entries leave the store, the folder leaves the listing, and the selection is cleared |
| Folder.DeletedFolderNotListed | internal/ui/folder.go:188-192 | after a delete no folder of that name is shown in the tree |
| Tree.EntryTypeIcon | internal/ui/tree.go:52-65 | each of the four entry types has its own icon; every other type gets the default icon |
| Tree.EntryTypeIconInjective | internal/ui/tree.go:52-65 | two types with the same non-default icon are the same type |
| Tree.ReadEntryType | internal/ui/tree.go:67-81 | the stored entry's type, or "" when the file cannot be read, decrypted or parsed |
| Tree.UnreadableDefaultIcon | internal/ui/tree.go:67-81 | an unreadable entry gets the default icon |
| Tree.ItemsOf | internal/ui/tree.go:99-119 | a directory has no more items than files |
| Tree.ItemsOfSpec | internal/ui/tree.go:102-116 | every item is a leaf referring to a `.pb` file of the directory whose name without the suffix matches the filter, and every such file has its item |
| Tree.ItemsFilterShrinks | internal/ui/tree.go:107-109 | a filter only hides items |
| Tree.AddItemNodes | internal/ui/tree.go:99-119 | the loop adds exactly the items of the listing, in order, and returns their number |
| Tree.NoLaterTotal | internal/ui/tree.go:95 | any two names are ordered one way or the other |
| Tree.NoLaterTrans | internal/ui/tree.go:95 | the name order is transitive |
| Tree.NoLaterAntisym | internal/ui/tree.go:95 | two names each no later than the other are equal |
| Tree.InsertSorted | internal/ui/tree.go:95 | inserting a name into a sorted list keeps it sorted and adds exactly that name |
| Tree.VisibleDirNames | internal/ui/tree.go:90-94 | the collected folder names are never hidden |
| Tree.ListFolders | internal/ui/tree.go:83-97 | an unreadable data directory gives no folders; otherwise the folders are the visible directories' names, sorted |
| Tree.SortedUnique | internal/ui/tree.go:95 | two sorted lists of the same names are equal, so the folder list depends only on which directories exist |
| Tree.VisibleDirs | internal/ui/tree.go:131-140 | the collected folders are directories of the listing that are not hidden |
| Tree.FolderNodesSpec | internal/ui/tree.go:142-154 | a folder node is added exactly for each visible folder that, under a filter, holds a match, and it holds the folder's items |
| Tree.NoNestedFolders | internal/ui/tree.go:121-156 | the tree has at most two levels: folders, then items |
| Tree.CollectFolders | internal/ui/tree.go:131-140 | the first loop collects the visible directories, in order |
| Tree.AddFolderNodes | internal/ui/tree.go:142-154 | the second loop adds exactly the shown folder nodes, in order |
| Tree.TreeView.Refresh | internal/ui/tree.go:121-162 | an unreadable data directory leaves the root empty; otherwise the root holds the shown folders then the root items; with no entry loaded the key bindings page is shown |
| Tree.TreeView.SelectTreePath | internal/ui/tree.go:17-50 | the selection becomes the node the depth-first search finds; when none has the path the selection stays |
| Tree.TreeView.LoadEntry | internal/ui/tree.go:164-183 | a decodable entry becomes the current one, hidden, with its icon and title heading the content page (a note entry with its attachments cleared by the note view); otherwise nothing changes |
| Tree.FirstWith | internal/ui/tree.go:26-42 | the first node of a list with the reference, and only when there is one |
| Tree.FindNodeIsFirst | internal/ui/tree.go:26-42 | the depth-first search finds the first node of the pre-order listing whose reference is the path |
| Pin.TypedIsShortDigits | internal/ui/pin.go:36-38 | whatever is typed, a PIN or code field holds at most six decimal digits |
| Pin.TypedKeepsShortDigitRuns | internal/ui/pin.go:36-38 | the typed keys all reach the field exactly when they are at most six digits |
| Pin.FormatTotpSecret | internal/ui/pin.go:398-400 | the shown secret has the secret's length, no lower-case letter, and the same letters ignoring case |
| Pin.FormatTotpSecretIdempotent | internal/ui/pin.go:398-400 | formatting a formatted secret changes nothing |
| Pin.FormatTotpSecretKeepsBase32 | internal/ui/pin.go:398-400 | a base32 secret is shown as it is |
| Pin.Glyph | internal/ui/pin.go:433-442 | every cell is 19 characters wide |
| Pin.GlyphRoundTrip | internal/ui/pin.go:433-442 | each cell can be read back as the two pixels it shows |
| Pin.GlyphInjective | internal/ui/pin.go:433-442 | different pixel pairs give different cells |
| Pin.RenderQrCode | internal/ui/pin.go:412-449 | an encoder failure or an empty bitmap gives no text and no lines; otherwise the text is the picture of every two rows and the line count is half the rows, rounded up |
| Pin.RenderBand | internal/ui/pin.go:429-443 | the inner loop writes the cells of two rows column by column, a missing lower row counting as light |
| Pin.QrTextReadsBack | internal/ui/pin.go:428-446 | right after the first `k` lines and the first `x` cells of line `k` the text shows the pixels of rows `2k` and `2k+1` in column `x` |
| Pin.SavePinErrorIff | internal/ui/pin.go:133-165 | a PIN is stored exactly when it is six bytes, confirmed, its key is made and the write succeeds; a badly typed PIN is reported before any key is made or file written |
| Pin.SaveTotpErrorIff | internal/ui/pin.go:259-290 | a secret is stored exactly when the code is six bytes, valid and the write succeeds; "invalid" is reported exactly for a valid-length code that fails |
| Pin.VerifyErrorIff | internal/ui/pin.go:353-376 | unlocking needs a six-byte code that passes the check of the configured mode; a mode that is neither "pin" nor "totp" unlocks with any six-byte code |
| Pin.PinScreens.EnterMain | internal/ui/pin.go:385-396 | the temporary master key is dropped and the main page is shown |
| Pin.PinScreens.SavePin | internal/ui/pin.go:133-165 | on an error the status shows it and the page and key stay; otherwise the configuration with the new key and the PIN's tag is written, the key is dropped and the main page is shown |
| Pin.PinScreens.ShowTotpSetup | internal/ui/pin.go:209-257 | a failed secret generation changes nothing; otherwise the secret is pending, its QR picture is shown when it has lines, the upper-cased secret is shown, and the code field and status line are empty |
| Pin.PinScreens.CancelTotpSetup | internal/ui/pin.go:178-181 | going back drops the pending secret and returns to the method choice |
| Pin.PinScreens.SaveTotp | internal/ui/pin.go:259-290 | without a code field nothing happens; on an error the status shows it and nothing is written, an invalid code also clearing the field; otherwise the pending secret is written, dropped, and the main page is shown |
| Pin.PinScreens.ShowPinVerify | internal/ui/pin.go:322-351 | the configuration is kept, the code field and status line are empty, and the unlock screen asks for a PIN in mode "pin" and for a code otherwise |
| Pin.PinScreens.ShowPinCreate | internal/ui/pin.go:125-131 | the PIN creation screen opens with an empty status line |
| Pin.PinScreens.VerifyPin | internal/ui/pin.go:353-376 | a short code is reported and kept; a failed PIN or TOTP check is reported and clears the field; otherwise the key is dropped and the main page is shown |

## Left out

- Cryptographic primitives are parameters of the model, not definitions: Argon2id, HKDF, HMAC-SHA256, SHA-256, AES-256-GCM and OpenPGP. The same holds for TOTP code generation and validation (`generateOTP`, `totp.ValidateCustom`), the QR encoder, `fuzzysort`, JSON, CSV and protobuf encoding. Only the guards and orderings around them are modelled.
- File system, git and the clock are inputs: directory listings, file contents, "file exists" tests, write and remove failures, git call outcomes, random draws and the current time. The temp-file-and-rename of the `.secret` writer and the byte-level I/O of re-encryption are not modelled.
- The tview, tcell, Fyne, Angular and Electron widgets are not modelled. This covers layout, colours, focus, key capture, clipboard copies and the "copied" notices. Only the texts, pages and flags the handlers set are kept.
- Unicode: letter classes and case mapping (`unicode.IsLower`, `strings.ToLower`, `strings.ToUpper`, `strings.EqualFold`, JavaScript `toLowerCase`) are modelled on ASCII only. Go's byte length is the UTF-8 length of the rune sequence (`Text.ByteLen`).
- Password.UniqueScore: the ratio of distinct runes to bytes is compared exactly, by integer cross-multiplication; the rounding of the float64 division in Go is not modelled.
- Password.GeneratePassword: the length is a `nat`, so the Go panic on a negative length (`make` with a negative size) is not modelled.
- PasswordGen.GeneratePassword: the `log.Fatal` branch on a failed random draw is not modelled; draws are inputs.
- EditorCard.ShownNumber: the masked number keeps the last four characters, where Go slices the last four bytes; the two agree on ASCII numbers, which are the only ones validation accepts.
- Pin.TypedIsShortDigits: the field is modelled with keys appended at the end; tview's insertion at an arbitrary cursor position is not modelled, though the acceptance test itself is the same.
- Editor.Editor.OnCollisionChoice and Editor.Editor.AddSuffix: no code under `internal/ui` switches to the "collision" page or sets the pending path and data; `saveEntry` shows the "error" page for a taken title instead. The handlers are modelled as written, but the modelled save never reaches them.
- Editor.Editor.SaveEntry: the `refreshTree`/`selectTreePath`/`loadEntry` calls after a commit are modelled only as setting the current entry and path and showing the main page; the tree is refreshed by `Tree.TreeView.Refresh` separately.
- Pin.PinScreens.EnterMain: the tree refresh and focus change of `enterMain` are left to `Tree.TreeView.Refresh`.
- The `uiCurrentFolder` of `internal/ui/folder.go` holds a full path; the model keeps the folder name inside the data directory, so `filepath.Join` and `filepath.Base` are the identity on it.
- `os.Rename` of a folder onto an existing name, and `os.RemoveAll` failures, are not modelled; the rename either fails as a whole (an input) or renames.
- `internal/ui/editor_file.go` (the file browser and drop zone that add local files to attach), `attachments.go`, `passgen.go` and `quick_copy.go` are not part of this model. No operation here adds a pending attachment file, but `Editor.Editor.CommitSave` is proved for any list of pending files. The note and file editors add no fields of their own, and the model saves those entries with the common fields.
- The PIN-configuration functions of `internal/crypto` (`GeneratePinKey`, `ComputePinTag`, `VerifyPinTag`, `WritePinConfig`) are not part of this model; their results are inputs of the PIN screens.
- `ImportBitwarden` calls `crypto.DeriveMasterKey`, `crypto.EnsureKDFSecret` and `crypto.DeriveKey`, which `internal/crypto/crypto.go` does not define; their combined result is the `setup` input.
- `onepassword.go:77` and `lastpass.go:46` call `saveEntries` with five arguments (entries, sub-directories, names, password, configuration). Its definition takes four and has no sub-directory parameter. The model follows the definition: the sub-directories are dropped, every entry is written at the vault root under its sanitised title, and the names serve only in the skip messages.
- The LastPass test expects a header-only file to import successfully; the code rejects any file with fewer than two records, and the model follows the code.
- CryptoWalk: `filepath.WalkDir` is modelled by recursion over the directory tree; its error callbacks (an unreadable directory) are not modelled.
- Go map iteration order (the pending attachment files of the editor) is modelled as a fixed sequence given as input.
- Vault.FirstFreeSuffix: `taken` (the names Stat does not report missing, errors included) is a finite set, so the loop always stops. In `internal/importer/common.go:60-69`, `internal/importer/bitwarden.go:112-121` and `internal/ui/editor.go:46-54` a Stat error on every candidate makes the loop run forever; the model cannot run forever, and records this case through `Vault.PersistentStatErrorLoops` (see Findings). The importers and the editor keep the as-written rule for the finitely many failing names they can represent.
- Totp.GetOtpInfo: a URL `OTPAuth.URI.parse` rejects is an `Err` carrying the fixed text `"invalid otpauth URI"`, not the library's exception message; `generateOTP` is the input `generate`, `None` where it throws.
- StoreIndex.MainController.OpenFile: `decryptGPGFile` is the input `content`, `None` where it fails; the `name` and `path` that `onClick` copies from the item onto the credential are not kept, since the item is the method's argument.
- StoreIndex.MainController.Tick: an exception thrown inside the `$interval` callback is reported by Angular and the interval keeps firing; the model returns `thrown` and leaves the timer running.
- StoreIndex.MainController.OpenFile and StoreIndex.MainController.Tick: `onClick` is `async` and cancels the old interval before awaiting `decryptGPGFile`; two clicks whose decryptions overlap both cancel first and then both start an interval, and the first one is never cancelled, so the countdown drops twice a second. The model runs each click to completion with one `timerRunning` flag and does not capture this interleaving.
- StoreIndex.ItemOf: `fs.statSync` throws on a dangling symbolic link, which aborts `getAllCredentials` and leaves the menu partly built; the model takes the listing as already classified and treats such an entry as an `OtherNode`, which is skipped.
- StoreIndex.MainController.constructor: `$scope.remainingColor` is undefined until the first countdown starts; the model starts it at `Orange`, a value no contract relies on before a countdown sets it.
- The importers' console messages (skip warnings and the final count line) are not modelled; the counts they print are outputs of the save loops.

## Findings

| source | as written | input that shows it | evidently intended | confidence | as-written member | corrected member |
|---|---|---|---|---|---|---|
| internal/importer/common.go:60-69 | any `os.Stat` error other than not-exist counts as a taken name, and the counter loop only stops on not-exist | a data directory without search permission, or a sanitised title longer than the file system's name limit: every candidate fails with EACCES or ENAMETOOLONG | stop and report the Stat error | high; not executed | Vault.PersistentStatErrorLoops | Vault.ChooseFileNameChecked |
