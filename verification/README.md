# biodash, modelled in Dafny

biodash is a single-page health dashboard. This model covers the logic inside its pages:

- **Interaction checker.** Two comma-separated fields, medications and supplements, are split into trimmed, lower-cased tokens. A record of the static drug-supplement interaction table is reported when some medication token and the record's drug include one another, and likewise for the supplement side. The loop that collects the records is modelled as a method.
- **Transparency search.** The product database is filtered by a search term. A product is kept when its name, or one of its ingredients, includes the term. The comparison is case-insensitive.
- **Personal health log.** A submitted entry is added and the log is re-sorted newest first by date. The log can be exported as comma-separated text with every cell quoted. Mood and energy ratings are shown as emoji.
- **Supplement manager.** It keeps two append-only lists: supplements and side-effect reports. A report looks up the selected supplement by id.
- **Sign-in and registration form.** It applies two ordered checks and derives the user's name.
- **Application shell.** It tracks who is signed in and which section is shown. The signed-in user is kept in the browser's local storage under the key `biodash-user`.
- **Static tables.** The fixtures the checker and the search run over.

Files and modules:

- `text.dfy` (`Text`): the JavaScript string operations the pages use, on `seq<char>`. These are lower-casing, `trim`, `split` and `join` on one character, `includes`, global one-character replacement, decimal rendering and `parseInt`.
- `data.dfy` (`Data`): the fixtures.
- `interactions.dfy`, `transparency.dfy`, `healthlog.dfy`, `supplements.dfy`, `auth.dfy`, `app.dfy`: one module per page, plus the shell.

Where a page changes state, a class holds that state. Each method is proved to move the state along a pure function. The properties are proved about those functions.

## Model

| member | source | states |
|---|---|---|
| Interactions.Tokens | src-pages-Interactions.jsx:23-24 | a field split at its commas, each piece trimmed and lower-cased; never empty |
| Interactions.TokensShape | src-pages-Interactions.jsx:23-24 | a field yields one token more than it has commas; each token is the trimmed, lower-cased text between commas, holding no comma and no capital and not starting or ending with whitespace |
| Interactions.TokensLower | src-pages-Interactions.jsx:23-24 | the tokens depend only on the lower-cased text of the field |
| Interactions.TokensAppend | src-pages-Interactions.jsx:23-24 | text after a comma contributes its own tokens after those of the text before it |
| Interactions.TrailingCommaAddsEmptyToken | src-pages-Interactions.jsx:23 | a trailing comma adds the empty token |
| Interactions.Found | src-pages-Interactions.jsx:27-42 | the table's records that match both token lists (`Matches`, through `AnyRelated` and `Related`), in table order; never more than the table |
| Interactions.FindInteractions | src-pages-Interactions.jsx:27-42 | the loop collects exactly the table's records that match both fields' tokens, in table order |
| Interactions.FoundIsSelection | src-pages-Interactions.jsx:27-42 | the result is the table filtered by the match test: k-th result is the record at the k-th selected position, positions strictly ascend, a position is selected iff its record matches |
| Interactions.FoundMembership | src-pages-Interactions.jsx:29-41 | a record is reported iff it is in the table and some medication token and its drug, and some supplement token and its supplement, include one another |
| Interactions.EmptyTokenRelatesToAll | src-pages-Interactions.jsx:30-37 | an empty token relates to every name, since every string includes "" |
| Interactions.TrailingCommaMatchesEveryDrug | src-pages-Interactions.jsx:23-41 | with a trailing comma in the medication field, a record is reported iff its supplement side matches |
| Interactions.BlankFieldMatchesEverything | src-pages-Interactions.jsx:23-37 | a field that trims to "" yields the single token "" and matches every name |
| Interactions.CaseInsensitive | src-pages-Interactions.jsx:23-36 | fields that agree once lower-cased report the same records |
| Interactions.AnyRelatedMonotone | src-pages-Interactions.jsx:30-37 | more tokens can only make a side match |
| Interactions.FoundGrows | src-pages-Interactions.jsx:30-41 | token lists that keep every earlier token keep every record reported before, for any table |
| Interactions.MoreMedicationsMoreRecords | src-pages-Interactions.jsx:23-41 | appending medications, supplements unchanged, keeps every record reported before |
| Interactions.MoreSupplementsMoreRecords | src-pages-Interactions.jsx:23-41 | appending supplements, medications unchanged, keeps every record reported before |
| Interactions.MoreItemsMoreRecords | src-pages-Interactions.jsx:23-41 | appending to both fields at once keeps every record reported before |
| Interactions.NoMatchNoRecords | src-pages-Interactions.jsx:39-41 | when no record matches, nothing is reported |
| Interactions.OnlyWarfarinDrug | src-lib-data.js:52-95 | of the table's drug names only Warfarin relates to the token "warfarin" |
| Interactions.WarfarinVitaminETokens | src-pages-Interactions.jsx:23-24 | "Warfarin" and "Vitamin E" each give one token, lower-cased |
| Interactions.WarfarinVitaminE | src-lib-data.js:53-59 | checking "Warfarin" against "Vitamin E" reports exactly the first record, of severity High |
| Interactions.SeverityColor | src-pages-Interactions.jsx:49-59 | the badge colour of a severity: always one of the high, moderate, low and gray classes |
| Interactions.SeverityColorSpec | src-pages-Interactions.jsx:49-59 | severities are compared case-insensitively; only high, moderate and low get their own colour, all else gray; every table severity gets its own |
| Interactions.CanSubmit | src-pages-Interactions.jsx:109 | the button's enabled state: both fields trim to non-empty text and no check runs; so neither field is empty |
| Interactions.CanSubmitSpec | src-pages-Interactions.jsx:109 | the submit button is enabled iff neither field is all whitespace and no check is running |
| Interactions.Checker.constructor | src-pages-Interactions.jsx:9-13 | both fields empty, no results, nothing shown, not loading; so the check button starts disabled |
| Interactions.Checker.SetMedications | src-pages-Interactions.jsx:84 | the medication field takes the typed text, nothing else changes |
| Interactions.Checker.SetSupplements | src-pages-Interactions.jsx:98 | the supplement field takes the typed text, nothing else changes |
| Interactions.Checker.CheckInteractions | src-pages-Interactions.jsx:15-47 | results become the matching records, they are shown, loading ends, the fields stay; the button is enabled again iff neither field is blank |
| Transparency.Search | src-pages-Transparency.jsx:11-16 | the products whose name or some ingredient includes the term (`Keep`), case-insensitively, in table order; never more than the table |
| Transparency.SearchIsSelection | src-pages-Transparency.jsx:11-16 | the result is the table filtered by the name-or-ingredient test, in table order, with no product twice |
| Transparency.SearchMembership | src-pages-Transparency.jsx:11-16 | a product is listed iff it is in the table and its lower-cased name or some lower-cased ingredient includes the lower-cased term |
| Transparency.EmptyTermListsAll | src-pages-Transparency.jsx:11-16 | the empty term lists the whole table unchanged |
| Transparency.SearchCaseInsensitive | src-pages-Transparency.jsx:12-14 | terms that agree once lower-cased list the same products |
| Transparency.KeepNarrowing | src-pages-Transparency.jsx:11-16 | a product passing a term passes every term it includes |
| Transparency.SearchNarrowing | src-pages-Transparency.jsx:11-16 | a longer term including a shorter one lists a sub-list of the shorter one's result, namely the longer search run on that result |
| Transparency.NoProductsMessage | src-pages-Transparency.jsx:83 | over a non-empty table, the "no products" card shows iff nothing is listed |
| Transparency.SearchCalcium | src-lib-data.js:1-50 | searching "calcium" lists only "Multivitamin Complex" |
| Transparency.MultivitaminCalcium | src-lib-data.js:28-29 | the multivitamin passes "calcium" through its "Calcium 200mg" ingredient |
| Transparency.VitaminDNoCalcium | src-lib-data.js:2-9 | the Vitamin D3 product does not pass "calcium" |
| Transparency.MagnesiumNoCalcium | src-lib-data.js:10-17 | the magnesium product does not pass "calcium" |
| Transparency.WheyNoCalcium | src-lib-data.js:18-25 | the whey protein product does not pass "calcium" |
| Transparency.OmegaNoCalcium | src-lib-data.js:34-41 | the omega-3 product does not pass "calcium" |
| Transparency.CreatineNoCalcium | src-lib-data.js:42-49 | the creatine product does not pass "calcium" |
| HealthLog.Older | src-pages-HealthLog.jsx:32 | the comparator's order on date strings, character by character; its properties are the lemmas below |
| HealthLog.OlderIrreflexive | src-pages-HealthLog.jsx:32 | no date is older than itself |
| HealthLog.OlderTransitive | src-pages-HealthLog.jsx:32 | the date order is transitive |
| HealthLog.OlderTotal | src-pages-HealthLog.jsx:32 | two dates differ iff one is older, and never both ways |
| HealthLog.OlderCommonPrefix | src-pages-HealthLog.jsx:32 | dates with a common beginning are ordered by what follows it |
| HealthLog.OlderSplit | src-pages-HealthLog.jsx:32 | strings that begin with pieces of one length are ordered by those pieces, or by what follows when the pieces agree |
| HealthLog.DigitsOrder | src-pages-HealthLog.jsx:32 | for digit runs of one width, character order is numeric order, and equal runs are equal numbers |
| HealthLog.DayNumberOrder | src-pages-HealthLog.jsx:32 | the number YYYYMMDD orders by year, then month, then day |
| HealthLog.OlderIsDayOrder | src-pages-HealthLog.jsx:32 | on values of the date input, one date is older than another iff its day number YYYYMMDD is smaller, i.e. iff the comparator's date difference is positive |
| HealthLog.OlderExample | src-pages-HealthLog.jsx:32 | three worked comparisons: 2025-09-10 before 2025-09-11, 2025-08-31 before 2025-09-01, and not the reverse |
| HealthLog.Insert | src-pages-HealthLog.jsx:32 | one step of the stable newest-first sort: the entry goes in front of the first strictly older one; one entry longer |
| HealthLog.SortNewestFirst | src-pages-HealthLog.jsx:32 | the stable newest-first sort, as insertion; keeps the length |
| HealthLog.InsertPlacement | src-pages-HealthLog.jsx:32 | an entry is inserted behind every entry at least as new, in front of the first strictly older one; the rest keep their order |
| HealthLog.InsertBehindOlder | src-pages-HealthLog.jsx:32 | in a newest-first log every entry behind the insertion point is strictly older |
| HealthLog.InsertKeepsOrder | src-pages-HealthLog.jsx:32 | inserting into a newest-first log keeps it newest first |
| HealthLog.InsertOnDate | src-pages-HealthLog.jsx:32 | inserting puts the entry last among those of its date and changes no other date's entries |
| HealthLog.InsertMultiset | src-pages-HealthLog.jsx:32 | inserting adds exactly the one entry |
| HealthLog.OnDateAppend | src-pages-HealthLog.jsx:32 | the entries of a date in a concatenation are those of each part in turn |
| HealthLog.SortNewestFirstSpec | src-pages-HealthLog.jsx:32 | the sort orders newest first and is a permutation |
| HealthLog.SortStable | src-pages-HealthLog.jsx:32 | the sort is stable: entries of one date keep their relative order |
| HealthLog.SortKeepsSorted | src-pages-HealthLog.jsx:32 | a newest-first log is left unchanged by the sort |
| HealthLog.SubmitInserts | src-pages-HealthLog.jsx:32 | sorting a newest-first log with the new entry appended is inserting it |
| HealthLog.Csv | src-pages-HealthLog.jsx:44-53 | the export text: the quoted header line, then one quoted row per entry, joined by line breaks; it begins with the header line |
| HealthLog.NotesCellSpec | src-pages-HealthLog.jsx:51 | the notes cell keeps the length and every character, except that each comma becomes ';'; it holds no comma |
| HealthLog.CsvLines | src-pages-HealthLog.jsx:44-53 | without line breaks in the cells, the export has one line per entry plus the header first, with no trailing line break |
| HealthLog.RowFields | src-pages-HealthLog.jsx:46-53 | a row splits at its commas into its five cells, each wrapped in double quotes, the notes included |
| HealthLog.MoodEmoji | src-pages-HealthLog.jsx:72-75 | the mood face, from the five-face table; any other rating shows the neutral face, itself in the table |
| HealthLog.EnergyIcon | src-pages-HealthLog.jsx:77-80 | the energy icon, from the five-icon table; any other rating shows the battery, itself in the table |
| HealthLog.MoodEmojiSpec | src-pages-HealthLog.jsx:72-75 | moods 1 to 5 have distinct emoji; the neutral face shows iff the mood is not 1, 2, 4 or 5 |
| HealthLog.EnergyIconSpec | src-pages-HealthLog.jsx:77-80 | energy 4 shows one bolt, 5 two; every other value shows the battery |
| HealthLog.DefaultForm | src-pages-HealthLog.jsx:10-16 | the form starts at today, mood 3, energy 3, "Good", no notes |
| HealthLog.Log.constructor | src-pages-HealthLog.jsx:8-16 | empty log, form hidden, default form |
| HealthLog.Log.OpenForm | src-pages-HealthLog.jsx:95 | the form is shown; log and form values stay |
| HealthLog.Log.Cancel | src-pages-HealthLog.jsx:189 | the form is hidden; log and form values stay |
| HealthLog.Log.InputChange | src-pages-HealthLog.jsx:18-23 | the named input takes the value; the others and the log stay |
| HealthLog.Log.Submit | src-pages-HealthLog.jsx:25-41 | the log becomes the sort of the old log plus the new entry, which is inserting it, and stays newest first; the form resets and hides |
| Supplements.EmptySupplementForm | src-pages-Supplements.jsx:12-19 | frequency "Daily", every other field empty |
| Supplements.EmptySideEffectForm | src-pages-Supplements.jsx:20-25 | severity "Mild", every other field empty |
| Supplements.EditKeepsEndDate | src-pages-Supplements.jsx:17 | no input edits the end date, so it stays empty from the default form |
| Supplements.NewSupplement | src-pages-Supplements.jsx:43-47 | the record carries every form field verbatim plus the id and time |
| Supplements.FindById | src-pages-Supplements.jsx:62 | the first supplement with the parsed id; what it finds is in the list and carries that id |
| Supplements.FindByIdSpec | src-pages-Supplements.jsx:62 | the lookup finds nothing iff no supplement has the parsed id (or the value parses as no number), otherwise the first with that id |
| Supplements.SelectFindsSupplement | src-pages-Supplements.jsx:252-256 | choosing a supplement's option, whose value is its id, finds that supplement when ids are distinct |
| Supplements.NoSelectionNoName | src-pages-Supplements.jsx:252 | the empty option finds no supplement |
| Supplements.NewSideEffect | src-pages-Supplements.jsx:63-68 | the report carries the form verbatim, the id and time, and the name of the found supplement exactly when one is found |
| Supplements.Page.constructor | src-pages-Supplements.jsx:8-25 | both lists empty, both forms hidden and at their defaults |
| Supplements.Page.SetShowAddForm | src-pages-Supplements.jsx:90 | shows or hides the add form; nothing else changes |
| Supplements.Page.OpenSideEffectForm | src-pages-Supplements.jsx:232-235 | the report form opens only while some supplement exists |
| Supplements.Page.CancelSideEffectForm | src-pages-Supplements.jsx:301 | the report form hides; nothing else changes |
| Supplements.Page.InputChange | src-pages-Supplements.jsx:27-32 | the named input of the supplement form takes the value; nothing else changes |
| Supplements.Page.SideEffectChange | src-pages-Supplements.jsx:34-39 | the named input of the report form takes the value; nothing else changes |
| Supplements.Page.AddSupplement | src-pages-Supplements.jsx:41-58 | one record is appended after the unchanged earlier ones; the form resets and hides |
| Supplements.Page.AddSideEffect | src-pages-Supplements.jsx:60-77 | one report, with the looked-up name, is appended after the unchanged earlier ones; the form resets and hides |
| Auth.EmptyForm | src-pages-Auth.jsx:7-12 | every field starts empty |
| Auth.Outcome | src-pages-Auth.jsx:14-35 | the refusal or the user that submitting yields; an accepted form has an email and a password, and the user carries the id and the email |
| Auth.EmailName | src-pages-Auth.jsx:30 | the email's part before its first '@': a prefix of the email holding no '@' |
| Auth.OutcomeSpec | src-pages-Auth.jsx:17-34 | a missing email or password is refused first; a differing confirmation is refused only when registering; every other form is accepted |
| Auth.LoginIgnoresRegistrationFields | src-pages-Auth.jsx:14-35 | signing in never looks at the full name or the confirmation |
| Auth.AcceptedUser | src-pages-Auth.jsx:28-32 | an accepted user has the given id, the email verbatim, and the email's part before '@' (signing in) or the full name (registering) as name |
| Auth.EmailNameSpec | src-pages-Auth.jsx:30 | the derived name is the email's prefix up to its first '@', the whole email iff it has none |
| Auth.WeakPasswordAccepted | src-pages-Auth.jsx:100-102 | the displayed strength rule is not enforced: a one-character password is accepted |
| Auth.Page.constructor | src-pages-Auth.jsx:6-12 | sign-in mode, empty form |
| Auth.Page.ToggleMode | src-pages-Auth.jsx:132 | the mode flips and the form is kept |
| Auth.Page.InputChange | src-pages-Auth.jsx:37-42 | the named input takes the value, mode unchanged |
| Auth.Page.HandleSubmit | src-pages-Auth.jsx:14-35 | the early returns yield the refusal or the user of the outcome above |
| App.Init | src-App.jsx:11-12 | nobody signed in, section "dashboard" |
| App.Load | src-App.jsx:14-25 | the load effect on the session; the section is kept and no key is added to storage |
| App.Login | src-App.jsx:27-31 | signing in; afterwards the dashboard shows and the user key is stored |
| App.Logout | src-App.jsx:33-37 | signing out; afterwards the sign-in page shows and the user key is gone |
| App.ChangeSection | src-App.jsx:39-45 | choosing a section; any choice but "auth" keeps the user and the storage |
| App.Render | src-App.jsx:47-67 | the page shown; the sign-in page exactly when nobody is signed in |
| App.LoadSpec | src-App.jsx:14-25 | a stored value that parses becomes the user; one that does not is removed; a missing or empty one changes nothing; no other key changes |
| App.LogoutSpec | src-App.jsx:33-37 | signing out forgets the user, shows the sign-in page, removes exactly the one key |
| App.ChangeSectionSpec | src-App.jsx:39-45 | choosing "auth" is signing out; any other section is stored verbatim |
| App.ConsistencyPreserved | src-App.jsx:14-45 | every transition keeps the stored copy reading back as the signed-in user |
| App.LoginSurvivesReload | src-App.jsx:14-31 | after a sign-in, a reload restores that user on the dashboard |
| App.LogoutSurvivesReload | src-App.jsx:14-37 | after a sign-out, a reload shows the sign-in page |
| App.RenderSpec | src-App.jsx:47-67 | sign-in page iff nobody is signed in; the five sections show their pages, any other the dashboard |
| App.Shell.constructor | src-App.jsx:11-12 | the initial state |
| App.Shell.LoadSession | src-App.jsx:14-25 | the load effect |
| App.Shell.HandleLogin | src-App.jsx:27-31 | the user is set and stored under the key; the dashboard shows |
| App.Shell.HandleLogout | src-App.jsx:33-37 | the user is cleared, the key removed, section "auth" |
| App.Shell.HandleSectionChange | src-App.jsx:39-45 | "auth" signs out; any other section is set |
| App.Shell.CurrentPage | src-App.jsx:47-67 | the page rendered; the sign-in page iff nobody is signed in |
| Data.InteractionTableShape | src-lib-data.js:52-95 | six records, each of severity High, Moderate or Low |
| Data.InteractionPairsDistinct | src-lib-data.js:52-95 | no drug-supplement pair repeats, though Calcium and Magnesium each occur twice |
| Data.ProductIds | src-lib-data.js:1-50 | six products with ids 1 to 6, ascending |
| Data.ProductListsNonEmpty | src-lib-data.js:1-50 | every product lists an ingredient and a certification |
| Data.SampleMetricsShape | src-lib-data.js:127-152 | three sample metrics rating mood and energy on the 1-5 scale |
| Text.Lower | src-pages-Interactions.jsx:23-36 | `toLowerCase` on the ASCII letters only; its contract is `Text.LowerHasNoUpper`, and `LowerIdempotent`/`LowerAppend` relate it to itself and to concatenation |
| Text.LowerHasNoUpper | src-pages-Interactions.jsx:23-36 | lower-casing keeps the length and leaves no letter A to Z |
| Text.LowerIdempotent | src-pages-Transparency.jsx:12-14 | lower-casing twice is lower-casing once |
| Text.LowerAppend | src-pages-Interactions.jsx:23-36 | lower-casing distributes over concatenation |
| Text.Trim | src-pages-Interactions.jsx:23 | `trim`: the string without leading and trailing whitespace; never longer |
| Text.TrimSpec | src-pages-Interactions.jsx:23 | trimming drops a leading and a trailing whitespace run and keeps the middle, which neither starts nor ends with whitespace |
| Text.TrimEmptyIff | src-pages-Interactions.jsx:109 | a string trims to "" iff it is all whitespace |
| Text.TrimLower | src-pages-Interactions.jsx:23 | trimming and lower-casing commute |
| Text.Split | src-pages-Interactions.jsx:23 | `split` on one character; always at least one piece |
| Text.Join | src-pages-HealthLog.jsx:53 | `join` with one character; the result begins with the first part |
| Text.SplitShape | src-pages-Interactions.jsx:23 | splitting yields one piece more than there are separators, none holding one |
| Text.JoinSplit | src-pages-HealthLog.jsx:53 | joining the pieces of a split gives the string back |
| Text.SplitJoin | src-pages-HealthLog.jsx:53 | splitting a join of separator-free pieces gives the pieces back |
| Text.SplitAppend | src-pages-Interactions.jsx:23 | splitting distributes over a separator between two strings |
| Text.SplitFirst | src-pages-Auth.jsx:30 | the first piece is a separator-free prefix, followed by the separator when shorter |
| Text.Contains | src-pages-Interactions.jsx:30-37 | `includes`: the text occurs at some position; every string includes "", and nothing longer than the string is included |
| Text.ContainsEmpty | src-pages-Transparency.jsx:12-14 | every string includes "" |
| Text.ContainsTrans | src-pages-Transparency.jsx:12-14 | inclusion is transitive |
| Text.ReplaceAll | src-pages-HealthLog.jsx:51 | `replace(/,/g, ';')` with any two characters: the length is kept; `ReplaceAllAt` gives its effect at every index |
| Text.ReplaceAllAt | src-pages-HealthLog.jsx:51 | the replacement changes exactly the replaced character |
| Text.IntToString | src-pages-HealthLog.jsx:46-53 | the decimal text a number cell gets inside its quotes: non-empty, a leading '-' exactly for negatives, digits after it |
| Text.ParseInt | src-pages-Supplements.jsx:62 | `parseInt` in base 10, None for NaN; a number comes only from non-empty text |
| Text.ParseIntOfInt | src-pages-Supplements.jsx:62 | parsing an integer's decimal rendering gives it back, negatives included |

## Left out

- Rendering, styling and the layout's navigation bar are presentation only. The theme toggle depends on a provider that is not part of this model.
- The simulated 1.5-second delay of the interaction check is left out. It has no real concurrency, so `CheckInteractions` runs as one step, with `isLoading` raised and lowered inside it.
- The CSV download is left out; only the text of the export is modelled. This covers the file object, the object URL and the link click.
- Dates formatted for display and the averages of mood and energy are left out. The first is locale formatting; the second is floating point.
- `Date.now()` ids and ISO timestamps are parameters (`id`, `createdAt`, `today`). They come from the clock, and nothing makes them unique.
- `alert` and the console are left out.
- Local storage is a map from keys to strings.
- `JSON.parse` and `JSON.stringify` are function parameters. A parse that throws is `Malformed`. A parse yielding a falsy value is `Value(None)`. Other non-user JSON shapes a stored string could parse to are not distinguished.
- Lower-casing covers the ASCII letters only; Unicode case mapping is left out.
- Supplements.SelectFindsSupplement: ids are unbounded integers here, but JavaScript numbers are doubles. `String(id)` switches to exponent form from 10^21 and `parseInt` loses precision above 2^53, so the round trip holds in the browser only below those bounds. `Date.now()` ids stay far below both.
- Text.ParseIntOfInt: holds for unbounded integers; for JavaScript numbers only below 2^53 in magnitude, for the same reason.
- `parseInt` is modelled in base 10 with an optional sign after leading whitespace. Other radix prefixes are left out.
- The health-log form keeps mood and energy as integers; in the browser they become strings once edited.
- Dates are YYYY-MM-DD strings ordered character by character; `HealthLog.OlderIsDayOrder` shows this is the order of the day numbers YYYYMMDD. Month and day ranges are not checked. An invalid date, which makes the comparator yield NaN, is left out.
- The dashboard page, `script.py`, the regulatory information and the sample supplements and side effects are not part of this model. They are display-only fixtures and code.
- The transparency page's product detail dialog is not modelled. It only shows one product's fields.
- HealthLog.CsvLines: stated only for logs whose date, sleep quality and notes hold no line break. A notes value with a line break splits its row across lines of the export.
- HealthLog.RowFields: stated only when the date and sleep quality hold no comma, since those cells are not escaped.
- Interactions.BlankFieldMatchesEverything: an empty or blank field yields the single token "", which includes in every name. The source keeps this behaviour and disables the submit button for it instead. The model follows the source.
