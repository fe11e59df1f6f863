# GitHub profile lookup: a verified model of its fetch–cache–render pipeline

`script.js` is a one-page tool that looks up a GitHub user. A lookup comes
either from the search form or from typing in the search field, which waits
until typing pauses. It fetches the profile, then the user's repositories.
Both successful replies are kept in an in-memory cache keyed `user:<name>` and
`repos:<name>`; a failed reply is not stored. The result is drawn into one display region:
- the profile card;
- up to five language chips ranked by use;
- links to the first eight repositories.

A failed profile request is classified as one of four error messages.

The Dafny modules follow the script's functions:

| module | file | models |
|---|---|---|
| `Basics` | basics.dfy | `Option`, `Min` |
| `Api` | api.dfy | the fields of a profile and of a repository the script reads, a failed request (HTTP status and `x-ratelimit-reset` header, or no response), a reply |
| `Errors` | errors.dfy | the `catch` block of `getUser`: classification and message texts |
| `Format` | format.dfy | `normalizeUrl`, `relativeTime` |
| `Languages` | languages.dfy | `renderTopLanguages`: the counting loop, `Object.entries` order, the stable descending sort, the first five |
| `RepoList` | repo_list.dfy | `addReposToCard`: the first eight repositories or the "No public repositories." placeholder |
| `Lookup` | lookup.dfy | `getUser`/`getRepos` as functions from (cache, replies) to (new cache, display, requests sent) |
| `Triggers` | triggers.dfy | `String.prototype.trim`, and the `input`/`submit` handlers with the debounce timer as a state machine |
| `App` | app.dfy | the module-level state (`cache`, `#main`, `search.value`, `typingTimer`) as the class `Page`, whose methods are the handlers and the two lookups, proved against `Lookup` and `Triggers` |

How the outside world is modelled:
- **The network.** Each lookup receives the reply the API would give (`Reply<T>`). That reply is used only on a cache miss.
- **Requests sent.** They are recorded, by cache key, in the ghost log `sent`.
- **Time.** `Date.now()` is the parameter `now`. A push time is a number of milliseconds.
- **The debounce timer.** Its 400 ms wait is abstract: the timer going off is the event `Fire`, and the method `OnTimer`.
- **Local time.** `toLocaleTimeString` is the function parameter `localTime`.

Two behaviours of the code that a reader might not expect:
- **Submitting does not trim.** `submit` tests `search.value` as it is (`script.js:208-211`), while the `input` handler trims (`script.js:220`). So a whitespace-only query is submitted and looked up, untrimmed. `Triggers.Next` and `App.Page.OnSubmit` model this. `Triggers.SubmitThenTimerLooksUpTwice` shows the untrimmed and then the trimmed lookup that a submit followed by the pending timer makes.
- **A failed repository request replaces the profile card.** `createErrorCard` overwrites `#main` (`script.js:62`, `script.js:113`). `Lookup.ReposPhase` shows the error card alone.

## Model

| member | source | states |
|---|---|---|
| Errors.ProfileNotice | script.js:25-38 | 404 is "no profile"; 403 with a non-empty reset header is "rate limited until" that header; 403 without one is the plain rate-limit message; every other status, and no response at all, is the generic failure; each iff, and never the repository message |
| Errors.Text | script.js:28-37 | the card text of each notice; both rate-limit messages, and no other, open with "GitHub rate limit reached. " |
| Errors.TextsTellKindsApart | script.js:25-38 | two different kinds of failure never produce the same message text, whatever the reset time renders as |
| Format.HasHttpScheme | script.js:145 | `/^https?:\/\//i`: a URL with a scheme is at least 7 characters long and starts with "http" in any case |
| Format.SchemeIgnoresCase | script.js:145 | URLs that differ only in the case of ASCII letters agree on having a scheme |
| Format.NormalizeUrl | script.js:143-147 | "" gives "#"; a URL with an http(s) scheme (case-insensitive) is kept; any other non-empty URL gets "https://" in front; a non-empty URL always yields a link with a scheme ending in the original URL |
| Format.NormalizeUrlIdempotent | script.js:143-147 | normalizing a non-empty URL a second time changes nothing |
| Format.RelativeTime | script.js:149-160 | the unit is days from 86 400 000 ms, hours from 3 600 000, minutes from 60 000, else seconds (each iff); the amount is the floor of elapsed time over the unit; it is positive for every unit but seconds; for non-negative elapsed time, amount units ≤ elapsed < amount+1 units |
| Languages.OccurrencesCountsUsingRepos | script.js:169-174 | a language's count is the number of repositories whose language is that non-empty string |
| Languages.OccurrencesPositive | script.js:169-174 | a count is positive iff some repository uses the language |
| Languages.FirstUse | script.js:169-174 | the position of the first repository using a language: it uses it and no earlier one does |
| Languages.TallyLanguages | script.js:169-174 | the loop leaves one key per used non-empty language, with its exact count, and the keys in the order of first use |
| Languages.FirstSeenAreUsed | script.js:169-174 | every key of the table is a non-empty language with a positive count |
| Languages.FirstSeenListsUsedLanguages | script.js:169-175 | a language is a key of the table iff some repository uses it |
| Languages.FirstSeenDistinct | script.js:169-175 | no key appears twice in the table |
| Languages.FirstSeenInFirstUseOrder | script.js:169-175 | `Object.entries` lists languages in the order their first repository appears |
| Languages.Entries | script.js:175 | `Object.entries(counts)`: one entry per key, in key order, each a non-empty language with its exact, positive count |
| Languages.InsertByCount | script.js:175 | one insertion step of the sort; the body is the model, and `InsertByCountKeepsOrder` and `InsertByCountStable` state its properties |
| Languages.SortByCount | script.js:175 | the stable sort on descending count; the body is the model, and `SortByCountSorts` and `SortByCountStable` state its properties |
| Languages.InsertByCountKeepsOrder | script.js:175 | inserting into a list sorted by descending count keeps it sorted and adds exactly that entry |
| Languages.SortByCountSorts | script.js:175 | the sort yields descending counts and is a permutation of the table |
| Languages.InsertByCountStable | script.js:175 | insertion places an entry before the entries of its own count, so entries of equal count keep their relative order |
| Languages.SortByCountStable | script.js:175 | the sort is stable: the entries of each count keep their table order |
| Languages.Rank | script.js:175 | the chips are min(5, n) entries of the table, none more often than in the table, in descending count; empty iff the table is |
| Languages.RankKeepsHigherCounts | script.js:175 | an entry left out means five chips were shown, each with at least its count |
| Languages.RankBreaksTiesByTableOrder | script.js:175 | the chips of any count are the first table entries of that count, in table order |
| Languages.TopLanguages | script.js:166-180 | the rendered chips: one per used language, up to five (min(5, number of languages)) |
| Languages.RenderTopLanguages | script.js:166-180 | the counting loop, `Object.entries` and `.sort(...).slice(0, 5)` produce exactly `TopLanguages` |
| Languages.TopLanguagesAreExactCounts | script.js:169-175 | every chip names a used non-empty language with its exact number of repositories, and no language twice |
| Languages.TopLanguagesOmitOnlyLowerCounts | script.js:169-175 | a used language without a chip means five chips, each with a count at least its own |
| Languages.TopLanguagesTiesByFirstUse | script.js:169-175 | among equal counts, chips follow the order in which the languages were first used |
| Languages.NoChipsIffNoLanguages | script.js:169-179 | no chips are rendered iff no repository has a non-empty language |
| RepoList.LinkFor | script.js:192-200 | a link's href and name are the repository's; a missing star or fork count shows as 0; the language label appears iff the language is truthy; the push-time label appears iff there is a push time, and is `RelativeTime` of the time since |
| RepoList.Listed | script.js:186-202 | the placeholder iff there are no repositories; otherwise min(8, n) links, the i-th built from the i-th repository in API order |
| RepoList.AddReposToCard | script.js:183-202 | the loop appends exactly the links `Listed` describes |
| Lookup.UserKey | script.js:13 | the `user:` prefix followed by the name as given; the body is the model, and `KeysNeverCollide` and `KeysDetermineUsername` state its properties |
| Lookup.ReposKey | script.js:47 | the `repos:` prefix followed by the name as given; the body is the model, and `KeysNeverCollide` and `KeysDetermineUsername` state its properties |
| Lookup.KeysNeverCollide | script.js:13-47 | a profile key never equals a repository key |
| Lookup.KeysDetermineUsername | script.js:13-47 | equal keys of the same kind belong to the same username |
| Lookup.Consult | script.js:15-21 | a hit returns the cached value, sends nothing and leaves the cache alone; a miss sends one request for that key and stores the body only on success |
| Lookup.StoringProfileKeepsWellFormed | script.js:13-20 | after the profile step, profile keys hold profiles and repository keys hold repository lists |
| Lookup.StoringReposKeepsWellFormed | script.js:47-54 | the same after the repository step |
| Lookup.ReposPhase | script.js:42-63 | the repository step keeps the cache well-formed |
| Lookup.LookUpUser | script.js:10-40 | a lookup keeps the cache well-formed |
| Lookup.ProfileFailureIsTerminal | script.js:18-38 | an uncached profile whose request fails shows the classified error, sends only the profile request and leaves the cache unchanged |
| Lookup.RequestsOnlyOnMiss | script.js:13-55 | a request goes out only for a key not already cached; the profile request comes first, and a repository request is sent only once the profile is cached |
| Lookup.CacheOnlyStoresFetchedReplies | script.js:13-55 | cached entries are never changed; each new entry is the body of a successful reply to a request this lookup sent |
| Lookup.ProfileCardShowsCache | script.js:23-60 | a profile card shows the cached profile, with chips and links computed from the cached repositories |
| Lookup.FullyCachedLookup | script.js:15-60 | with both keys cached, a lookup sends nothing, keeps the cache and shows the card built from the cache, whatever the API would reply |
| Lookup.RepeatLookupSendsNothing | script.js:13-60 | after a lookup that showed a profile card, looking the same name up again sends nothing and shows the same card |
| Lookup.RepositoryFailureMessage | script.js:61-63 | a failed repository request of any kind shows the repository error card; the profile stays cached and the repositories are not |
| Triggers.Trim | script.js:220 | the trimmed text is empty iff the text is all JavaScript white space; otherwise it starts and ends with a non-white-space character |
| Triggers.TrimCutsWhitespaceOnly | script.js:220 | the trimmed text is a contiguous part of the text, and only white space lies before and after it |
| Triggers.TrimLeavesUnpadded | script.js:220 | text with no white space at either end is unchanged by trimming |
| Triggers.TrimIdempotent | script.js:220 | trimming twice is trimming once |
| Triggers.Next | script.js:205-228 | typing cancels any timer and schedules one for the trimmed text, or none and clears the display when that is blank; the timer looks up its name and is gone; submit looks up the untrimmed field if it is non-empty, empties the field and leaves the timer running |
| Triggers.TypingOnlySchedules | script.js:218-228 | a burst of typing looks nothing up and leaves one timer, for the last text |
| Triggers.DebounceLooksUpLastTextOnly | script.js:218-228 | typing then a pause looks up exactly the trimmed last text once, or nothing when it is blank |
| Triggers.SubmitThenTimerLooksUpTwice | script.js:205-228 | submitting during the idle interval looks up the untrimmed text, and the timer then looks up the trimmed text again |
| Triggers.TypingOctThenOcto | script.js:218-228 | typing "oct", then "octo", then pausing looks up "octo" only |
| App.Page.constructor | script.js:6-7 | the page starts with an empty cache, an empty display and field, no timer and no requests |
| App.Page.GetRepos | script.js:42-64 | the cache, display and requests become those of `Lookup.ReposPhase`; the field and the timer are untouched |
| App.Page.GetUser | script.js:10-40 | the cache, display and requests become those of `Lookup.LookUpUser`; the field and the timer are untouched |
| App.Page.OnInput | script.js:218-228 | the field and the timer become those of `Triggers.Next` on the input; the display is cleared exactly when it says so; cache and requests are untouched |
| App.Page.OnTimer | script.js:225-227 | the timer is consumed; when one was pending, the lookup `Triggers.Next` names runs as `Lookup.LookUpUser` describes, otherwise nothing changes |
| App.Page.OnSubmit | script.js:205-215 | the field and the timer become those of `Triggers.Next` on submit; a non-empty field is looked up as `Lookup.LookUpUser` describes, otherwise nothing changes |

## Left out

- The markup and the rendered card fields: `ProfileCard` keeps the `User` record itself. The fields `createUserCard` renders from it are not computed by any member, the shown name `user.name || user.login` and the website link `normalizeUrl(user.blog)` included (`script.js:67-73`). `Format.NormalizeUrl` is modelled on its own.
- The loading text of `renderInfo` and the repository spinner: they appear only as intermediate states inside `App.Page.GetUser` and `App.Page.GetRepos`, and a later write to `#main` always replaces them. The functions of `Lookup` describe only the final display.
- The network and axios: requests are the reply parameters. A body the script cannot render (a malformed payload) is not modelled.
- Asynchrony: `getRepos` is not awaited, and lookups for different names can interleave. A stale reply can then overwrite a newer view. The model runs each lookup to completion, in event order.
- Real time: the 400 ms wait (`DEBOUNCE_MS`) is the `Fire` event, not a clock.
- Locale formatting: `toLocaleTimeString`, `toLocaleDateString` and `Intl.NumberFormat` are not modelled. Stars and forks are kept as numbers, and the reset time is rendered by the `localTime` parameter.
- Date parsing: `new Date(iso)` is not modelled. A push time is given as milliseconds, so an unparsable date (NaN, shown as "NaNs ago") is not represented. The `try`/`catch` in `relativeTime`, which nothing in its body triggers, is not modelled either.
- Floating point: the elapsed time is an integer number of milliseconds. `Math.floor` of the division is Dafny's `/` by a positive divisor.
- JavaScript object keys: a language named like an array index ("1") would be ordered first by `Object.entries`. A language named after an `Object.prototype` member ("constructor") would start from that member instead of `0`. Both are left out; the table is modelled in insertion order starting from zero.
- Characters: strings are sequences of Unicode characters, not UTF-16 code units. Case-insensitive scheme matching folds ASCII letters only, as the regular expression's `i` flag does for "http".
- Languages.TallyLanguages: a `map` plus the key order stands for the plain object `counts`.
- `ensureReposContainer`: it creates a `#repos` element when none exists, but in the flow modelled the profile card always provides one. `App.Page.GetRepos` requires the profile card it is called after.
