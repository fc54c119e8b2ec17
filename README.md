# Senacoins collection game — a Dafny model

This project models the core of a small browser game and its REST backend.
Players log in with name, email and phone and play timed rounds, clicking
items to collect points. Finishing a round adds a report to the player's
record and credits one senacoin for every 10 points. Coins are spent in a
shop whose items (extra time, a score multiplier) are used during the next
rounds. A ranking, statistics and a name search fold over all players'
reports.

The model has eleven modules:

- `Common` (common.dfy) holds the shared vocabulary:
  - optional values and the 400/404/ok outcome of a handler;
  - JavaScript's `||` defaulting;
  - ASCII lower-casing and whitespace;
  - substring search;
  - the filter / stable sort / sum / slice pipelines;
  - `Math.round` of a quotient, stated in integers.
- `Sessions` (sessions.dfy) covers the game session record:
  - the constructor defaults;
  - the mutating `save`, `updateScore`, `complete`, `pause` and `resume`, on a class `GameSession` over a class `SessionStore`;
  - the two finders.
- `Users` (users.dfy) covers the user record:
  - the email ↔ key encoding;
  - loading with defaults;
  - reports and the totals folded from them;
  - the mutating `updateScore`, `spendSenacoins`, bonus flags and `updateLogin`, on a class `User` over a class `UserStore`.
- `GameController`, `ShopController`, `AuthController` and `ReportsController` are the request handlers. Each guard is an early error answer, and the model says what the store holds afterwards.
- `ConfigTree` (config.dfy) models the client configuration tree and its dotted-path `getConfig` / `setConfig`.
- `ShopClient`, `GameClient` and `ReportsClient` are the page logic:
  - the purchased-items inventory and the purchase-button rule;
  - the game manager's flags, click points, consumables, countdown tick and pause/end guards;
  - the reports table's local filter and server search.

Modelling conventions:

- The database becomes two store objects.
  - Sessions live in a map keyed by positive numbers, issued in increasing order, which stand in for the database's push keys.
  - Users live in a map keyed by the encoded email, together with the order in which they registered. The database itself lists them by key; see "## Left out".
- `Date.now()`, and the ISO time stamps the page writes, are parameters.
- A reply from the server is a parameter of the client method that receives it.
- The interval tick and the multiplier's 60-second expiry are methods called as events.
- Fields that may be absent or falsy are `Option` values, so `x || d` reads `None` and falsy values alike as `d`.

`decodeEmail` is written as the inverse of `encodeEmail`
(backend/models/User.js:22-29), but it is not an exact inverse. `Users.CommaDoesNotRoundTrip` and `Users.UnderscoreDoesNotRoundTrip`
prove two concrete counterexamples, and `Users.DecodeEncode` proves the round
trip for emails with no `,` and no `_`.

## Model

| member | source | states |
|---|---|---|
| Common.SortDescCorrect | backend/models/User.js:250-253 | the stable insertion sort returns a permutation of its input, ordered by key descending |
| Common.SortDescConstantKey | backend/models/User.js:147 | sorting by a key that is the same for every element returns the list unchanged |
| Common.RoundedPercentBounds | backend/controllers/reportsController.js:96 | the rounded percentage of a part of a whole (0 <= part <= whole, whole > 0) lies in 0..100 |
| Common.ContainsIff | backend/controllers/reportsController.js:131 | `includes` holds exactly when the query occurs at some index |
| Sessions.FalsyFieldsTakeDefaults | backend/models/GameSession.js:7-12 | a missing or 0 phase, target or time becomes 1, 100 or 60; a missing counter map becomes zero counters; a missing status becomes active |
| Sessions.ReadBackKeepsRecord | backend/models/GameSession.js:42-52 | reading a stored session back keeps it when no field is falsy; a stored 0 phase, target or time comes back as its default; status, score and owner are always kept |
| Sessions.DefaultsAreStable | backend/models/GameSession.js:4-17 | with a non-zero clock, a record built by the constructor has no falsy field, so reading it back gives the same record |
| Sessions.Tally | backend/models/GameSession.js:118-120 | the counter for the item type goes up by one only when the type is truthy and already a key; every other counter and the key set are unchanged |
| Sessions.ClientItemTypesAreNotCounted | backend/models/GameSession.js:118-120 | for counters keyed pens/cups/books, the types pen, cup and book change no counter |
| Sessions.CompleteAgain | backend/models/GameSession.js:130-139 | complete gives completed iff score >= target, otherwise failed; completing a second time gives the same status |
| Sessions.PauseThenResume | backend/models/GameSession.js:142-161 | pause then resume restores the record except updatedAt; resume reactivates even a completed or failed session |
| Sessions.GameSession.constructor | backend/models/GameSession.js:4-17 | the new object holds the given id and the `||`-defaulted fields |
| Sessions.GameSession.Save | backend/models/GameSession.js:20-39 | without an id, the next fresh key is taken and the record stored there; with an id, the record overwrites that key; updatedAt becomes now, createdAt too for a new record; no other session changes |
| Sessions.GameSession.UpdateScore | backend/models/GameSession.js:114-127 | score rises by exactly points, counters as `Tally`, other fields unchanged, record saved |
| Sessions.GameSession.Complete | backend/models/GameSession.js:130-139 | status is completed iff score >= target, else failed; completedAt is now; record saved |
| Sessions.GameSession.Pause | backend/models/GameSession.js:142-150 | status becomes paused whatever it was; nothing else but updatedAt changes |
| Sessions.GameSession.Resume | backend/models/GameSession.js:153-161 | status becomes active whatever it was; nothing else but updatedAt changes |
| Sessions.LoadSession | backend/models/GameSession.js:42-55 | null exactly for a missing key; otherwise a fresh object holding the stored record read back with defaults |
| Sessions.FindById | backend/models/GameSession.js:42-55 | found iff the key is stored; the stored record read back with its defaults, with the stored status kept |
| Sessions.FindActiveByUserId | backend/models/GameSession.js:58-86 | none iff the user has no active session; otherwise an active session of that user whose createdAt is maximal among them (paused ones are never returned) |
| Sessions.LoadedOf | backend/models/GameSession.js:89-101 | each stored session of the user, as loaded, exactly once, and nothing else |
| Sessions.FindByUserId | backend/models/GameSession.js:89-111 | exactly `slice(0, limit)` of the user's sessions in number (min(limit, n) for a non-negative limit), each at most once, ordered by createdAt descending, and no session of the user left out is newer than one returned |
| Sessions.HistoryIsComplete | backend/models/GameSession.js:102-105 | when the limit is at least the number of the user's sessions, every one of them is in the history |
| Users.EncodedKeyHasNoDotOrAt | backend/models/User.js:22-24 | an encoded key contains no `.` and no `@` |
| Users.EncodedKeyNonEmpty | backend/models/User.js:22-24 | a non-empty email gives a non-empty key |
| Users.DecodeEncode | backend/models/User.js:22-29 | decoding the encoding gives the email back when it has no `,` and no `_` |
| Users.CommaEncodesLikeDot | backend/models/User.js:22-24 | a `,` and a `.` in the same place give the same key |
| Users.CommaDoesNotRoundTrip | backend/models/User.js:22-29 | `a,b@c.d` and `a.b@c.d` share a key, and the key decodes to `a.b@c.d` |
| Users.UnderscoreDoesNotRoundTrip | backend/models/User.js:22-29 | `_at@` encodes to `_at_at_`, which decodes to `@at_` |
| Users.FindById | backend/models/User.js:86-109 | found iff the key is stored; fullname and login count are kept; a stored balance of 0 reads as 100 |
| Users.FindByEmail | backend/models/User.js:59-83 | found iff the encoded email is a stored key, and the result carries that key |
| Users.SpentOutBalanceReadsAsHundred | backend/models/User.js:100 | a user whose stored balance is 0 is loaded with 100 coins |
| Users.GetReports | backend/models/User.js:241-257 | the stored reports, as a permutation, sorted by date descending |
| Users.ToJSON | backend/models/User.js:270-291 | totalScore is the sum of report scores; pens/cups/books are per-key sums with a missing key as 0; reportsCount is the number of reports; id, name and balance are kept |
| Users.TotalScoreNonNegative | backend/models/User.js:260-267 | reports with non-negative scores give a non-negative total |
| Users.FindAll | backend/models/User.js:112-153 | one view per listed user in listing order, each equal to that user's loaded view with its report folds |
| Users.User.constructor | backend/models/User.js:4-19 | the new object holds the `||`-defaulted fields (balance 100, login count 0, default bonuses) |
| Users.User.Save | backend/models/User.js:32-56 | without an id, the id becomes the encoded email; profile and bonuses are written at that key and reports are kept; a new key is appended to the listing |
| Users.User.UpdateScore | backend/models/User.js:156-184 | exactly one report is appended with the given score and the defaulted status, phase and counters; the balance rises by floor(score/10); the stored lastLogin becomes now |
| Users.User.SpendSenacoins | backend/models/User.js:187-199 | refused, with the balance unchanged, when the balance is below the amount; otherwise the balance drops by exactly the amount, so a non-negative balance stays non-negative |
| Users.User.ActivateBonus | backend/models/User.js:202-210 | exactly the named flag is set to true |
| Users.User.DeactivateBonus | backend/models/User.js:213-221 | exactly the named flag is set to false |
| Users.User.UpdateLogin | backend/models/User.js:224-238 | the login count rises by exactly 1 and lastLogin becomes now |
| Users.NewReport | backend/models/User.js:160-167 | the report has the given score and date; a falsy status becomes `Concluído`, a falsy phase 1 and missing counters zero |
| Users.AppendedReportAddsToTotal | backend/models/User.js:263 | appending a report raises the score total by that report's score |
| Users.LoadUser | backend/models/User.js:86-109 | null exactly for a missing key; otherwise a fresh object with the loaded fields, a stored 0 balance read as 100 |
| GameController.NewSessionData | backend/controllers/gameController.js:36-48 | a new session is active with score 0, time 60 and zero counters; its target is phase*100, where phase 0 is read back as phase 1 with target 100 |
| GameController.StartTargets | backend/controllers/gameController.js:37 | a non-zero phase gets target phase*100; phase 0 gives the same session as phase 1 |
| GameController.StartGame | backend/controllers/gameController.js:6-63 | 400 without a user id and 404 for an unknown user, neither creating anything; the newest active session is returned unchanged when there is one; otherwise exactly one new session is stored under a fresh key |
| GameController.UpdateScore | backend/controllers/gameController.js:66-109 | missing or non-positive points give 400 before any lookup; then 404 for a missing session and 400 for one not active, with the store unchanged; otherwise the session gets the points and the store nothing else |
| GameController.ReportLabel | backend/controllers/gameController.js:131 | the label is `Concluído` iff the status is completed, and `Falhou` otherwise |
| GameController.EndedLabel | backend/controllers/gameController.js:124-134 | the label of an ended session is `Concluído` iff its score reached its target |
| GameController.CreditOwner | backend/controllers/gameController.js:127-137 | a missing owner changes nothing; otherwise one report is appended and the loaded balance rises by floor(score/10) |
| GameController.EndGame | backend/controllers/gameController.js:112-153 | 404 for a missing session; otherwise, with no status check, the session is completed again and its owner gets another report and credit |
| GameController.PauseGame | backend/controllers/gameController.js:156-183 | 404 for a missing session; otherwise its status becomes paused |
| GameController.ResumeGame | backend/controllers/gameController.js:186-213 | 404 for a missing session; otherwise its status becomes active |
| GameController.GetActiveSession | backend/controllers/gameController.js:216-241 | 404 iff the user has no active session; otherwise the answer of `findActiveByUserId`: an active session of that user, its stored record read back, and no active session of the user was created later |
| GameController.GetGameHistory | backend/controllers/gameController.js:244-263 | the user's history under `parseInt(limit) \|\| 10`: exactly min(10, n) sessions with no usable limit and min(limit, n) with a positive one, newest first |
| ShopController.PricesMatchCatalog | backend/controllers/shopController.js:7-101 | every catalog item is priced at its listed price, the price table sells nothing else, and every price is positive |
| ShopController.PurchaseItem | backend/controllers/shopController.js:73-136 | 400 for a missing user or item id, 404 for an unknown user, 400 for an unpriced item and 400 for too few coins, each with the store unchanged; on success the loaded balance drops by exactly the price |
| ShopController.GetUserBalance | backend/controllers/shopController.js:139-164 | 404 iff the user is unknown; otherwise the loaded balance, where a stored 0 shows as 100 |
| AuthController.EmailShapeIsRegex | backend/controllers/authController.js:18-24 | the executable email check accepts exactly the strings matching `^[^\s@]+@[^\s@]+\.[^\s@]+$` |
| AuthController.ShapeGivesMatch | backend/controllers/authController.js:18 | an accepted email has a split into local part, domain head and domain tail as the regex requires |
| AuthController.MatchGivesShape | backend/controllers/authController.js:18 | any split the regex accepts makes the executable check accept |
| AuthController.Login | backend/controllers/authController.js:5-65 | a missing or empty field gives 400 before the email check, and a bad email gives 400, neither changing the store; a known user gets name and phone replaced and one more login, and the loaded profile is written back, so a stored 0 balance becomes 100; a new user is stored under the encoded email with 100 coins and login count 1 |
| AuthController.GetUser | backend/controllers/authController.js:68-95 | 404 iff the id is unknown; otherwise the view of that user: the stored name and login count, the balance with a stored 0 read as 100, and the number and total score of the stored reports |
| AuthController.UpdateUser | backend/controllers/authController.js:98-124 | 404 for an unknown id with nothing changed; otherwise the truthy name and phone replace the loaded ones and the loaded profile is saved, so a stored 0 balance becomes 100 |
| ReportsController.GetUserRanking | backend/controllers/reportsController.js:6-28 | the first min(limit, n) listed users (50 when the limit is missing, unparsable or 0) with position index+1 and each user's id, name, total score, balance, pens, cups, books and creation time |
| ReportsController.StatsOf | backend/controllers/reportsController.js:43-55 | the user count and the five totals (score, senacoins, pens, cups, books) are sums over all users' views; the average is the total over the count rounded half up, 0 with no users; topPlayer is the first user or none |
| ReportsController.AverageWithinScores | backend/controllers/reportsController.js:50 | the rounded average lies between the smallest and the largest score |
| ReportsController.StatsSplit | backend/controllers/reportsController.js:43-49 | the count and the five totals add up over two stretches of the user list |
| ReportsController.GetGeneralStats | backend/controllers/reportsController.js:39-61 | the statistics of the listed users' views, with the count equal to the number of listed users |
| ReportsController.GeneralStatsFields | backend/controllers/reportsController.js:43-55 | the answer field by field: the count, the five totals as sums of the users' views, the rounded average (0 with no users) and the first listed user as top player |
| ReportsController.StatsOfSessions | backend/controllers/reportsController.js:87-97 | completed and failed are the counts of those statuses, completed+failed <= total, successRate is round(100*completed/total) in 0..100, and 0 with no sessions |
| ReportsController.GetUserReport | backend/controllers/reportsController.js:72-105 | 404 iff the user is unknown; at most 20 sessions are counted, and the recent sessions are exactly the first min(10, n) of them |
| ReportsController.SearchIn | backend/controllers/reportsController.js:127-146 | the results are the first min(total, 20) users whose lower-cased name contains the lower-cased query; total counts all matches |
| ReportsController.SearchFindsEveryMatch | backend/controllers/reportsController.js:130-145 | every matching user is counted, and is returned when there are at most 20 matches |
| ReportsController.SearchResultsMatch | backend/controllers/reportsController.js:130-132 | every returned user matches the query |
| ReportsController.SearchUsers | backend/controllers/reportsController.js:116-147 | 400 iff the query is missing or shorter than 2; otherwise the search over the listed users: the total is the number of all matches, and the results are the first min(total, 20) matches in listing order |
| ConfigTree.JoinSplit | frontend/js/config.js:56 | splitting a key at `.` and joining it again gives the key back |
| ConfigTree.GetUndefined | frontend/js/config.js:51 | any path read from undefined gives undefined |
| ConfigTree.GetFalsy | frontend/js/config.js:51 | any path read from a falsy value gives that value |
| ConfigTree.GetStopsAtFalsy | frontend/js/config.js:50-52 | once a prefix of the path reaches a missing or falsy node, the read gives that node |
| ConfigTree.GetAppend | frontend/js/config.js:51 | reading a path a+b is reading b from the node at a |
| ConfigTree.GetAfterSet | frontend/js/config.js:55-59 | when every truthy node on the path is an object (a falsy one is replaced by `{}`), reading the written path gives the written value |
| ConfigTree.SetCreatesPath | frontend/js/config.js:58 | after a write, every prefix of the path holds an object when every truthy node on it is an object |
| ConfigTree.SetFrame | frontend/js/config.js:55-59 | when every existing node on the written path is an object, a path that leaves it at some step reads the same before and after the write |
| ConfigTree.GetConfigAfterSetConfig | frontend/js/config.js:50-59 | `getConfig(k)` after `setConfig(k, v)` gives v when every truthy intermediate node is an object |
| ConfigTree.PointsInTree | frontend/js/config.js:9-13 | the tree holds base points pen 10, cup 15, book 20 |
| ConfigTree.PhaseTargetsAgree | frontend/js/config.js:14-20 | phase p's target in the tree is the server's p*100 for p in 1..5 |
| ConfigTree.Settings.Set | frontend/js/config.js:55-60 | the tree becomes the written tree, and reading the key back gives the value when its path is open |
| ShopClient.Unused | frontend/js/shop.js:220-223 | exactly the unused entries are kept |
| ShopClient.UnusedSplits | frontend/js/shop.js:220-223 | the unused view of two stretches is the view of the first followed by that of the second, so stored order and repeats are kept |
| ShopClient.UnusedOfOne | frontend/js/shop.js:220-223 | a single entry is listed exactly when it is unused |
| ShopClient.AppendedIsListed | frontend/js/shop.js:197-203 | appending an unused entry appends it to the unused view, with earlier entries in their order |
| ShopClient.FirstWaiting | frontend/js/shop.js:228 | the index of the first unused entry of that item, or -1 exactly when there is none |
| ShopClient.MarkCounts | frontend/js/shop.js:228-231 | marking an unused entry lowers its item's unused count by exactly 1 and leaves every other item's count unchanged |
| ShopClient.AfterMark | frontend/js/shop.js:226-238 | only the first unused entry of the item is marked, every other entry is kept, the length is kept, and the item's unused count drops by 1; with none, the list is unchanged |
| ShopClient.Inventory.ApplyItemEffect | frontend/js/shop.js:195-217 | exactly one unused entry is appended at the end |
| ShopClient.Inventory.GetPurchasedItems | frontend/js/shop.js:220-223 | the unused view of the stored list, in stored order |
| ShopClient.Inventory.MarkItemAsUsed | frontend/js/shop.js:226-238 | true iff an unused entry of the item exists, and the list becomes `AfterMark` |
| ShopClient.PurchaseButton | frontend/js/shop.js:112-126 | the button is disabled, labelled `Sem Senacoins`, iff balance < price; otherwise it is labelled `Comprar` |
| ShopClient.ButtonAgreesWithServer | frontend/js/shop.js:116-124 | shown the server's balance, a catalog button is disabled exactly when the server would refuse the purchase for too few coins |
| GameClient.ClickPoints | frontend/js/game.js:255-261 | the configured base points, or 10 for an unknown type, doubled iff the multiplier is on; always at least 10, so the server's positive-points check passes |
| GameClient.NextPhase | frontend/js/game.js:181-189 | phase+1 when there is a session with a truthy phase, otherwise none |
| GameClient.GameManager.constructor | frontend/js/game.js:3-13 | no session, game inactive, not paused, multiplier off, empty inventory |
| GameClient.GameManager.SetupGameSession | frontend/js/game.js:191-201 | with a session, the game is active and unpaused, the multiplier is off and the unused inventory is loaded; without one, nothing changes |
| GameClient.GameManager.StartNewGame | frontend/js/game.js:157-179 | not logged in or a failed reply changes nothing; otherwise the reply's session is set up |
| GameClient.GameManager.StartNextPhase | frontend/js/game.js:181-189 | asks for `NextPhase` of the current session; with none, nothing changes; a successful reply becomes the session of a running, unpaused game with the multiplier off and the inventory reloaded |
| GameClient.GameManager.EndGame | frontend/js/game.js:297-315 | ends iff the game was active, and leaves it inactive, so a game ends at most once |
| GameClient.GameManager.Tick | frontend/js/game.js:206-213 | an active unpaused game loses exactly one second and ends as a defeat once at or below 0, keeping the pause state, the multiplier and the loaded items; otherwise nothing changes |
| GameClient.GameManager.HandleGameAreaClick | frontend/js/game.js:250-281 | nothing is sent when stopped or paused or when the click hits no item; otherwise `ClickPoints` is sent, a successful reply becomes the session, and the game ends as a victory iff its score reached its target; the pause flag, the multiplier flag and the loaded items are kept |
| GameClient.GameManager.UseItem | frontend/js/game.js:103-144 | inactive or paused, or an unknown item, or the multiplier already on: nothing changes; time-bonus adds exactly 30 seconds; the multiplier otherwise turns on; an item that takes effect is marked used in the inventory |
| GameClient.GameManager.MultiplierExpired | frontend/js/game.js:126-130 | the multiplier goes off and nothing else changes |
| GameClient.GameManager.TogglePause | frontend/js/game.js:346-357 | inactive: nothing changes; active: the pause flag flips |
| GameClient.GameManager.PauseGame | frontend/js/game.js:359-363 | paused whatever the state |
| GameClient.GameManager.ResumeGame | frontend/js/game.js:365-369 | unpaused whatever the state |
| GameClient.GameManager.GoHome | frontend/js/game.js:371-375 | a running game is left paused; a stopped one is unchanged; the session, the multiplier flag and the loaded items are kept |
| GameClient.GameManager.ExitGame | frontend/js/game.js:377-398 | a running game is stopped, unpaused and forgets its session; a stopped one is unchanged |
| ReportsClient.LocalMatches | frontend/js/reports.js:115-118 | exactly the rows whose lower-cased name contains the lower-cased, untrimmed query |
| ReportsClient.LocalMatchesKeepOrder | frontend/js/reports.js:116-118 | the filter distributes over concatenation, so table order is kept |
| ReportsClient.EmptyQueryMatchesAll | frontend/js/reports.js:115-118 | the empty query keeps every row |
| ReportsClient.Numbered | frontend/js/reports.js:140-143 | one row per result, in reply order, with position index+1 and the result's fields |
| ReportsClient.ReportsManager.LoadReportsData | frontend/js/reports.js:16-33 | a successful ranking becomes both the loaded and the shown rows; otherwise nothing changes |
| ReportsClient.ReportsManager.FilterData | frontend/js/reports.js:111-125 | a blank query shows every loaded row; any other query shows `LocalMatches`; the loaded rows never change |
| ReportsClient.ReportsManager.SearchUsers | frontend/js/reports.js:128-153 | a query shorter than 2 resets to the loaded rows without asking; a successful reply is shown numbered 1..n; a failed request falls back to the local filter; the loaded rows never change |
| ReportsClient.ServerSearchShown | frontend/js/reports.js:137-143 | the server's answer to a query of 2 or more characters is shown as at most 20 matching rows numbered 1..n |

## Left out

- The database (the Firebase Realtime Database) is replaced by the two store objects. Storage errors, their wrapping into thrown errors, and the 500 answers are not modelled.
- HTTP, routing, middleware and the client's API wrapper are not modelled. A handler returns a `Response` value, and a client method takes the server's reply as a parameter.
- Rendering, notifications, icons, overlays, `renderInventory`, `showGameResult`, `handleOverlayAction`'s dispatch on button text, and the page's button disabling are UI only.
- Randomness and timers are not modelled: item generation and placement (`generateGameItems`, `createGameItem`) and audio (`loadAudioSettings`, `playCollectSound`). The interval tick and the multiplier's expiry are separate events that a caller may fire at any time.
- Concurrency is not modelled. The read-modify-write request paths run one at a time.
- `toLowerCase` and `\s` are full Unicode in JavaScript. The model uses ASCII lower-casing and a fixed set of whitespace characters. String lengths count characters, not UTF-16 units.
- `Math.round` on floating-point quotients is stated exactly in integers (round half up).
- Property names from the object prototype, such as `constructor` passed as an item type, item id or bonus name, are not modelled.
- Session keys stand for push ids, which the database lists in creation order. The model's keys increase in the same way.
- Users.FindAll: the database lists children in key order, so `Object.entries` yields the users sorted by encoded email. The model's `order` instead holds keys in registration order: `Users.User.Save` appends each new key. The model's user listing is therefore registration order, not key order.
- ReportsController.GetUserRanking: the first `limit` users of the ranking are taken in registration order, for the reason given under `Users.FindAll`.
- ReportsController.GetGeneralStats: the top player is the first user in registration order, for the reason given under `Users.FindAll`. The totals do not depend on the order.
- ReportsController.SearchUsers: when more than 20 users match, the first 20 are taken in registration order, for the reason given under `Users.FindAll`.
- GameController.UpdateScore: `points` is an integer. A request body may carry a fractional number or a numeric string. Either passes the guard, and a string would make `this.score += points` concatenate. Neither case is modelled.
- Users.EncodeEmail: the email check lets through characters that are special in database paths. A `/` turns the key into a nested path, which `findAll` would then skip; `#`, `$`, `[` and `]` make the write fail. The model treats every key as one flat child.
- The push ids of reports are not modelled. A user's reports are a sequence.
- Session ids are positive numbers, so a request with a non-numeric id is modelled as a missing session.
- Writes to user keys that are not stored are not modelled. The mutating `User` methods require a stored record, as every caller loads one first.
- The empty key cannot model the database root. `Users.User.Save` therefore requires a truthy id or a non-empty email. The store never holds the empty key.
- `Users.FindAll`: `findAll` does not keep `totalScore` in the constructed user, so its `|| 0` sort key is 0 for everyone; the model keeps the listing order. The views carry the intended report folds rather than the undefined fields the code produces.
- `ShopController.PurchaseItem`: the user view in the answer is the intended data of `toJSON`. The code sends an un-awaited promise there (the same holds in `ReportsController.GetUserReport`).
- `ShopController.GetUserBalance`: the `user` field of the answer is the intended data of `toJSON`, so its balance equals `balance`. The code sends an un-awaited promise there too (backend/controllers/shopController.js:154), which reaches the page as `{}`. The page reads only `balance`.
- `Users.ToJSON`: `getTotalScore`'s error branch (which gives 0) is not modelled, because the store cannot fail.
- `ConfigTree.SetConfig`: `setConfig` mutates the shared tree in place, and aliasing between subtrees is not modelled. The model returns the written tree, and a property read on a primitive gives undefined.
- `GameClient.GameManager.UseItem`: the page ignores the result of `markItemAsUsed`. The model does the same, so an item without an unused entry still takes effect.
- `GameClient.GameManager.EndGame` and `GameClient.GameManager.ExitGame`: the server calls they make are modelled on the server side (`GameController.EndGame`). The client model does not wait for their result.
- `getShopItems` is the `ShopController.Catalog` constant. The endpoint only returns it.
