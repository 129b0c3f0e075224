# MLB stat tracker and score ticker — verified model

This project models the data-handling core of two small Python programs.

* `1.py` is a Streamlit page that tracks a baseball player's statistic.
  It lists today's games from a scoreboard document (`fetch_games`).
  It lists the athletes of a chosen game from a box-score document
  (`fetch_players`). It reads one athlete's statistic by label
  (`fetch_player_stat`). It keys game ids by game name (`game_options`).
  It keeps a list of tracking cards that the "Add Tracker" button appends
  to. Each card is coloured by whether its statistic reached the target.
* `initialSample.py` is a Qt window. Its sidebar shows the title and body
  of a post, and its ticker shows the scores of the first five events of
  a league. Each refresh catches any failure and shows a fixed error
  prefix followed by the exception text.

Every HTTP request is cut at `response.json()`. The decoded document is an
input value (`PyJson.Json`: null, bool, int, str, list, dict with entries
in decoding order). A refresh of the Qt window receives either that
document or the exception the request raised. The Python operations the
programs apply to documents are modelled with their Python outcomes, and
each exception they can raise is an `Err` value, never a precondition.
These operations are `d.get(k, default)`, `d[k]`, `x[0]`, iteration,
truthiness, hashability, `zip`, `dict`, `int()`, `str()`, `sorted(set())`
and `join`.

Modules:

* `PyJson` (json.dfy): documents, errors, and the Python operations on
  documents.
* `PyText` (text.dfy): `str(n)` and `int(x)` with a round-trip proof, the
  text an f-string inserts for a value, and `join`.
* `StringOrder` (order.dfy): Python's `<` on `str`, and `sorted(set(xs))`
  as an insertion into a strictly ascending list.
* `Boxscore` (boxscore.dfy): `fetch_players` and `fetch_player_stat`.
  Each nested loop is a `method` proved equal to a tail-recursive
  function. The lemmas about those functions state what the source
  promises.
* `Scoreboard` (scoreboard.dfy): `fetch_games` (a method with its loop)
  and `game_options`.
* `Cards` (cards.dfy): the card list as a class whose `cards` field only
  grows, the met-target colour, and the render pass.
* `Dashboard` (dashboard.dfy): the ticker and sidebar texts, and
  `MainWindow` as a class. Its `UpdateSidebar` and `UpdateTicker` methods
  overwrite one widget's text exactly once. A ghost log of `setText`
  calls makes that statement possible.

The text field of the card form suggests "Hits" as a statistic
("Stat to Monitor (e.g., Hits)"). The code matches the label typed in
against the box score's labels exactly, character for character. If the
box score labels the hits column "H" (an abbreviation neither program
shows), "Hits" reads the default `"0"`, that is 0, and only "H" reads the
value. The model follows the code:
`Boxscore.ExampleStatValues` proves both outcomes on a one-athlete
document.

## Model

| member | source | states |
|---|---|---|
| PyJson.Lookup | 1.py:32 | a dict yields the value of the LAST entry with that key, and nothing exactly when no entry has the key |
| PyJson.Keys | 1.py:13 | iterating a dict visits each key once, and exactly the keys that occur |
| PyJson.Get | 1.py:13-16 | `.get` fails exactly on a value that is not a dict; a present key yields its stored value (even null), and the default stands in only for an absent key |
| PyJson.Subscript | 1.py:32 | `x[k]` succeeds exactly on a dict holding `k` and yields that key's value; a dict without `k` raises `KeyError(k)` |
| PyJson.Iter | 1.py:13 | a `for` loop runs over a list's items, and raises on anything that is not a list, string or dict |
| PyJson.IterElements | 1.py:29-31 | a `for` loop over a string yields its characters one by one, in order; over a dict it yields each key that has an entry, exactly once |
| PyJson.Truthy | 1.py:17 | defines Python truthiness; no contract of its own, `Scoreboard.EventGamesRecord` and `Scoreboard.GamesAreRecords` state what `if competitions:` decides |
| PyJson.Hashable | 1.py:55 | defines which values can be dict keys or set members (not a list or dict); no contract of its own, `Scoreboard.GameOptions`, `Scoreboard.GameOptionsFirstUnhashable`, `Boxscore.StrDictFails` and `Boxscore.StatValueUnhashableLabel` state its promises |
| PyJson.Describe | initialSample.py:55 | defines the text `{e}` gives for an exception; no contract of its own, `Dashboard.SidebarErrorLine`, `Dashboard.TickerErrorOnNullEvents` and `Dashboard.TickerWholesaleFailure` state where it appears |
| PyJson.First | 1.py:18 | `competitions[0]` is the first item of a non-empty list; it succeeds only on a list or string |
| PyText.ParseInt | 1.py:48 | `int(s)` succeeds exactly on an optional sign followed by one or more decimal digits |
| PyText.FormatNat | initialSample.py:63 | `str(n)` is a non-empty run of digits without a leading zero |
| PyText.ParseFormatRoundTrip | 1.py:48 | `int(str(n)) == n` for every integer |
| PyText.ToInt | 1.py:48 | `int(x)` is the number itself for an int and 1 or 0 for a bool; on a str it succeeds exactly on a literal, with the literal's value, and raises `ValueError` otherwise |
| PyText.JoinSnoc | initialSample.py:64 | joining one more part appends the separator and that part |
| PyText.Render | initialSample.py:63 | an f-string inserts a str unchanged and an int as `str(n)`, which parses back to n |
| PyText.FormatInt | initialSample.py:63 | defines `str(n)` for an int; no contract of its own, `PyText.FormatIntCanonical`, `PyText.FormatNat` and `PyText.ParseFormatRoundTrip` state its promises |
| PyText.FormatIntCanonical | initialSample.py:63 | `str(n)` is a minus sign exactly when n < 0, then digits with no leading zero (never "-0" or "+3"), and it reads back as n |
| PyText.Join | initialSample.py:64 | defines `sep.join(parts)`; no contract of its own, `PyText.JoinSnoc` and `Dashboard.TickerJoinsFirstEvents` state its promises |
| PyText.Repr | initialSample.py:63 | defines the text an f-string inserts for a list or dict element; no contract of its own, `PyText.Render` states the str and int cases |
| StringOrder.LessIrreflexive | 1.py:34 | no string sorts before itself |
| StringOrder.LessTransitive | 1.py:34 | the string order is transitive |
| StringOrder.LessTotal | 1.py:34 | of two different strings one sorts first |
| StringOrder.Insert | 1.py:34 | inserting into an ascending list keeps it strictly ascending, with the element added |
| StringOrder.SortedSet | 1.py:34 | `sorted(set(xs))` is strictly ascending and holds exactly the elements of `xs` |
| StringOrder.AscendingUnique | 1.py:34 | two strictly ascending lists with the same elements are equal |
| Scoreboard.TeamNames | 1.py:19 | the team list holds each competitor's display name in order, or fails with the first competitor's failure |
| Scoreboard.FetchGames | 1.py:12-21 | the loop returns exactly the games `Games` defines for the document, including its error |
| Scoreboard.Record | 1.py:14-20 | defines the record built for one event; no contract of its own, `Scoreboard.RecordContents` and `Scoreboard.EventGamesRecord` state its promises |
| Scoreboard.RecordContents | 1.py:14-20 | a record holds the event's id and name (None when absent) and every display name of the first competition's competitors, in order |
| Scoreboard.EventGamesRecord | 1.py:13-20 | an event without competitions adds nothing; an event with competitions adds its record |
| Scoreboard.GamesFromLength | 1.py:13-20 | a successful walk keeps the games it started with in front and adds exactly one game per event with competitions |
| Scoreboard.GamesFromShape | 1.py:13-20 | the walk succeeds only when every event is a dict, and adds one game per event with competitions after the earlier ones |
| Scoreboard.GamesFromRecords | 1.py:13-20 | the games appended are the records of the events with competitions, one for one, in input order |
| Scoreboard.RecordsAreAt | 1.py:13-20 | the k-th appended game is the record of the k-th event with competitions |
| Scoreboard.GamesAreRecords | 1.py:13-21 | `fetch_games` returns one record per event with non-empty competitions, in input order, and skips the others |
| Scoreboard.GamesFromSucceeds | 1.py:13-20 | when every event is a dict and every event with competitions has a readable record, the walk succeeds |
| Scoreboard.Games | 1.py:11-21 | defines what `fetch_games` returns for a document; no contract of its own, `Scoreboard.GamesAreRecords` and `Scoreboard.GamesFromSucceeds` state its promises |
| Scoreboard.GameOptions | 1.py:55 | the comprehension succeeds exactly when no game name is a list or dict |
| Scoreboard.GameOptionsFirstUnhashable | 1.py:55 | a failing comprehension raises the `TypeError` of the first game name that cannot be a key |
| Scoreboard.GameOptionsLastWins | 1.py:55 | every game name is a key, and a name shared by several games maps to the id of the last of them |
| Boxscore.AppendAthletes | 1.py:31-33 | the innermost loop appends every athlete's display name, in order |
| Boxscore.AppendGroups | 1.py:30-33 | the group loop appends the names of each group's athletes, group by group |
| Boxscore.FetchPlayers | 1.py:28-34 | the nested loops and `sorted(set(...))` return exactly `Players` of the document, including its error |
| Boxscore.Players | 1.py:28-34 | defines what `fetch_players` returns for a document; no contract of its own, `Boxscore.PlayersSortedAndComplete`, `Boxscore.PlayersAreTheNamedAthletes` and `Boxscore.PlayersUnique` state its promises |
| Boxscore.PlayersSortedAndComplete | 1.py:28-34 | the players list is strictly ascending and holds exactly the display names found in the document |
| Boxscore.DisplayNamesMembership | 1.py:29-33 | a value is among the collected names exactly when it is the display name of some athlete of some group of some team |
| Boxscore.PlayersAreTheNamedAthletes | 1.py:28-34 | a name is in the players list exactly when some athlete of some group of some team has it as display name |
| Boxscore.PlayersUnique | 1.py:34 | any strictly ascending list of exactly the document's names equals the players list |
| Boxscore.SearchAthletes | 1.py:44-48 | the athlete loop returns at the first athlete with the player's name, or reports no match |
| Boxscore.SearchGroups | 1.py:42-48 | the group loop stops at the first group whose athletes contain the player |
| Boxscore.PlayerStat | 1.py:41-49 | defines what `fetch_player_stat` returns for a document; no contract of its own, the `PlayerStat*` and `Find*Append` lemmas state its promises |
| Boxscore.FetchPlayerStat | 1.py:41-49 | the team loop returns exactly `PlayerStat` of the document: the first match's value, or 0 |
| Boxscore.CollectTeamsExtends | 1.py:28-33 | the collected names only grow; earlier names are kept in front |
| Boxscore.PlayerStatZeroWhenAbsent | 1.py:41-49 | a player whose name appears nowhere in the document scores 0 for every statistic |
| Boxscore.PlayerStatZeroWhenUnnamed | 1.py:41-49 | a player who is no athlete of any group of any team scores 0 for every statistic |
| Boxscore.PlayerStatFoundWhenPresent | 1.py:41-48 | a player whose name appears is always found: the result is never the not-found default |
| Boxscore.FindTeamsAppend | 1.py:41 | teams are searched in order; a later team is consulted only when every earlier one had no match |
| Boxscore.FindGroupsAppend | 1.py:42-48 | the first group containing the player decides; later groups are never consulted |
| Boxscore.FindAthletesAppend | 1.py:44-45 | within a group the first athlete with the player's name decides |
| Boxscore.FirstMatchingAthlete | 1.py:43-48 | the result is the statistic of the first matching athlete, read against its own group's descriptions |
| Boxscore.Zip | 1.py:47 | defines `zip`: pairs items position by position, up to the shorter list; no contract of its own, the `Boxscore.StatValue*` lemmas state its promises |
| Boxscore.StrDict | 1.py:47 | defines the string-keyed part of `dict(pairs)`; no contract of its own, `Boxscore.StrDictLastWins` and `Boxscore.StrDictFails` state its promises |
| Boxscore.StrDictLastWins | 1.py:47 | `dict(pairs)` has a key exactly when some pair has it, and maps it to the value of the last such pair |
| Boxscore.StrDictFails | 1.py:47 | `dict(pairs)` fails exactly when some key is a list or dict |
| Boxscore.StatValue | 1.py:46-48 | defines `int(dict(zip(desc, stats)).get(statType, "0"))`; no contract of its own, the `StatValue*` lemmas state its promises |
| Boxscore.StatValueUnhashableLabel | 1.py:47 | a list or dict among the first min(len(desc), len(stats)) labels raises |
| Boxscore.StatValueMissingLabel | 1.py:47-48 | a label absent from the first min(len(desc), len(stats)) descriptions reads as 0 |
| Boxscore.StatValueLastLabel | 1.py:47-48 | a label given more than once reads the value paired with its last occurrence |
| Boxscore.ExampleStatValues | 1.py:47-48 | with labels AB, H, RBI and stats "4", "2", "1", "H" reads 2 and "Hits" reads 0 |
| Boxscore.ExamplePlayerStat | 1.py:41-49 | in the one-athlete document the athlete's "H" is 2, "Hits" is 0, and an absent player's statistic is 0 |
| Cards.Color | 1.py:81 | a card is lightgreen exactly when the statistic reaches the target, and lightcoral exactly when it does not |
| Cards.CardRegistry.constructor | 1.py:58-59 | the first run starts with no cards |
| Cards.CardRegistry.AddTracker | 1.py:68-75 | adding a tracker appends exactly one card at the end, holding the picked game's id; earlier cards are unchanged |
| Cards.CardRegistry.Colors | 1.py:79-81 | the render loop, which changes no card, succeeds exactly when every card's `fetch_player_stat` succeeds; it then gives card k the colour of its own statistic and target, in card order, and otherwise raises the error of the first card whose statistic cannot be read |
| Cards.RenderPassOutcome | 1.py:79-81 | the render pass over the cards' own statistics succeeds exactly when each can be read, with one colour per card from its statistic and target, and otherwise fails with the first card's error |
| Cards.ColorsFromSucceeds | 1.py:79-81 | the render pass succeeds exactly when every card's statistic can be read |
| Cards.ColorsFromColours | 1.py:79-81 | on success there is one colour per card, in card order, from that card's statistic and target |
| Cards.ColorsFromFirstError | 1.py:79-80 | on failure the error is that of the first card whose statistic cannot be read |
| Cards.CardsShowTheirTargets | 1.py:79-81 | on success the k-th card is lightgreen exactly when its player's statistic is at least its target |
| Dashboard.FirstEvents | initialSample.py:63 | `events[:5]` on a list is its first min(5, n) items, in order; it succeeds only on a list or string |
| Dashboard.Entries | initialSample.py:63 | the comprehension yields every entry in order exactly when all succeed, and otherwise the first failure |
| Dashboard.Entry | initialSample.py:63 | defines one score line of the ticker; no contract of its own, `Dashboard.EntryIsScoreLine` and `Dashboard.EntryNeedsAllKeys` state its promises |
| Dashboard.EntryIsScoreLine | initialSample.py:63 | an event with string fields shows exactly `strEvent (intHomeScore - intAwayScore)` |
| Dashboard.EntryNeedsAllKeys | initialSample.py:63 | an entry can be formatted exactly when the event is a dict with all three keys; the first missing key is the error |
| Dashboard.TickerText | initialSample.py:59-67 | defines the text `update_ticker` shows; no contract of its own, the `Ticker*` lemmas state its promises |
| Dashboard.TickerEmptyWithoutEvents | initialSample.py:62-64 | a document without an `events` key gives the empty ticker |
| Dashboard.TickerTextOfEvents | initialSample.py:59-67 | for a dict whose `events` key holds a value, the ticker shows the line built from that value, or "Failed to load sports scores: " and the exception's text when building it raises |
| Dashboard.TickerErrorOnNullEvents | initialSample.py:62-66 | an `events` key holding null takes the error path: the ticker is the error prefix and the exception text |
| Dashboard.TickerJoinsFirstEvents | initialSample.py:62-64 | the ticker is the entries of the first min(5, n) events, in response order, joined by the ticker separator |
| Dashboard.TickerIgnoresLaterEvents | initialSample.py:63 | events after the fifth never affect the ticker, even when malformed |
| Dashboard.TickerWholesaleFailure | initialSample.py:59-66 | a failing event among the first five fails the whole ticker with the first failing event's error; no partial list is shown |
| Dashboard.SidebarText | initialSample.py:50-56 | defines the text `update_sidebar` shows; no contract of its own, `Dashboard.SidebarErrorLine` and `Dashboard.SidebarShowsTitleAndBody` state its promises |
| Dashboard.SidebarErrorLine | initialSample.py:50-55 | a failed request, or a document without title or body, shows "Failed to load sidebar data: " and the exception text |
| Dashboard.SidebarShowsTitleAndBody | initialSample.py:53 | string title and body show exactly "Title: " + title + a blank line + body |
| Dashboard.MainWindow.constructor | initialSample.py:30-47 | the window starts with one write of each widget, with the refreshed texts |
| Dashboard.MainWindow.SetSidebarText | initialSample.py:56 | `setText` replaces the sidebar text and records one write; the ticker is untouched |
| Dashboard.MainWindow.SetTickerText | initialSample.py:67 | `setText` replaces the ticker text and records one write; the sidebar is untouched |
| Dashboard.MainWindow.UpdateSidebar | initialSample.py:49-56 | a refresh writes the sidebar exactly once, with the content or the error line, and leaves the ticker alone |
| Dashboard.MainWindow.UpdateTicker | initialSample.py:58-67 | a refresh writes the ticker exactly once, with the joined scores or the error line, and leaves the sidebar alone |

## Left out

- The HTTP requests and the JSON decoding (URLs, status codes, the `game_id` query parameter). Each operation takes the decoded document, and a failed request or decode in the Qt window is a `RequestError` input.
- Streamlit widgets and rerun semantics (`st.title`, `multiselect`, `selectbox`, `text_input`, `number_input`, `button`, the `uuid4` keys, `st.subheader`). The model takes their values as parameters.
- The card HTML (1.py:82-88), beyond the colour choice.
- Qt layout, the embedded browser, the styling and the `QTimer` scheduling (initialSample.py:7-44). Event-loop timing is not logic, so each refresh is a method call.
- Floating-point numbers. A decoded number is an integer, so `int()` of a float and the f-string form of a float are not modelled.
- PyText.ParseInt: accepts only an optional sign followed by ASCII digits. Python's `int()` also allows surrounding whitespace, `_` separators and other Unicode digits.
- PyText.Repr: strings are quoted with single quotes and not escaped. A dict with a key written twice prints every entry, where Python prints only the last.
- Boxscore.Players: `sorted(set(players))` is modelled only when every display name is a string. Any other name gives a `TypeError` value. Python would also sort names that are all ints or bools, and any list whose set has a single element (one non-string name, or a name such as None repeated), since sorting one element compares nothing. It would fail with a different message on a list or dict name.
- Boxscore.StrDict: non-string keys are dropped because they never equal the string label looked up. Python keeps them, and this includes the fact that `1` and `True` are the same key.
- Scoreboard.GameOptions: keys are compared as decoded values. Python treats `1`, `1.0` and `True` as one dict key.
- PyJson.Describe: the exception text follows CPython's messages only approximately. For example, slicing a dict raises `KeyError` on Python 3.12 and newer, but `TypeError` here. Only the fixed prefixes are stated exactly.
- Cards.CardRegistry.Colors: when one card's lookup raises, the Streamlit script stops after drawing the earlier cards. The model returns the first error and none of the colours.
- Cards.CardRegistry.AddTracker: `st.selectbox` returns None when a game has no players. The model's card always names a player string.
