# FPL stat store: a Dafny model

This project models the stat-aggregation store behind the FPL Dashboard API. The store keeps three things:

- players, each under a unique name, with eight cumulative counters (matches, wins, losses, kills, deaths, assists, rounds won, rounds lost);
- match headers, each under an integer key, with a creation date, a map name and the blue and red scores;
- participation rows, one player's kills, deaths and assists in one match.

The ORM session becomes an immutable `Store` value. The four handlers become pure functions and one method over it:

- `CreatePlayer` (`POST /players`) checks for a duplicate name, then inserts the player with zero counters.
- `CreateMatch` (`POST /matches`) stores the header under the next key. It then folds over the roster in order. Each entry naming a registered player raises that player's counters and appends one participation row. Entries with unknown names are skipped.
- `GetMatch` (`GET /matches/{id}`) returns either not-found or the header fields with the match's rows.
- `GetPlayers` (`GET /players`) lists every player once.

Files and modules:

- `models.dfy` (`Models`): the records, the store and the schema's constraints (`Valid`).
- `scoring.dfy` (`Scoring`): the winner rule and what one participation adds.
- `api.dfy` (`Api`): the handlers.
- `roster.dfy` (`Roster`): reference definitions of the roster loop's effect, and lemmas tying the loop to them.
- `history.dfy` (`History`): recomputes a player's totals from the participation rows and match headers.
- `store.dfy` (`StoreProofs`): whole-store properties of the handlers.
- `lifecycle.dfy` (`Lifecycle`): the store as a state machine from the empty database.

The central invariant is `TotalsMatchHistory`. It says every stored total equals the totals recomputed from that player's participation rows, each scored against its own match header. Both writing handlers preserve it. `Lifecycle.ReachableBalanced` follows from it: in every reachable store, `matches == wins + losses ==` the number of the player's rows.

Behaviour of the code that the model keeps as written:

- The winning label is `"blue"` only when `score_blue > score_red`; a tie goes to `"red"`.
- The team label is not validated. A label other than `"blue"` reads its rounds from the red score. A label that is neither `"blue"` nor `"red"` never equals the winning label, so it always counts as a loss, even when red won (`Scoring.TeamOutcomes`).
- A roster may name the same player twice; each entry is applied (`Lifecycle.DuplicateEntriesAccumulate`).
- Counters and request fields are unbounded integers, and negative values are accepted.

## Model

| member | source | states |
|---|---|---|
| `Scoring.WinningTeam` | api/main.py:58 | The winner is `"blue"` exactly when the blue score is strictly greater, and `"red"` exactly otherwise, so ties go to red. |
| `Scoring.ContributionShape` | api/main.py:66-77 | One participation adds one match and exactly one of a win or a loss. It is a win exactly when its label equals the winning label. Rounds won plus lost grow by both scores, with the blue score counted as won only for `"blue"`. Kills, deaths and assists grow by the entry's values. |
| `Scoring.TeamOutcomes` | api/main.py:58-73 | A `"blue"` row wins iff blue scored strictly more; a `"red"` row wins iff blue did not. Any other label always loses and is credited red's score as rounds won. |
| `Scoring.TieGoesToRed` | api/main.py:58-70 | On equal scores a `"red"` row gets the win and a `"blue"` row the loss. |
| `Api.CreatePlayer` | api/main.py:31-41 | Duplicate iff the name is stored. A duplicate leaves the store unchanged. A new name adds exactly that key with all eight counters 0. Every other player, the matches, the rows and the next key are unchanged. |
| `Api.ApplyEntry` | api/main.py:61-89 | An unknown name leaves players and rows unchanged. A known name keeps its name, gains its entry's contribution and gets one row with the entry's values. No other player changes, and the key set is fixed. |
| `Api.ApplyRoster` | api/main.py:60-89 | The roster loop never adds or removes a player. It keeps all earlier rows as a prefix. Every appended row carries the new match's key and names a registered player. |
| `Api.CreateMatch` | api/main.py:47-92 | The returned key is fresh and positive in a valid store. The header stored under it has the given date, map and scores. Other headers are unchanged and the next key advances. The player key set is unchanged and old rows stay a prefix. |
| `Api.RowsOfMatch` | api/main.py:105 | The filter returns only rows carrying the key. Each such stored row appears exactly as often as it is stored, and no others appear. |
| `Api.GetMatch` | api/main.py:99-115 | Not-found iff no header has the key. Otherwise it returns that header's date, map and both scores, plus exactly the stored rows with that key, counted with multiplicity. |
| `Api.GetPlayers` | api/main.py:122-124 | Lists as many records as there are players. Every stored player is in the list and every listed record is a stored player. Names are pairwise distinct when names are the keys. |
| `Roster.KnownRows` | api/main.py:60-89 | The reference list of appended rows has at most one row per entry. Each row carries the match key and a registered name. |
| `Roster.EntriesTotalShape` | api/main.py:66-77 | Per name, the roster adds one match per entry naming it, with wins plus losses equal to that count. Rounds won plus lost grow by count × (blue + red). Kills, deaths and assists grow by the sums over those entries. |
| `Roster.EntriesTotalAbsent` | api/main.py:60-64 | A name no entry mentions gains nothing. |
| `Roster.RosterTotals` | api/main.py:60-79 | After the loop, each registered player keeps its name. Its totals are the old totals plus the combined increments of the entries naming it, applied in roster order. |
| `Roster.RosterRows` | api/main.py:81-89 | The loop appends exactly one row per entry with a registered name, in roster order, and nothing else. |
| `Roster.UnknownNamesAddNoRows` | api/main.py:61-64 | A roster naming no registered player appends no row. |
| `StoreProofs.CreateMatchCounters` | api/main.py:60-77 | Per registered player: Δmatches is the number of entries naming it, and Δwins + Δlosses equals that number. Neither wins nor losses decreases. Δ(roundsWon + roundsLost) is that number × (blue + red). Kills, deaths and assists grow by the entries' sums. A player no entry names is unchanged. |
| `StoreProofs.CreateMatchRows` | api/main.py:81-89 | The participation table after creation is the old table followed by the rows of the registered entries, all under the returned key. |
| `StoreProofs.CreatePlayerPreservesValid` | api/models.py:10-18 | Registration keeps names as keys, header keys below the next key, and both foreign keys of every row resolving. |
| `StoreProofs.CreateMatchPreservesValid` | api/models.py:23-36 | Match creation keeps the schema's constraints: the new key is fresh, and every new row refers to an existing match and player. |
| `StoreProofs.GetMatchAfterCreate` | api/main.py:101-115 | A match just created in a valid store reads back with the given date, map and scores. Its rows are exactly those of its registered entries, in roster order, given the model's insertion-order row listing. |
| `StoreProofs.GetMatchMissing` | api/main.py:101-103 | An absent key yields not-found with the message `Partida não encontrada`. |
| `StoreProofs.CreatePlayerPreservesHistory` | api/main.py:37-41 | After registration every total still equals its recomputation from the history; the new name has no rows and zero totals. |
| `StoreProofs.CreateMatchPreservesHistory` | api/main.py:49-91 | After match creation every total still equals its recomputation from the rows and headers. |
| `History.RecomputeShape` | api/main.py:66-70 | Recomputed totals count one match per row naming the player, with wins + losses equal to matches and both non-negative. |
| `Lifecycle.RunPreserves` | api/main.py:30-92 | Any sequence of registrations and match creations keeps the schema's constraints and the totals-equal-history invariant. |
| `Lifecycle.ReachableBalanced` | api/main.py:66-70 | In every store reachable from the empty database, each player's matches equal its number of rows and equal wins + losses, with neither negative. |
| `Lifecycle.DuplicateEntriesAccumulate` | api/main.py:60-77 | A roster naming a registered player twice adds two matches and twice the entry's kills, deaths and assists. |
| `Lifecycle.ThreeToOneExample` | api/main.py:58-77 | With A on blue and B on red in a 3-1 match, A gets 1 win and 3-1 rounds, B gets 1 loss and 1-3 rounds, and two rows are stored. |

## Left out

- Framework plumbing is not modelled: the FastAPI app, CORS, logging, `get_db`, and `commit`/`refresh` (api/main.py:1-28).
- The `except Exception` branches are left out because they handle storage faults, not logic (api/main.py:42-44, 94-96, 117-119, 125-127). So is the state left by a failure after the first commit (api/main.py:55): in that case the header is saved without its rows.
- The database's 64-bit integer columns are not modelled; counters are unbounded, so an overflow fault is not represented.
- The creation date (`datetime.utcnow`, api/models.py:24) comes from the clock. It is a caller-supplied `Timestamp` parameter.
- The database assigns match keys. The model uses a counter starting at 1, which matches an integer primary key with no deletions.
- The surrogate `id` columns of players and participation rows are not modelled. `GET /players` returns the ORM rows with no response schema, so its answer also carries each player's surrogate `id` (api/models.py:9); the `Player` records `Api.GetPlayers` lists leave it out.
- The order of `GET /players` is the database's choice. `Api.GetPlayers` fixes no order.
- StoreProofs.GetMatchAfterCreate: the row query of `get_match` (api/main.py:105) has no ordering clause, so the database chooses the row order. The model returns rows in insertion order, and the lemma's "in roster order" rests on that choice. `Api.GetMatch` itself promises only the rows with their multiplicities, whatever their order.
- Concurrency is not modelled. The handlers are plain functions the framework runs on a worker thread pool. Two concurrent match creations naming the same player can each read the row and write back their own increments, losing one update. The model assumes requests are serialized, one at a time in arrival order; `Lifecycle.RunPreserves` and `Lifecycle.ReachableBalanced` hold only for such serial orders.
- Name comparison is exact string equality, as with a binary collation. Case-insensitive collations are not modelled.
- `get_match` declares `MatchOut` as its response schema but returns an `{"error": ...}` dictionary on not-found. The framework's validation of that response is not modelled. The model returns the not-found value the handler builds.
- The serialisation of participation rows through the `MatchPlayer` response schema (api/schemas.py:29-39) is not modelled. That schema drops the row's `match_id`. `Api.GetMatch` returns the whole rows.
- Pydantic request validation (api/schemas.py) is not modelled. Request bodies are typed records with integer fields.
- The dashboard (dashboard/hud.py) is left out entirely. It is a Streamlit UI and HTTP client.
- These operations do not appear in the handlers and are not modelled: match deletion with stat reversal, player renaming, login, the admin overview, per-match stat edits and the ranking formula.
