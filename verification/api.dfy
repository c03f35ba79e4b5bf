/**
 The request handlers of the stat API as transitions and queries over the
 abstract store: player registration, match creation with its per-entry
 counter updates, match lookup, and the player listing.
 */
module Api {
  import opened Models
  import opened Scoring

  /** The new store together with what the handler returns to its caller. */
  datatype Step<T> = Step(store: Store, out: T)

  /** The two answers of player registration. */
  datatype Registration = AlreadyRegistered | Registered
  {
    function Message(): string
    {
      match this
      case AlreadyRegistered => "Jogador já cadastrado."
      case Registered => "Jogador cadastrado com sucesso."
    }
  }

  /** Registers `name`. An existing name is answered with the duplicate
      message and changes nothing; a new name gets a row with every counter
      at its default of zero, and no other player changes. */
  function CreatePlayer(db: Store, name: string): (r: Step<Registration>)
    ensures name in db.players <==> r.out == AlreadyRegistered
    ensures r.out == AlreadyRegistered ==> r.store == db
    ensures r.out == Registered ==>
      && r.store.players.Keys == db.players.Keys + {name}
      && r.store.players[name].name == name
      && r.store.players[name].totals.matches == 0
      && r.store.players[name].totals.wins == 0
      && r.store.players[name].totals.losses == 0
      && r.store.players[name].totals.kills == 0
      && r.store.players[name].totals.deaths == 0
      && r.store.players[name].totals.assists == 0
      && r.store.players[name].totals.roundsWon == 0
      && r.store.players[name].totals.roundsLost == 0
      && (forall n :: n in db.players ==> r.store.players[n] == db.players[n])
      && r.store.matches == db.matches
      && r.store.participation == db.participation
      && r.store.nextMatchId == db.nextMatchId
  {
    if name in db.players then Step(db, AlreadyRegistered)
    else Step(db.(players := db.players[name := Player(name, Zero)]), Registered)
  }

  /** One entry of the roster sent with a new match. */
  datatype RosterEntry = RosterEntry(playerName: string, team: string, kills: int, deaths: int, assists: int)

  /** The body of a match-creation request. */
  datatype MatchRequest = MatchRequest(mapName: string, scoreBlue: int, scoreRed: int, players: seq<RosterEntry>)

  /** The participation row an entry produces for match `id`. */
  function RowOf(id: int, e: RosterEntry): MatchPlayer
  {
    MatchPlayer(id, e.playerName, e.team, e.kills, e.deaths, e.assists)
  }

  /** The part of the store the roster loop changes: player totals and the appended rows. */
  datatype Tally = Tally(players: map<string, Player>, rows: seq<MatchPlayer>)

  /** One iteration of the roster loop. An unknown name is skipped; a known
      name has its totals raised by the entry's contribution and gets one
      participation row, and no other player is touched. */
  function ApplyEntry(t: Tally, m: Match, e: RosterEntry): (r: Tally)
    ensures r.players.Keys == t.players.Keys
    ensures e.playerName !in t.players ==> r == t
    ensures e.playerName in t.players ==>
      && r.players[e.playerName].name == t.players[e.playerName].name
      && r.players[e.playerName].totals
           == t.players[e.playerName].totals.Plus(Contribution(RowOf(m.id, e), m))
      && r.rows == t.rows + [RowOf(m.id, e)]
    ensures forall n :: n in t.players && n != e.playerName ==> r.players[n] == t.players[n]
  {
    if e.playerName !in t.players then t
    else
      var p := t.players[e.playerName];
      var row := RowOf(m.id, e);
      Tally(t.players[e.playerName := p.(totals := p.totals.Plus(Contribution(row, m)))], t.rows + [row])
  }

  /** The roster loop: entries are applied in order, each against the store
      left by the ones before it, so repeated names accumulate. It never adds
      or removes a player and only appends rows. */
  function ApplyRoster(t: Tally, m: Match, roster: seq<RosterEntry>): (r: Tally)
    ensures r.players.Keys == t.players.Keys
    ensures |t.rows| <= |r.rows| && r.rows[..|t.rows|] == t.rows
    ensures forall i :: |t.rows| <= i < |r.rows| ==> r.rows[i].matchId == m.id && r.rows[i].playerName in t.players
    decreases |roster|
  {
    if roster == [] then t
    else ApplyRoster(ApplyEntry(t, m, roster[0]), m, roster[1..])
  }

  /** The header a request stores under key `id`. */
  function HeaderOf(id: int, req: MatchRequest, date: Timestamp): Match
  {
    Match(id, date, req.mapName, req.scoreBlue, req.scoreRed)
  }

  /** Creates a match: the header is stored under the next key with the
      given date, map and scores, then the roster is applied. The new key
      is returned; it is not yet used by any match of a valid store. */
  function CreateMatch(db: Store, req: MatchRequest, date: Timestamp): (r: Step<int>)
    ensures Valid(db) ==> r.out !in db.matches && 1 <= r.out
    ensures r.out in r.store.matches
    ensures r.store.matches[r.out] == Match(r.out, date, req.mapName, req.scoreBlue, req.scoreRed)
    ensures forall id :: id in db.matches ==> id in r.store.matches && (id != r.out ==> r.store.matches[id] == db.matches[id])
    ensures r.store.matches.Keys == db.matches.Keys + {r.out}
    ensures r.store.nextMatchId == r.out + 1
    ensures r.store.players.Keys == db.players.Keys
    ensures |db.participation| <= |r.store.participation|
    ensures r.store.participation[..|db.participation|] == db.participation
  {
    var id := db.nextMatchId;
    var m := HeaderOf(id, req, date);
    var t := ApplyRoster(Tally(db.players, db.participation), m, req.players);
    Step(Store(t.players, db.matches[id := m], t.rows, id + 1), id)
  }

  /** The rows of one match, in storage order. */
  function RowsOfMatch(rows: seq<MatchPlayer>, id: int): (r: seq<MatchPlayer>)
    ensures |r| <= |rows|
    ensures forall i :: 0 <= i < |r| ==> r[i].matchId == id
    ensures forall x :: multiset(r)[x] == (if x.matchId == id then multiset(rows)[x] else 0)
  {
    if rows == [] then []
    else
      assert rows == [rows[0]] + rows[1..];
      (if rows[0].matchId == id then [rows[0]] else []) + RowsOfMatch(rows[1..], id)
  }

  /** What a match lookup shows: the header fields and the match's rows. */
  datatype MatchView = MatchView(date: Timestamp, mapName: string, scoreBlue: int, scoreRed: int, players: seq<MatchPlayer>)

  datatype Lookup = Found(view: MatchView) | NotFound
  {
    function Message(): string
      requires NotFound?
    {
      "Partida não encontrada"
    }
  }

  /** Looks a match up by key: not found when no header has the key,
      otherwise the header's date, map and scores and exactly the
      participation rows carrying that key, each as often as it is stored. */
  function GetMatch(db: Store, id: int): (r: Lookup)
    ensures r.NotFound? <==> id !in db.matches
    ensures r.Found? ==>
      && r.view.date == db.matches[id].date
      && r.view.mapName == db.matches[id].mapName
      && r.view.scoreBlue == db.matches[id].scoreBlue
      && r.view.scoreRed == db.matches[id].scoreRed
      && (forall x :: multiset(r.view.players)[x] == (if x.matchId == id then multiset(db.participation)[x] else 0))
  {
    if id !in db.matches then NotFound
    else
      var m := db.matches[id];
      Found(MatchView(m.date, m.mapName, m.scoreBlue, m.scoreRed, RowsOfMatch(db.participation, id)))
  }

  /** Lists every stored player once, each with all of its counters. */
  method GetPlayers(db: Store) returns (r: seq<Player>)
    ensures |r| == |db.players|
    ensures forall n :: n in db.players ==> db.players[n] in r
    ensures forall i :: 0 <= i < |r| ==> r[i] in db.players.Values
    ensures (forall n :: n in db.players ==> db.players[n].name == n) ==>
      forall i, j :: 0 <= i < j < |r| ==> r[i].name != r[j].name
  {
    r := [];
    var rest := db.players.Keys;
    ghost var seen: seq<string> := [];
    while rest != {}
      invariant rest <= db.players.Keys
      invariant |r| + |rest| == |db.players|
      invariant |seen| == |r|
      invariant forall i :: 0 <= i < |r| ==> seen[i] in db.players && seen[i] !in rest && r[i] == db.players[seen[i]]
      invariant forall i, j :: 0 <= i < j < |seen| ==> seen[i] != seen[j]
      invariant forall n :: n in db.players && n !in rest ==> db.players[n] in r
      decreases rest
    {
      var k :| k in rest;
      r := r + [db.players[k]];
      seen := seen + [k];
      rest := rest - {k};
    }
  }
}
