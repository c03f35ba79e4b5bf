/**
 An independent reading of a player's totals: the sum of the contributions
 of every participation row naming that player, each scored against its
 own match header. Match creation keeps the stored totals equal to this
 recomputation.
 */
module History {
  import opened Models
  import opened Scoring

  /** The contribution of a row to the named player: nothing unless the row
      names them. A row whose match header is missing (which the schema's
      constraints rule out) contributes nothing either. */
  function ContributionTo(row: MatchPlayer, matches: map<int, Match>, name: string): Stats
  {
    if row.playerName == name && row.matchId in matches then Contribution(row, matches[row.matchId]) else Zero
  }

  /** Totals of `name` recomputed from a participation history. */
  function Recompute(rows: seq<MatchPlayer>, matches: map<int, Match>, name: string): Stats
  {
    if rows == [] then Zero
    else ContributionTo(rows[0], matches, name).Plus(Recompute(rows[1..], matches, name))
  }

  /** Number of rows naming `name`. */
  function RowsNaming(rows: seq<MatchPlayer>, name: string): nat
  {
    if rows == [] then 0
    else (if rows[0].playerName == name then 1 else 0) + RowsNaming(rows[1..], name)
  }

  /** Every stored total agrees with the recomputation from the rows. */
  predicate TotalsMatchHistory(db: Store)
  {
    && RowsReferToMatches(db.participation, db.matches)
    && forall n :: n in db.players ==>
         db.players[n].totals == Recompute(db.participation, db.matches, n)
  }

  /** Recomputed totals count one match per row naming the player, and each
      such match is either a win or a loss. */
  lemma {:induction false} RecomputeShape(rows: seq<MatchPlayer>, matches: map<int, Match>, name: string)
    requires RowsReferToMatches(rows, matches)
    ensures Recompute(rows, matches, name).matches == RowsNaming(rows, name)
    ensures Recompute(rows, matches, name).wins + Recompute(rows, matches, name).losses
         == Recompute(rows, matches, name).matches
    ensures 0 <= Recompute(rows, matches, name).wins
    ensures 0 <= Recompute(rows, matches, name).losses
  {
    if rows != [] {
      RecomputeShape(rows[1..], matches, name);
      if rows[0].playerName == name {
        ContributionShape(rows[0], matches[rows[0].matchId]);
      }
    }
  }

  /** A history with no row for the player recomputes to the zero totals. */
  lemma {:induction false} RecomputeAbsent(rows: seq<MatchPlayer>, matches: map<int, Match>, name: string)
    requires forall i :: 0 <= i < |rows| ==> rows[i].playerName != name
    ensures Recompute(rows, matches, name) == Zero
  {
    if rows != [] {
      assert ContributionTo(rows[0], matches, name) == Zero;
      RecomputeAbsent(rows[1..], matches, name);
    }
  }

  /** Recomputation splits over concatenated histories. */
  lemma {:induction false} RecomputeAppend(a: seq<MatchPlayer>, b: seq<MatchPlayer>, matches: map<int, Match>, name: string)
    ensures Recompute(a + b, matches, name) == Recompute(a, matches, name).Plus(Recompute(b, matches, name))
  {
    if a == [] {
      assert a + b == b;
      ZeroIsIdentity(Recompute(b, matches, name));
    } else {
      assert (a + b)[0] == a[0];
      assert (a + b)[1..] == a[1..] + b;
      RecomputeAppend(a[1..], b, matches, name);
      var c := ContributionTo(a[0], matches, name);
      var ra := Recompute(a[1..], matches, name);
      var rb := Recompute(b, matches, name);
      assert Recompute(a + b, matches, name) == c.Plus(ra.Plus(rb));
      assert Recompute(a, matches, name) == c.Plus(ra);
      PlusAssociative(c, ra, rb);
    }
  }

  /** Adding a header under a key no row refers to does not change any recomputation. */
  lemma {:induction false} RecomputeNewHeader(rows: seq<MatchPlayer>, matches: map<int, Match>, m: Match, name: string)
    requires RowsReferToMatches(rows, matches)
    requires m.id !in matches
    ensures Recompute(rows, matches[m.id := m], name) == Recompute(rows, matches, name)
  {
    if rows != [] {
      RecomputeNewHeader(rows[1..], matches, m, name);
    }
  }
}
