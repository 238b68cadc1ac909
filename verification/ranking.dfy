/**
 * The points leaderboard both community-facing panels show: the five
 * accounts with the most points, each with a rank badge (a medal for the
 * first three places) and the signed-in user's own row highlighted.
 */
module Ranking {
  import opened Common
  import opened Firestore

  /** The badge in front of a leaderboard row. */
  datatype Badge =
    | Medal(emoji: string, enlarged: bool)   // first three places; enlarged for the current user
    | Position(place: nat)                  // shown as "<place>."

  const Gold: string := "\U{1F947}"
  const Silver: string := "\U{1F948}"
  const Bronze: string := "\U{1F949}"

  /** `getRankDisplay(index, userId, currentUserID)` with `isCurrentUser` already computed. */
  function RankDisplay(index: nat, isCurrentUser: bool): (b: Badge)
    ensures b.Medal? <==> index < 3
    ensures index == 0 ==> b.Medal? && b.emoji == Gold
    ensures index == 1 ==> b.Medal? && b.emoji == Silver
    ensures index == 2 ==> b.Medal? && b.emoji == Bronze
    ensures b.Medal? ==> b.enlarged == isCurrentUser
    ensures b.Position? ==> b.place == index + 1
  {
    if index == 0 then Medal(Gold, isCurrentUser)
    else if index == 1 then Medal(Silver, isCurrentUser)
    else if index == 2 then Medal(Bronze, isCurrentUser)
    else Position(index + 1)
  }

  /** Two places never show the same badge, whoever is looking. */
  lemma RankDisplayDistinct(i: nat, j: nat, a: bool, b: bool)
    requires i != j
    ensures RankDisplay(i, a) != RankDisplay(j, b)
  {
  }

  /** `userId === currentUserID`: an absent current id never matches a row's id. */
  predicate IsCurrentRow(rowId: Uid, currentUid: Option<Uid>)
  {
    currentUid == Some(rowId)
  }

  // ---------------------------------------------------------------------
  // The query: orderBy('points', 'desc'), limit(5)
  // ---------------------------------------------------------------------

  /** Ordering by a field leaves out the documents that lack it. */
  predicate HasPoints(row: UserData)
  {
    row.data.points.Some?
  }

  /** Most points first. */
  function MostPointsFirst(row: UserData): int
  {
    -(PointsOf(row.data) as int)
  }

  const LeaderboardSize: nat := 5

  /** The rows the leaderboard query returns, from a snapshot of `users`. */
  function Leaderboard(rows: seq<UserData>): (top: seq<UserData>)
    ensures |top| <= LeaderboardSize
    ensures forall r :: r in top ==> r in rows && HasPoints(r)
    ensures forall i, j :: 0 <= i < j < |top| ==> PointsOf(top[i].data) >= PointsOf(top[j].data)
  {
    var sorted := SortBy(Filter(rows, HasPoints), MostPointsFirst);
    TakeKeepsSmallest(sorted, MostPointsFirst, LeaderboardSize);
    Take(sorted, LeaderboardSize)
  }

  /**
   * The leaderboard holds five accounts when five have points (all of them
   * otherwise), and nobody left out has more points than anyone shown.
   */
  lemma LeaderboardIsTop(rows: seq<UserData>)
    ensures var top := Leaderboard(rows);
      && |top| == (if |Filter(rows, HasPoints)| < LeaderboardSize then |Filter(rows, HasPoints)| else LeaderboardSize)
      && forall x, y :: x in rows && HasPoints(x) && x !in top && y in top ==> PointsOf(y.data) >= PointsOf(x.data)
  {
    var sorted := SortBy(Filter(rows, HasPoints), MostPointsFirst);
    var top := Take(sorted, LeaderboardSize);
    TakeKeepsSmallest(sorted, MostPointsFirst, LeaderboardSize);
    forall x, y | x in rows && HasPoints(x) && x !in top && y in top
      ensures PointsOf(y.data) >= PointsOf(x.data)
    {
      assert x in Filter(rows, HasPoints);
      assert x in multiset(sorted);
      assert x !in multiset(top);
      assert x in multiset(sorted) - multiset(top);
    }
  }

  // ---------------------------------------------------------------------
  // The rendered rows
  // ---------------------------------------------------------------------

  /** One rendered row: badge, highlight, `displayName || 'Usuario Anónimo'`, `points || 0`. */
  datatype RankRow = RankRow(uid: Uid, badge: Badge, highlighted: bool, name: string, points: nat)

  function RowView(index: nat, row: UserData, highlighted: bool): RankRow
  {
    RankRow(row.id, RankDisplay(index, highlighted), highlighted,
            OrElse(row.data.displayName, "Usuario An\U{F3}nimo"), PointsOf(row.data))
  }

  /** The leaderboard with the row of `currentUid` highlighted (the intended behaviour). */
  function LeaderboardView(top: seq<UserData>, currentUid: Option<Uid>): (v: seq<RankRow>)
    ensures |v| == |top|
    ensures forall i :: 0 <= i < |top| ==> v[i].uid == top[i].id && v[i].points == PointsOf(top[i].data)
    ensures forall i :: 0 <= i < |top| ==> (v[i].highlighted <==> currentUid == Some(top[i].id))
    ensures forall i :: 0 <= i < |top| ==>
      v[i].name == (if top[i].data.displayName == "" then "Usuario An\U{F3}nimo" else top[i].data.displayName)
    ensures forall i :: 0 <= i < |top| ==> v[i].badge == RankDisplay(i, v[i].highlighted)
  {
    seq(|top|, i requires 0 <= i < |top| => RowView(i, top[i], IsCurrentRow(top[i].id, currentUid)))
  }

  /** When rows have distinct ids, at most one row is highlighted. */
  lemma AtMostOneHighlighted(top: seq<UserData>, currentUid: Option<Uid>)
    requires forall i, j :: 0 <= i < j < |top| ==> top[i].id != top[j].id
    ensures var v := LeaderboardView(top, currentUid);
      forall i, j :: 0 <= i < |v| && 0 <= j < |v| && v[i].highlighted && v[j].highlighted ==> i == j
  {
  }

  /**
   * The `uid` field of a `users` document as the community panel's
   * leaderboard reads it from a row. Account documents are stored without
   * a `uid` field (the uid is the document id), so it is always absent.
   */
  function StoredUidField(row: UserData): Option<Uid>
  {
    None
  }

  /**
   * The community panel's leaderboard as written: the row variable shadows
   * the signed-in user, so each row is compared with its own `uid` field.
   */
  function LeaderboardViewAsWritten(top: seq<UserData>): (v: seq<RankRow>)
    ensures |v| == |top|
  {
    seq(|top|, i requires 0 <= i < |top| => RowView(i, top[i], IsCurrentRow(top[i].id, StoredUidField(top[i]))))
  }

  /** As written, the community leaderboard highlights nobody, whoever is signed in. */
  lemma AsWrittenHighlightsNobody(top: seq<UserData>)
    ensures LeaderboardViewAsWritten(top) == LeaderboardView(top, None)
    ensures forall i :: 0 <= i < |top| ==> !LeaderboardViewAsWritten(top)[i].highlighted
  {
  }

  /** A signed-in user at the top of the board: the intended view marks the row, the written one does not. */
  lemma AsWrittenMissesOwnRow()
    ensures var top := [Doc("u1", Account("Ana", "ana@example.com", RoleCommunity, Some(12)))];
      && LeaderboardView(top, Some("u1"))[0].highlighted
      && LeaderboardView(top, Some("u1"))[0].badge == Medal(Gold, true)
      && !LeaderboardViewAsWritten(top)[0].highlighted
      && LeaderboardViewAsWritten(top)[0].badge == Medal(Gold, false)
  {
  }

  /** `user?.points || 0` for the signed-in user's profile. */
  function DisplayedPoints(user: Option<UserData>): (n: nat)
    ensures user.None? ==> n == 0
    ensures user.Some? && user.value.data.points.Some? ==> n == user.value.data.points.value
    ensures user.Some? && user.value.data.points.None? ==> n == 0
  {
    if user.Some? then PointsOf(user.value.data) else 0
  }
}
