/**
  The top-of-the-day and top-of-the-week rankings. Both run the same
  pipeline and differ only in the window `[start, end]`, which the model
  takes as given instants: approved, non-deleted games are scored by the
  comments, shares and upvotes created inside the window, sorted by
  descending score, and joined with their owner's document.
 */
module TopGames {
  import opened Common
  import opened GameModel
  import opened Database

  predicate InWindow(t: Time, start: Time, end: Time) {
    start <= t <= end
  }

  /** Comments whose `createdAt` lies in the window. */
  function CountComments(cs: seq<Comment>, start: Time, end: Time): (n: nat)
    ensures n <= |cs|
  {
    if cs == [] then 0
    else (if InWindow(cs[0].createdAt, start, end) then 1 else 0) + CountComments(cs[1..], start, end)
  }

  /** Votes whose `createdAt` lies in the window. */
  function CountVotes(vs: seq<Vote>, start: Time, end: Time): (n: nat)
    ensures n <= |vs|
  {
    if vs == [] then 0
    else (if InWindow(vs[0].createdAt, start, end) then 1 else 0) + CountVotes(vs[1..], start, end)
  }

  /** Shares with a `createdAt` in the window; a share without one never
      satisfies the comparison. */
  function CountShares(ss: seq<Share>, start: Time, end: Time): (n: nat)
    ensures n <= |ss|
  {
    if ss == [] then 0
    else (if ss[0].createdAt.Some? && InWindow(ss[0].createdAt.value, start, end) then 1 else 0)
         + CountShares(ss[1..], start, end)
  }

  /** The popularity score of a game for a window. */
  function Score(g: Game, start: Time, end: Time): nat {
    CountComments(g.comments, start, end) + CountShares(g.shares, start, end) + CountVotes(g.upvote, start, end)
  }

  /** Shares as the share operation stores them carry no date, so they never count. */
  lemma {:induction false} UndatedSharesNeverCount(ss: seq<Share>, start: Time, end: Time)
    requires forall i :: 0 <= i < |ss| ==> ss[i].createdAt.None?
    ensures CountShares(ss, start, end) == 0
  {
    if ss != [] {
      UndatedSharesNeverCount(ss[1..], start, end);
    }
  }

  lemma {:induction false} CountCommentsMonotone(cs: seq<Comment>, s1: Time, e1: Time, s2: Time, e2: Time)
    requires s2 <= s1 && e1 <= e2
    ensures CountComments(cs, s1, e1) <= CountComments(cs, s2, e2)
  {
    if cs != [] {
      CountCommentsMonotone(cs[1..], s1, e1, s2, e2);
    }
  }

  lemma {:induction false} CountVotesMonotone(vs: seq<Vote>, s1: Time, e1: Time, s2: Time, e2: Time)
    requires s2 <= s1 && e1 <= e2
    ensures CountVotes(vs, s1, e1) <= CountVotes(vs, s2, e2)
  {
    if vs != [] {
      CountVotesMonotone(vs[1..], s1, e1, s2, e2);
    }
  }

  lemma {:induction false} CountSharesMonotone(ss: seq<Share>, s1: Time, e1: Time, s2: Time, e2: Time)
    requires s2 <= s1 && e1 <= e2
    ensures CountShares(ss, s1, e1) <= CountShares(ss, s2, e2)
  {
    if ss != [] {
      CountSharesMonotone(ss[1..], s1, e1, s2, e2);
    }
  }

  /** A wider window never lowers a score: a game's weekly score is at least
      its daily score when the day lies inside the week. */
  lemma ScoreMonotone(g: Game, s1: Time, e1: Time, s2: Time, e2: Time)
    requires s2 <= s1 && e1 <= e2
    ensures Score(g, s1, e1) <= Score(g, s2, e2)
  {
    CountCommentsMonotone(g.comments, s1, e1, s2, e2);
    CountVotesMonotone(g.upvote, s1, e1, s2, e2);
    CountSharesMonotone(g.shares, s1, e1, s2, e2);
  }

  /** A score never exceeds the number of comments and upvotes when the
      game's shares carry no date. */
  lemma ScoreBound(g: Game, start: Time, end: Time)
    requires forall i :: 0 <= i < |g.shares| ==> g.shares[i].createdAt.None?
    ensures Score(g, start, end) <= |g.comments| + |g.upvote|
  {
    UndatedSharesNeverCount(g.shares, start, end);
  }

  /** The games the pipeline ranks: approved, not deleted, and whose owner
      document is present (the owner join drops the rest). */
  predicate Eligible(s: Store, id: Id) {
    id in s.games && !s.games[id].isDelete && s.games[id].isApproved && s.games[id].owner in s.users
  }

  datatype Ranked = Ranked(id: Id, score: nat)

  /** The eligible games in the collection's scan order, each with its score. */
  function Candidates(s: Store, order: seq<Id>, start: Time, end: Time): (r: seq<Ranked>)
    ensures forall i :: 0 <= i < |r| ==> Eligible(s, r[i].id) && r[i].score == Score(s.games[r[i].id], start, end)
    ensures forall k :: 0 <= k < |order| && Eligible(s, order[k]) ==> exists i :: 0 <= i < |r| && r[i].id == order[k]
  {
    if order == [] then []
    else
      var rest := Candidates(s, order[1..], start, end);
      if Eligible(s, order[0]) then
        var r := [Ranked(order[0], Score(s.games[order[0]], start, end))] + rest;
        assert forall k :: 0 <= k < |order| && Eligible(s, order[k]) ==> exists i :: 0 <= i < |r| && r[i].id == order[k] by {
          forall k | 0 <= k < |order| && Eligible(s, order[k])
            ensures exists i :: 0 <= i < |r| && r[i].id == order[k]
          {
            if k == 0 {
              assert r[0].id == order[k];
            } else {
              assert order[k] == order[1..][k - 1];
              var j :| 0 <= j < |rest| && rest[j].id == order[k];
              assert r[j + 1] == rest[j];
            }
          }
        }
        r
      else
        assert forall k :: 1 <= k < |order| ==> order[k] == order[1..][k - 1];
        rest
  }

  predicate SortedDesc(xs: seq<Ranked>) {
    forall i, j :: 0 <= i < j < |xs| ==> xs[i].score >= xs[j].score
  }

  /** Inserts an entry into a list sorted by descending score. */
  function InsertDesc(x: Ranked, sorted: seq<Ranked>): (r: seq<Ranked>)
    requires SortedDesc(sorted)
    ensures SortedDesc(r)
    ensures multiset(r) == multiset(sorted) + multiset{x}
    ensures |r| == |sorted| + 1
    ensures r[0] == x || (sorted != [] && r[0] == sorted[0])
  {
    if sorted == [] || x.score >= sorted[0].score then
      [x] + sorted
    else
      var tail := InsertDesc(x, sorted[1..]);
      assert sorted == [sorted[0]] + sorted[1..];
      [sorted[0]] + tail
  }

  /** Orders entries by descending score (ties in no particular order, as
      the database's sort promises none). */
  function SortDesc(xs: seq<Ranked>): (r: seq<Ranked>)
    ensures SortedDesc(r)
    ensures multiset(r) == multiset(xs)
  {
    if xs == [] then []
    else
      assert xs == [xs[0]] + xs[1..];
      InsertDesc(xs[0], SortDesc(xs[1..]))
  }

  /** `getTopGameOfDay` / `getTopGameOfWeek` for the window `[start, end]`,
      with `order` the collection's scan order. */
  function TopGames(s: Store, order: seq<Id>, start: Time, end: Time): (r: seq<Ranked>)
    ensures SortedDesc(r)
    ensures multiset(r) == multiset(Candidates(s, order, start, end))
    ensures forall i :: 0 <= i < |r| ==> Eligible(s, r[i].id) && r[i].score == Score(s.games[r[i].id], start, end)
    ensures forall k :: 0 <= k < |order| && Eligible(s, order[k]) ==> exists i :: 0 <= i < |r| && r[i].id == order[k]
  {
    var c := Candidates(s, order, start, end);
    var r := SortDesc(c);
    forall i | 0 <= i < |r|
      ensures Eligible(s, r[i].id) && r[i].score == Score(s.games[r[i].id], start, end)
    {
      assert r[i] in multiset(c);
    }
    forall k | 0 <= k < |order| && Eligible(s, order[k])
      ensures exists i :: 0 <= i < |r| && r[i].id == order[k]
    {
      var j :| 0 <= j < |c| && c[j].id == order[k];
      assert c[j] in multiset(r);
    }
    r
  }
}
