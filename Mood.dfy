/** `PrismaMoodLogRepository`: the mood log table, listed newest first per user. */
module Mood {
  import Rows

  datatype MoodLog = MoodLog(id: nat, userId: nat, mood: string, createdAt: nat)

  /** `getMoodsByUserId(userId)`: the user's mood logs, newest first. */
  function MoodsOf(rows: seq<MoodLog>, userId: nat): (r: seq<MoodLog>)
    ensures forall m :: m in r <==> m in rows && m.userId == userId
    ensures forall m :: multiset(r)[m] == if m.userId == userId then multiset(rows)[m] else 0
    ensures forall i, j :: 0 <= i < j < |r| ==> r[i].createdAt >= r[j].createdAt
  {
    var mine := Rows.Filter(rows, (m: MoodLog) => m.userId == userId);
    var r := Rows.SortBy(mine, (m: MoodLog) => -(m.createdAt as int));
    assert forall m :: m in r <==> m in multiset(r);
    r
  }

  /** A logged mood shows up in its owner's history and leaves everyone else's as it was. */
  lemma {:induction false} LogShowsOnlyToOwner(rows: seq<MoodLog>, m: MoodLog, other: nat)
    requires other != m.userId
    ensures m in MoodsOf(rows + [m], m.userId)
    ensures MoodsOf(rows + [m], other) == MoodsOf(rows, other)
  {
    Rows.FilterAppend(rows, m, (x: MoodLog) => x.userId == other);
  }

  class MoodTable {
    var rows: seq<MoodLog>
    var nextId: nat

    ghost predicate Valid()
      reads this
    {
      forall m :: m in rows ==> m.id < nextId
    }

    constructor ()
      ensures Valid() && rows == []
    {
      rows := [];
      nextId := 0;
    }

    /** `logMood(moodLog)`: one new row with a fresh id; every existing row stays as it was. */
    method LogMood(userId: nat, mood: string, now: nat) returns (m: MoodLog)
      requires Valid()
      modifies this
      ensures Valid()
      ensures m == MoodLog(old(nextId), userId, mood, now)
      ensures rows == old(rows) + [m]
      ensures forall x :: x in old(rows) ==> x.id != m.id
    {
      m := MoodLog(nextId, userId, mood, now);
      rows := rows + [m];
      nextId := nextId + 1;
    }

    function GetMoodsByUserId(userId: nat): (r: seq<MoodLog>)
      reads this
      ensures forall m :: m in r <==> m in rows && m.userId == userId
      ensures forall m :: multiset(r)[m] == if m.userId == userId then multiset(rows)[m] else 0
      ensures forall i, j :: 0 <= i < j < |r| ==> r[i].createdAt >= r[j].createdAt
    {
      MoodsOf(rows, userId)
    }
  }
}
