/**
 * `PrismaJournalEntryRepository`: the journal table. Entries are listed
 * newest first; deleting and updating are scoped to the entry's owner.
 */
module Journal {
  import opened Wrappers
  import Rows

  datatype JournalEntry = JournalEntry(id: nat, userId: nat, title: string, content: string, createdAt: nat)

  /** The fields an update may set; `None` leaves the field as it is (`undefined`). */
  datatype EntryPatch = EntryPatch(title: Option<string>, content: Option<string>)

  /** Prisma's "record to update not found". */
  datatype UpdateError = RecordNotFound

  /** `where: { id, userId }` */
  predicate Matches(e: JournalEntry, id: nat, userId: nat) {
    e.id == id && e.userId == userId
  }

  /** `getJournalEntriesByUserId(userId)`: the user's entries, newest first. */
  function EntriesOf(rows: seq<JournalEntry>, userId: nat): (r: seq<JournalEntry>)
    ensures forall e :: e in r <==> e in rows && e.userId == userId
    ensures forall e :: multiset(r)[e] == if e.userId == userId then multiset(rows)[e] else 0
    ensures forall i, j :: 0 <= i < j < |r| ==> r[i].createdAt >= r[j].createdAt
  {
    var mine := Rows.Filter(rows, (e: JournalEntry) => e.userId == userId);
    var r := Rows.SortBy(mine, (e: JournalEntry) => -(e.createdAt as int));
    assert forall e :: e in r <==> e in multiset(r);
    r
  }

  /** A new entry shows up in its owner's listing and in no one else's. */
  lemma {:induction false} CreateShowsOnlyToOwner(rows: seq<JournalEntry>, e: JournalEntry, other: nat)
    requires other != e.userId
    ensures e in EntriesOf(rows + [e], e.userId)
    ensures EntriesOf(rows + [e], other) == EntriesOf(rows, other)
  {
    Rows.FilterAppend(rows, e, (x: JournalEntry) => x.userId == other);
  }

  /** The table after `deleteMany({ where: { id, userId } })`. */
  function WithoutEntry(rows: seq<JournalEntry>, id: nat, userId: nat): (r: seq<JournalEntry>)
    ensures forall e :: e in r <==> e in rows && !Matches(e, id, userId)
    ensures forall e :: !Matches(e, id, userId) ==> multiset(r)[e] == multiset(rows)[e]
  {
    Rows.Filter(rows, (e: JournalEntry) => !Matches(e, id, userId))
  }

  /** Deleting an entry the user does not own, or that does not exist, changes nothing. */
  lemma DeleteForeignEntryIsNoop(rows: seq<JournalEntry>, id: nat, userId: nat)
    requires forall e :: e in rows ==> !Matches(e, id, userId)
    ensures WithoutEntry(rows, id, userId) == rows
  {
    Rows.FilterKeepsAll(rows, (e: JournalEntry) => !Matches(e, id, userId));
  }

  /** A deletion by one user leaves every other user's listing exactly as it was. */
  lemma DeleteKeepsOtherListings(rows: seq<JournalEntry>, id: nat, userId: nat, other: nat)
    requires other != userId
    ensures EntriesOf(WithoutEntry(rows, id, userId), other) == EntriesOf(rows, other)
  {
    Rows.FilterThenFilter(rows, (e: JournalEntry) => !Matches(e, id, userId), (e: JournalEntry) => e.userId == other);
  }

  /** The entry after an update: the given fields replaced, everything else kept. */
  function Patched(e: JournalEntry, patch: EntryPatch): (r: JournalEntry)
    ensures r.id == e.id && r.userId == e.userId && r.createdAt == e.createdAt
    ensures r.title == (if patch.title.Some? then patch.title.value else e.title)
    ensures r.content == (if patch.content.Some? then patch.content.value else e.content)
    ensures patch == EntryPatch(None, None) ==> r == e
  {
    e.(title := if patch.title.Some? then patch.title.value else e.title,
       content := if patch.content.Some? then patch.content.value else e.content)
  }

  /** The position of the entry with this id owned by this user, if there is one. */
  function IndexOf(rows: seq<JournalEntry>, id: nat, userId: nat): (r: Option<nat>)
    ensures r.None? <==> forall e :: e in rows ==> !Matches(e, id, userId)
    ensures r.Some? ==> r.value < |rows| && Matches(rows[r.value], id, userId)
  {
    if rows == [] then None
    else if Matches(rows[0], id, userId) then Some(0)
    else
      var rest := IndexOf(rows[1..], id, userId);
      assert forall e :: e in rows ==> e == rows[0] || e in rows[1..];
      if rest.None? then None else Some(rest.value + 1)
  }

  /** No two entries share an id. */
  ghost predicate UniqueIds(rows: seq<JournalEntry>) {
    forall i, j :: 0 <= i < j < |rows| ==> rows[i].id != rows[j].id
  }

  class JournalTable {
    var rows: seq<JournalEntry>
    var nextId: nat

    /** Ids are unique, and every id the table will assign is new. */
    ghost predicate Valid()
      reads this
    {
      UniqueIds(rows) && forall e :: e in rows ==> e.id < nextId
    }

    constructor ()
      ensures Valid() && rows == []
    {
      rows := [];
      nextId := 0;
    }

    /** `createJournalEntry(entry)`: one new row; the table assigns the id, `now` is the creation time. */
    method CreateJournalEntry(userId: nat, title: string, content: string, now: nat) returns (e: JournalEntry)
      requires Valid()
      modifies this
      ensures Valid()
      ensures e == JournalEntry(old(nextId), userId, title, content, now)
      ensures rows == old(rows) + [e]
      ensures forall x :: x in old(rows) ==> x.id != e.id
    {
      e := JournalEntry(nextId, userId, title, content, now);
      rows := rows + [e];
      nextId := nextId + 1;
    }

    function GetJournalEntriesByUserId(userId: nat): (r: seq<JournalEntry>)
      reads this
      ensures forall e :: e in r <==> e in rows && e.userId == userId
      ensures forall e :: multiset(r)[e] == if e.userId == userId then multiset(rows)[e] else 0
      ensures forall i, j :: 0 <= i < j < |r| ==> r[i].createdAt >= r[j].createdAt
    {
      EntriesOf(rows, userId)
    }

    /** `deleteJournalEntry(id, userId)`: removes the matching row, if any, and never fails. */
    method DeleteJournalEntry(id: nat, userId: nat)
      requires Valid()
      modifies this
      ensures Valid()
      ensures rows == WithoutEntry(old(rows), id, userId)
      ensures nextId == old(nextId)
    {
      var kept := WithoutEntry(rows, id, userId);
      SelectionKeepsUniqueIds(rows, kept, id, userId);
      rows := kept;
    }

    /**
     * `updateJournalEntry(id, userId, data)`: rewrites the matching row in place and
     * returns it; fails, leaving the table unchanged, when no row matches.
     */
    method UpdateJournalEntry(id: nat, userId: nat, patch: EntryPatch) returns (r: Result<JournalEntry, UpdateError>)
      requires Valid()
      modifies this
      ensures Valid()
      ensures nextId == old(nextId) && |rows| == |old(rows)|
      ensures IndexOf(old(rows), id, userId).None? ==> r == Err(RecordNotFound) && rows == old(rows)
      ensures IndexOf(old(rows), id, userId).Some? ==>
        var i := IndexOf(old(rows), id, userId).value;
        r == Ok(Patched(old(rows)[i], patch)) && rows == old(rows)[i := r.value]
      ensures forall k :: 0 <= k < |rows| && !Matches(old(rows)[k], id, userId) ==> rows[k] == old(rows)[k]
    {
      var found := IndexOf(rows, id, userId);
      if found.None? {
        return Err(RecordNotFound);
      }
      var i := found.value;
      var updated := Patched(rows[i], patch);
      forall k | 0 <= k < |rows| && k != i ensures rows[k].id != updated.id {
      }
      rows := rows[i := updated];
      r := Ok(updated);
    }
  }

  /** Removing rows keeps ids unique and below the next id. */
  lemma SelectionKeepsUniqueIds(rows: seq<JournalEntry>, kept: seq<JournalEntry>, id: nat, userId: nat)
    requires UniqueIds(rows)
    requires kept == WithoutEntry(rows, id, userId)
    ensures UniqueIds(kept)
    ensures forall e :: e in kept ==> e in rows
  {
    forall i, j | 0 <= i < j < |kept| ensures kept[i].id != kept[j].id {
      if kept[i].id == kept[j].id {
        assert kept[i] in rows && kept[j] in rows;
        var a :| 0 <= a < |rows| && rows[a] == kept[i];
        var b :| 0 <= b < |rows| && rows[b] == kept[j];
        assert a == b;
        assert multiset(kept)[kept[i]] == multiset(rows)[kept[i]];
        MultiplicityOne(rows, a);
        MultiplicityAtLeastTwo(kept, i, j);
      }
    }
  }

  /** In a table with unique ids a row occurs once. */
  lemma MultiplicityOne(rows: seq<JournalEntry>, a: nat)
    requires UniqueIds(rows) && a < |rows|
    ensures multiset(rows)[rows[a]] == 1
  {
    var x := rows[a];
    assert rows == rows[..a] + [x] + rows[a + 1..];
    assert x !in rows[..a] && x !in rows[a + 1..] by {
      forall k | 0 <= k < |rows| && k != a ensures rows[k] != x {
        if k < a { assert rows[k].id != rows[a].id; } else { assert rows[a].id != rows[k].id; }
      }
    }
  }

  /** A value at two positions occurs at least twice. */
  lemma MultiplicityAtLeastTwo(s: seq<JournalEntry>, i: nat, j: nat)
    requires i < j < |s| && s[i] == s[j]
    ensures multiset(s)[s[i]] >= 2
  {
    assert s == s[..i] + [s[i]] + s[i + 1..j] + [s[j]] + s[j + 1..];
  }
}
