/** The pull half of src/sync/service.py, and its socket-side twin in src/realtime.py. */
module Pull {
  import opened Wrappers
  import opened Tables
  import opened Paging

  // ── What a reader may see ─────────────────────────────────────────────────

  predicate AboveFloor(m: Membership, ts: int) {
    m.floor.Some? ==> m.floor.value <= ts
  }

  /** The arm of the query for one membership. */
  predicate ReachedThrough(t: Tables, user: UserId, row: Row, space: SpaceId) {
    var mk := MemberKey(space, user);
    mk in t.members && space in row.spaceIds && AboveFloor(t.members[mk], row.serverTs)
  }

  predicate Sees(t: Tables, user: UserId, k: RowKey)
    requires k in t.entries
  {
    k.user == user || exists s :: s in t.entries[k].spaceIds && ReachedThrough(t, user, t.entries[k], s)
  }

  predicate Told(t: Tables, user: UserId, rk: RemovalKey)
    requires rk in t.removals
  {
    var mk := MemberKey(rk.space, user);
    mk in t.members && AboveFloor(t.members[mk], t.removals[rk].serverTs)
  }

  /** The entry type asked for; anything else means all of them. */
  predicate Wanted(want: Option<EntryType>, etype: EntryType) {
    want.Some? ==> want.value == etype
  }

  function EntriesAfter(t: Tables, user: UserId, after: int, want: Option<EntryType>): set<Stamped<RowKey>> {
    set k | k in t.entries && Wanted(want, k.etype) && Sees(t, user, k) && t.entries[k].serverTs > after
      :: Stamped(k, t.entries[k].serverTs)
  }

  function RemovalsAfter(t: Tables, user: UserId, after: int, want: Option<EntryType>): set<Stamped<RemovalKey>> {
    set rk | rk in t.removals && Wanted(want, rk.etype) && Told(t, user, rk) && t.removals[rk].serverTs > after
      :: Stamped(rk, t.removals[rk].serverTs)
  }

  // ── Views ─────────────────────────────────────────────────────────────────

  datatype View = View(key: RowKey, row: Row)

  function SpacesOfMember(t: Tables, user: UserId): set<SpaceId> {
    set mk | mk in t.members && mk.user == user :: mk.space
  }

  function Within(spaces: seq<SpaceId>, mine: set<SpaceId>): (shown: seq<SpaceId>)
    ensures forall s :: s in shown <==> s in spaces && s in mine
  {
    if spaces == [] then []
    else (if spaces[0] in mine then [spaces[0]] else []) + Within(spaces[1..], mine)
  }

  function WrapsFor(wraps: Wraps, shown: seq<SpaceId>): Wraps {
    wraps - set n | n in wraps && !(n.ForSpace? && n.space in shown)
  }

  /** The part of a row that `reader` is entitled to. */
  function EntryView(k: RowKey, row: Row, reader: UserId, mine: set<SpaceId>): View {
    if k.user == reader then View(k, row)
    else
      var shown := Within(row.spaceIds, mine);
      View(k, row.(spaceIds := shown, body := row.body.(wraps := WrapsFor(row.body.wraps, shown))))
  }

  function ViewOf(t: Tables, user: UserId, k: RowKey): View
    requires k in t.entries
  {
    EntryView(k, t.entries[k], user, SpacesOfMember(t, user))
  }

  // ── A pull ────────────────────────────────────────────────────────────────

  datatype Pulled = Pulled(entries: seq<Stamped<RowKey>>, removals: seq<Stamped<RemovalKey>>, next: Option<int>)

  /** `entries` and `removals` are the two ordered queries; each is paged on its own. */
  function PullPage(entries: seq<Stamped<RowKey>>, removals: seq<Stamped<RemovalKey>>, limit: nat): Pulled
    requires limit >= 1
  {
    var e := Page(entries, limit);
    var r := Page(removals, limit);
    Pulled(e.rows, r.rows, MergeCursors(e.next, r.next))
  }

  /** `out` is an answer the server may give to a pull. */
  ghost predicate Answers(
    t: Tables, user: UserId, after: int, limit: nat, want: Option<EntryType>, out: Pulled)
  {
    limit >= 1 && exists entries, removals ::
      && Enumerates(entries, EntriesAfter(t, user, after, want))
      && Enumerates(removals, RemovalsAfter(t, user, after, want))
      && out == PullPage(entries, removals, limit)
  }

  /** Up to the cursor both streams are whole; without one, they are whole altogether. */
  ghost predicate UpTo(next: Option<int>, ts: int) {
    next.Some? ==> ts <= next.value
  }

  lemma StampsAreAfter(t: Tables, user: UserId, after: int, want: Option<EntryType>)
    ensures forall r :: r in EntriesAfter(t, user, after, want) ==> r.ts > after
    ensures forall r :: r in RemovalsAfter(t, user, after, want) ==> r.ts > after
  {
  }

  lemma PageHolds<T(!new)>(rows: seq<Stamped<T>>, answer: set<Stamped<T>>, limit: nat)
    requires limit >= 1 && Enumerates(rows, answer)
    ensures forall r :: r in Page(rows, limit).rows ==> r in answer
    ensures forall r :: r in answer && UpTo(Page(rows, limit).next, r.ts) ==> r in Page(rows, limit).rows
    ensures Page(rows, limit).next.Some? ==>
      exists r :: r in Page(rows, limit).rows && r.ts == Page(rows, limit).next.value
  {
    PageIsComplete(rows, limit);
    var page := Page(rows, limit);
    forall r | r in answer && UpTo(page.next, r.ts)
      ensures r in page.rows
    {
      assert r in rows;
      var i :| 0 <= i < |rows| && rows[i] == r;
      assert i < |page.rows| ==> page.rows[i] == r;
    }
    if page.next.Some? {
      assert page.rows[|page.rows| - 1] in page.rows;
    }
  }

  /**
   * Whatever the page size, a pull returns only what the reader may see above
   * the cursor it sent, and everything of it up to the cursor it hands back; that
   * cursor is a stamp above the one sent.
   */
  lemma PullIsComplete(t: Tables, user: UserId, after: int, limit: nat, want: Option<EntryType>, out: Pulled)
    requires Answers(t, user, after, limit, want, out)
    ensures forall r :: r in out.entries ==> r in EntriesAfter(t, user, after, want)
    ensures forall r :: r in out.removals ==> r in RemovalsAfter(t, user, after, want)
    ensures forall r :: r in EntriesAfter(t, user, after, want) && UpTo(out.next, r.ts) ==> r in out.entries
    ensures forall r :: r in RemovalsAfter(t, user, after, want) && UpTo(out.next, r.ts) ==> r in out.removals
    ensures out.next.Some? ==>
      || (exists r :: r in out.entries && r.ts == out.next.value)
      || (exists r :: r in out.removals && r.ts == out.next.value)
    ensures out.next.Some? ==> after < out.next.value
  {
    StampsAreAfter(t, user, after, want);
    hide EntriesAfter, RemovalsAfter, Page, Enumerates;
    var entries, removals :|
      && Enumerates(entries, EntriesAfter(t, user, after, want))
      && Enumerates(removals, RemovalsAfter(t, user, after, want))
      && out == PullPage(entries, removals, limit);
    PageHolds(entries, EntriesAfter(t, user, after, want), limit);
    PageHolds(removals, RemovalsAfter(t, user, after, want), limit);
  }

  /** The reader wrote the row, or is in a space it carries with no floor above its stamp. */
  predicate DueToRow(t: Tables, user: UserId, k: RowKey) {
    && k in t.entries
    && (k.user == user ||
        exists s :: s in t.entries[k].spaceIds && MemberKey(s, user) in t.members
          && var floor := t.members[MemberKey(s, user)].floor;
             floor.None? || floor.value <= t.entries[k].serverTs)
  }

  /** The reader is in the space of the record with no floor above its stamp. */
  predicate DueToRecord(t: Tables, user: UserId, rk: RemovalKey) {
    && rk in t.removals && MemberKey(rk.space, user) in t.members
    && var floor := t.members[MemberKey(rk.space, user)].floor;
       floor.None? || floor.value <= t.removals[rk].serverTs
  }

  /**
   * What a pull hands out, written over the tables alone. A row or a record is in
   * the answer exactly when it is due to the reader, stamped above the cursor sent
   * and no further than the one handed back, and of the type asked for.
   */
  lemma PullServesExactly(t: Tables, user: UserId, after: int, limit: nat, want: Option<EntryType>, out: Pulled)
    requires Answers(t, user, after, limit, want, out)
    ensures forall r :: r in out.entries ==>
      && DueToRow(t, user, r.item) && r.ts == t.entries[r.item].serverTs > after
      && (want == None || want == Some(r.item.etype))
    ensures forall r :: r in out.removals ==>
      && DueToRecord(t, user, r.item) && r.ts == t.removals[r.item].serverTs > after
      && (want == None || want == Some(r.item.etype))
    ensures forall k ::
      && DueToRow(t, user, k) && t.entries[k].serverTs > after && (want == None || want == Some(k.etype))
      && (out.next == None || t.entries[k].serverTs <= out.next.value) ==>
        Stamped(k, t.entries[k].serverTs) in out.entries
    ensures forall rk ::
      && DueToRecord(t, user, rk) && t.removals[rk].serverTs > after && (want == None || want == Some(rk.etype))
      && (out.next == None || t.removals[rk].serverTs <= out.next.value) ==>
        Stamped(rk, t.removals[rk].serverTs) in out.removals
  {
    hide Answers;
    PullIsComplete(t, user, after, limit, want, out);
    forall k | k in t.entries
      ensures Sees(t, user, k) <==> DueToRow(t, user, k)
    {
      SeenIffDue(t, user, k);
    }
    hide Sees, DueToRow;
  }

  lemma SeenIffDue(t: Tables, user: UserId, k: RowKey)
    requires k in t.entries
    ensures Sees(t, user, k) <==> DueToRow(t, user, k)
  {
    if Sees(t, user, k) && k.user != user {
      var s :| s in t.entries[k].spaceIds && ReachedThrough(t, user, t.entries[k], s);
      assert MemberKey(s, user) in t.members;
    }
    if DueToRow(t, user, k) && k.user != user {
      var s :| s in t.entries[k].spaceIds && MemberKey(s, user) in t.members
        && var floor := t.members[MemberKey(s, user)].floor;
           floor.None? || floor.value <= t.entries[k].serverTs;
      assert ReachedThrough(t, user, t.entries[k], s);
    }
  }

  /** The author of a row is shown all of it. */
  lemma AuthorsSeeTheWholeRow(t: Tables, user: UserId, k: RowKey)
    requires k in t.entries && k.user == user
    ensures ViewOf(t, user, k) == View(k, t.entries[k])
  {
  }

  // ── Following the cursor ──────────────────────────────────────────────────

  /** The pages of a client that follows `next` on a table that stays as it is. */
  ghost predicate IsWalk(
    t: Tables, user: UserId, after: int, limit: nat, want: Option<EntryType>, pages: seq<Pulled>)
    decreases |pages|
  {
    && pages != []
    && Answers(t, user, after, limit, want, pages[0])
    && match pages[0].next
       case None => |pages| == 1
       case Some(c) => IsWalk(t, user, c, limit, want, pages[1..])
  }

  ghost function EntriesIn(pages: seq<Pulled>): set<Stamped<RowKey>> {
    if pages == [] then {} else (set r | r in pages[0].entries) + EntriesIn(pages[1..])
  }

  ghost function RemovalsIn(pages: seq<Pulled>): set<Stamped<RemovalKey>> {
    if pages == [] then {} else (set r | r in pages[0].removals) + RemovalsIn(pages[1..])
  }

  /** Raising the cursor cuts exactly what is stamped up to it. */
  lemma RaisingTheCursor(t: Tables, user: UserId, after: int, c: int, want: Option<EntryType>)
    requires after <= c
    ensures EntriesAfter(t, user, c, want) == set r | r in EntriesAfter(t, user, after, want) && r.ts > c
    ensures RemovalsAfter(t, user, c, want) == set r | r in RemovalsAfter(t, user, after, want) && r.ts > c
  {
  }

  /** Whatever the page size, a walk returns exactly what is visible above its start. */
  lemma {:induction false} WalkReturnsEverything(
    t: Tables, user: UserId, after: int, limit: nat, want: Option<EntryType>, pages: seq<Pulled>)
    requires IsWalk(t, user, after, limit, want, pages)
    ensures EntriesIn(pages) == EntriesAfter(t, user, after, want)
    ensures RemovalsIn(pages) == RemovalsAfter(t, user, after, want)
    decreases |pages|
  {
    hide EntriesAfter, RemovalsAfter, Answers;
    PullIsComplete(t, user, after, limit, want, pages[0]);
    if pages[0].next.Some? {
      RaisingTheCursor(t, user, after, pages[0].next.value, want);
      WalkReturnsEverything(t, user, pages[0].next.value, limit, want, pages[1..]);
    } else {
      assert pages[1..] == [];
    }
  }

  ghost function Remaining(t: Tables, user: UserId, after: int, want: Option<EntryType>): nat {
    |EntriesAfter(t, user, after, want)| + |RemovalsAfter(t, user, after, want)|
  }

  lemma StrictSubsetIsSmaller<T>(a: set<T>, b: set<T>, x: T)
    requires a <= b && x in b && x !in a
    ensures |a| < |b|
  {
    assert a <= b - {x};
    SubsetIsSmaller(a, b - {x});
  }

  lemma {:induction false} SubsetIsSmaller<T>(a: set<T>, b: set<T>)
    requires a <= b
    ensures |a| <= |b|
    decreases a
  {
    if a == {} {
    } else {
      var x :| x in a;
      SubsetIsSmaller(a - {x}, b - {x});
    }
  }

  /** Every page that hands back a cursor leaves strictly less above it. */
  lemma EveryPageProgresses(
    t: Tables, user: UserId, after: int, limit: nat, want: Option<EntryType>, out: Pulled)
    requires Answers(t, user, after, limit, want, out) && out.next.Some?
    ensures Remaining(t, user, out.next.value, want) < Remaining(t, user, after, want)
  {
    hide EntriesAfter, RemovalsAfter, Answers;
    var c := out.next.value;
    PullIsComplete(t, user, after, limit, want, out);
    RaisingTheCursor(t, user, after, c, want);
    var es, es' := EntriesAfter(t, user, after, want), EntriesAfter(t, user, c, want);
    var rs, rs' := RemovalsAfter(t, user, after, want), RemovalsAfter(t, user, c, want);
    SubsetIsSmaller(es', es);
    SubsetIsSmaller(rs', rs);
    if r :| r in out.entries && r.ts == c {
      StrictSubsetIsSmaller(es', es, r);
    } else {
      var r :| r in out.removals && r.ts == c;
      StrictSubsetIsSmaller(rs', rs, r);
    }
  }

  lemma {:induction false} EarliestOf<T>(answer: set<Stamped<T>>) returns (first: Stamped<T>)
    requires answer != {}
    ensures first in answer && forall r :: r in answer ==> first.ts <= r.ts
    decreases answer
  {
    first :| first in answer;
    if answer != {first} {
      var other := EarliestOf(answer - {first});
      assert forall r :: r in answer ==> r == first || r in answer - {first};
      first := if first.ts <= other.ts then first else other;
    }
  }

  /** The database can always order an answer set. */
  lemma {:induction false} OrderExists<T(!new)>(answer: set<Stamped<T>>) returns (rows: seq<Stamped<T>>)
    ensures Enumerates(rows, answer)
    decreases answer
  {
    rows := [];
    if answer == {} {
    } else {
      var first := EarliestOf(answer);
      var rest := OrderExists(answer - {first});
      rows := [first] + rest;
      assert forall r :: r in rest ==> r in answer;
    }
  }

  /** Pages of a client following `next` that may not have reached the end. */
  ghost predicate IsChain(
    t: Tables, user: UserId, after: int, limit: nat, want: Option<EntryType>, pages: seq<Pulled>)
    decreases |pages|
  {
    pages == [] || (
      && Answers(t, user, after, limit, want, pages[0])
      && match pages[0].next
         case None => |pages| == 1
         case Some(c) => IsChain(t, user, c, limit, want, pages[1..]))
  }

  lemma {:induction false} WalksAreChains(
    t: Tables, user: UserId, after: int, limit: nat, want: Option<EntryType>, pages: seq<Pulled>)
    requires IsWalk(t, user, after, limit, want, pages)
    ensures IsChain(t, user, after, limit, want, pages)
    decreases |pages|
  {
    if pages[0].next.Some? {
      hide Answers;
      WalksAreChains(t, user, pages[0].next.value, limit, want, pages[1..]);
    }
  }

  /** On a table that stays as it is, no client can follow `next` for long, whatever pages it is answered with. */
  lemma {:induction false} EveryWalkEnds(
    t: Tables, user: UserId, after: int, limit: nat, want: Option<EntryType>, pages: seq<Pulled>)
    requires IsChain(t, user, after, limit, want, pages)
    ensures |pages| <= Remaining(t, user, after, want) + 1
    decreases |pages|
  {
    if pages == [] {
    } else if pages[0].next.Some? {
      hide Answers, Remaining;
      var c := pages[0].next.value;
      EveryPageProgresses(t, user, after, limit, want, pages[0]);
      EveryWalkEnds(t, user, c, limit, want, pages[1..]);
    }
  }

  /** For every page size there is a walk to the end. */
  lemma {:induction false} WalkEnds(t: Tables, user: UserId, after: int, limit: nat, want: Option<EntryType>)
    returns (pages: seq<Pulled>)
    requires limit >= 1
    ensures IsWalk(t, user, after, limit, want, pages)
    ensures |pages| <= Remaining(t, user, after, want) + 1
    decreases Remaining(t, user, after, want)
  {
    hide EntriesAfter, RemovalsAfter, PullPage, Enumerates;
    var entries := OrderExists(EntriesAfter(t, user, after, want));
    var removals := OrderExists(RemovalsAfter(t, user, after, want));
    var out := PullPage(entries, removals, limit);
    assert Answers(t, user, after, limit, want, out);
    pages := [out];
    if out.next.Some? {
      EveryPageProgresses(t, user, after, limit, want, out);
      var rest := WalkEnds(t, user, out.next.value, limit, want);
      pages := [out] + rest;
      assert pages[1..] == rest;
    }
  }
}
