/** `remove_entry_from_space` of src/spaces/service.py: an entry leaves one space. */
module TakeDown {
  import opened Wrappers
  import opened Tables
  import opened Push

  datatype Miss = NotFound | NotYours

  function Carriers(t: Tables, space: SpaceId, client: ClientId, etype: EntryType): set<RowKey> {
    set k | k in t.entries && k.client == client && k.etype == etype && space in t.entries[k].spaceIds
  }

  /** The owner takes down every carrier; a member only the row they wrote. */
  function Targets(t: Tables, space: SpaceId, client: ClientId, etype: EntryType, user: UserId): set<RowKey> {
    set k | k in Carriers(t, space, client, etype) && (Owns(t, space, user) || k.user == user)
  }

  function AuthorsOf(keys: set<RowKey>): set<UserId> {
    set k | k in keys :: k.user
  }

  predicate IsLeast(m: nat, s: set<nat>) {
    m in s && forall x :: x in s ==> m <= x
  }

  lemma {:induction false} LeastOf(s: set<nat>) returns (m: nat)
    requires s != {}
    ensures IsLeast(m, s)
    decreases s
  {
    m :| m in s;
    if s != {m} {
      var n := LeastOf(s - {m});
      assert forall x :: x in s ==> x == m || x in s - {m};
      m := if m <= n then m else n;
    }
  }

  lemma LeastExists(s: set<nat>)
    requires s != {}
    ensures exists m :: IsLeast(m, s)
  {
    var _ := LeastOf(s);
  }

  function Least(s: set<nat>): (m: nat)
    requires s != {}
    ensures IsLeast(m, s)
  {
    LeastExists(s);
    var m :| IsLeast(m, s);
    m
  }

  /** Whom the record names: the remover if among the authors, and else the least of them. */
  function RecordedAuthor(keys: set<RowKey>, user: UserId): (author: UserId)
    requires keys != {}
    ensures author in AuthorsOf(keys)
  {
    var k :| k in keys;
    assert k.user in AuthorsOf(keys);
    if user in AuthorsOf(keys) then user else Least(AuthorsOf(keys))
  }

  /** The row without the space and without the space's wrapped key. */
  function Stripped(row: Row, space: SpaceId, now: int): Row {
    row.(spaceIds := Without(row.spaceIds, [space]),
         body := row.body.(wraps := row.body.wraps - {ForSpace(space)}),
         serverTs := now)
  }

  function AllStripped(entries: map<RowKey, Row>, keys: set<RowKey>, space: SpaceId, now: int): map<RowKey, Row>
    requires keys <= entries.Keys
  {
    map k | k in entries :: if k in keys then Stripped(entries[k], space, now) else entries[k]
  }

  predicate MayLook(t: Tables, space: SpaceId, user: UserId) {
    space in t.spaces && (Owns(t, space, user) || MemberKey(space, user) in t.members)
  }

  function Answered(t: Tables, space: SpaceId, client: ClientId, etype: EntryType, user: UserId)
    : Result<UserId, Miss>
  {
    if !MayLook(t, space, user) || Carriers(t, space, client, etype) == {} then Err(NotFound)
    else if Targets(t, space, client, etype, user) == {} then Err(NotYours)
    else Ok(RecordedAuthor(Targets(t, space, client, etype, user), user))
  }

  function TakenDown(
    t: Tables, space: SpaceId, client: ClientId, etype: EntryType, user: UserId, now: int): (t': Tables)
    ensures t' == t.(entries := t'.entries, removals := t'.removals)
  {
    match Answered(t, space, client, etype, user)
    case Err(_) => t
    case Ok(author) =>
      var targets := Targets(t, space, client, etype, user);
      t.(entries := AllStripped(t.entries, targets, space, now),
         removals := Recorded(t.removals, [space], client, etype, Removal(author, user, now)))
  }

  method StripRows(db: Database, matched: set<RowKey>, space: SpaceId, now: int)
    requires matched <= db.entries.Keys
    modifies db`entries
    ensures db.entries == AllStripped(old(db.entries), matched, space, now)
  {
    ghost var before := db.entries;
    var rest := matched;
    while rest != {}
      invariant rest <= matched && matched <= db.entries.Keys
      invariant db.entries == AllStripped(before, matched - rest, space, now)
      decreases rest
    {
      var k :| k in rest;
      db.entries := db.entries[k := Stripped(db.entries[k], space, now)];
      rest := rest - {k};
    }
    assert matched - rest == matched;
  }

  /** The row is a copy of the entry that the space carries. */
  predicate CopyIn(t: Tables, k: RowKey, space: SpaceId, client: ClientId, etype: EntryType) {
    k in t.entries && k.client == client && k.etype == etype && space in t.entries[k].spaceIds
  }

  /** The caller may take the row down: they own the space, or wrote the row. */
  predicate MayStrip(t: Tables, k: RowKey, space: SpaceId, user: UserId) {
    space in t.spaces && (t.spaces[space].owner == user || k.user == user)
  }

  /** Each copy the caller may take down loses this space, wholly, with the space's wrap; every other row stays as it is. */
  ghost predicate OnlyTheseStripped(
    before: map<RowKey, Row>, after: map<RowKey, Row>, stripped: iset<RowKey>, space: SpaceId, now: int)
  {
    && after.Keys == before.Keys
    && forall k :: k in before ==>
      if k in stripped then
        && after[k] == before[k].(
             spaceIds := after[k].spaceIds, serverTs := now,
             body := before[k].body.(wraps := before[k].body.wraps - {ForSpace(space)}))
        && forall s :: s in after[k].spaceIds <==> s in before[k].spaceIds && s != space
      else after[k] == before[k]
  }

  /** The caller when a copy of theirs went, and else the least author whose copy did. */
  ghost predicate NamedAuthor(stripped: iset<RowKey>, user: UserId, author: UserId) {
    && (exists k :: k in stripped && k.user == author)
    && (author == user || forall k :: k in stripped ==> k.user != user && author <= k.user)
  }

  /** A take-down that goes through, row by row, with the one record it writes. */
  ghost predicate TakeDownRows(
    t: Tables, t': Tables, space: SpaceId, client: ClientId, etype: EntryType, user: UserId, now: int, author: UserId)
  {
    var stripped := iset k | CopyIn(t, k, space, client, etype) && MayStrip(t, k, space, user);
    && t' == t.(entries := t'.entries, removals := t'.removals)
    && OnlyTheseStripped(t.entries, t'.entries, stripped, space, now)
    && NamedAuthor(stripped, user, author)
    && t'.removals == t.removals[RemovalKey(space, client, etype) := Removal(author, user, now)]
  }

  lemma StrippingRows(
    before: map<RowKey, Row>, keys: set<RowKey>, stripped: iset<RowKey>, space: SpaceId, now: int)
    requires keys <= before.Keys && forall k :: k in keys <==> k in stripped
    ensures OnlyTheseStripped(before, AllStripped(before, keys, space, now), stripped, space, now)
  {
  }

  lemma RecordingOne(
    removals: map<RemovalKey, Removal>, space: SpaceId, client: ClientId, etype: EntryType, removal: Removal)
    ensures Recorded(removals, [space], client, etype, removal) == removals[RemovalKey(space, client, etype) := removal]
  {
    assert [space][1..] == [];
  }

  lemma TakingDownRows(
    t: Tables, space: SpaceId, client: ClientId, etype: EntryType, user: UserId, now: int)
    requires Answered(t, space, client, etype, user).Ok?
    ensures TakeDownRows(
      t, TakenDown(t, space, client, etype, user, now), space, client, etype, user, now,
      Answered(t, space, client, etype, user).value)
  {
    hide CopyIn, MayStrip, Owns, OnlyTheseStripped, NamedAuthor, AllStripped, Recorded, RecordedAuthor, Carriers;
    var targets := Targets(t, space, client, etype, user);
    var author := RecordedAuthor(targets, user);
    var stripped := iset k | CopyIn(t, k, space, client, etype) && MayStrip(t, k, space, user);
    TargetsAreStripped(t, space, client, etype, user);
    hide Targets;
    StrippingRows(t.entries, targets, stripped, space, now);
    AuthorIsRight(targets, stripped, user);
    RecordingOne(t.removals, space, client, etype, Removal(author, user, now));
  }

  lemma TargetsAreStripped(t: Tables, space: SpaceId, client: ClientId, etype: EntryType, user: UserId)
    requires space in t.spaces
    ensures Targets(t, space, client, etype, user) <= t.entries.Keys
    ensures forall k :: k in Targets(t, space, client, etype, user) <==>
      CopyIn(t, k, space, client, etype) && MayStrip(t, k, space, user)
  {
  }

  lemma AuthorIsRight(keys: set<RowKey>, stripped: iset<RowKey>, user: UserId)
    requires keys != {} && forall k :: k in keys <==> k in stripped
    ensures NamedAuthor(stripped, user, RecordedAuthor(keys, user))
  {
    var author := RecordedAuthor(keys, user);
    assert forall k :: k in keys ==> k.user in AuthorsOf(keys);
    var k :| k in keys && k.user == author;
    assert k in stripped;
  }

  /** Whoever may not look into the space, and whoever asks for what it does not carry, gets one and the same answer. */
  ghost predicate AnsweredAsItShould(
    t: Tables, space: SpaceId, client: ClientId, etype: EntryType, user: UserId, result: Result<UserId, Miss>)
  {
    && (result == Err(NotFound) <==>
          || space !in t.spaces
          || (t.spaces[space].owner != user && MemberKey(space, user) !in t.members)
          || (forall k :: !CopyIn(t, k, space, client, etype)))
    && (result == Err(NotYours) <==>
          && space in t.spaces && t.spaces[space].owner != user && MemberKey(space, user) in t.members
          && (exists k :: CopyIn(t, k, space, client, etype))
          && (forall k :: CopyIn(t, k, space, client, etype) ==> k.user != user))
  }

  lemma AnswersAsItShould(t: Tables, space: SpaceId, client: ClientId, etype: EntryType, user: UserId)
    ensures AnsweredAsItShould(t, space, client, etype, user, Answered(t, space, client, etype, user))
  {
    hide RecordedAuthor;
    var carriers := Carriers(t, space, client, etype);
    assert forall k :: k in carriers <==> CopyIn(t, k, space, client, etype);
    hide CopyIn, Carriers;
    if carriers != {} {
      var k :| k in carriers;
      assert CopyIn(t, k, space, client, etype);
    }
    if space in t.spaces {
      TargetsAreStripped(t, space, client, etype, user);
      hide Targets;
      if Targets(t, space, client, etype, user) != {} {
        var k :| k in Targets(t, space, client, etype, user);
        assert CopyIn(t, k, space, client, etype) && MayStrip(t, k, space, user);
      } else {
        forall k | CopyIn(t, k, space, client, etype)
          ensures !MayStrip(t, k, space, user)
        {
          assert k !in Targets(t, space, client, etype, user);
        }
      }
    }
  }

  method RemoveEntryFromSpace(
    db: Database, space: SpaceId, client: ClientId, etype: EntryType, user: UserId, now: int)
    returns (result: Result<UserId, Miss>)
    modifies db`entries, db`removals
    ensures result == Answered(old(db.View()), space, client, etype, user)
    ensures db.View() == TakenDown(old(db.View()), space, client, etype, user, now)
    ensures AnsweredAsItShould(old(db.View()), space, client, etype, user, result)
    ensures result.Err? ==> db.View() == old(db.View())
    ensures result.Ok? ==> TakeDownRows(
      old(db.View()), db.View(), space, client, etype, user, now, result.value)
  {
    var t := db.View();
    AnswersAsItShould(t, space, client, etype, user);
    hide AnsweredAsItShould;
    if space !in db.spaces {
      return Err(NotFound);
    }
    if db.spaces[space].owner != user && MemberKey(space, user) !in db.members {
      return Err(NotFound);
    }
    var matched := Carriers(t, space, client, etype);
    if matched == {} {
      return Err(NotFound);
    }
    if db.spaces[space].owner != user {
      matched := set k | k in matched && k.user == user;
    }
    assert matched == Targets(t, space, client, etype, user);
    if matched == {} {
      return Err(NotYours);
    }
    var author := RecordedAuthor(matched, user);
    TakingDownRows(t, space, client, etype, user, now);
    hide TakeDownRows, AllStripped;
    StripRows(db, matched, space, now);
    var _ := RecordSpaceRemovals(db, [space], client, etype, Removal(author, user, now));
    return Ok(author);
  }
}
