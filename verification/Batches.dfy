/** What a committed push tells its caller: one answer for each entry, and each withdrawal exactly. */
module Batches {
  import opened Wrappers
  import opened Tables
  import opened Push

  /** An answer names the entry it is for, and an accepted one names exactly the spaces its row lost. */
  ghost predicate TellsTheTruth(t: Tables, t': Tables, user: UserId, e: PushEntry, now: int, answer: Answer) {
    var k := KeyOf(user, e);
    match answer
    case ConflictEntry(client, _) => client == e.client && t' == t
    case AcceptedEntry(key, serverTs, dropped) =>
      && key == k && serverTs == now
      && k in t'.entries && t'.entries[k].serverTs == now
      && t'.entries == t.entries[k := t'.entries[k]]
      && (forall s :: s in dropped <==> s in SpacesOf(t, k) && s !in SpacesOf(t', k))
      && (forall s :: s in dropped ==>
            var rk := RemovalKey(s, e.client, e.etype);
            rk in t'.removals && t'.removals[rk] == Removal(user, user, now))
  }

  lemma UpsertTellsTheTruth(
    cfg: Config, t: Tables, room: Budget, user: UserId, device: DeviceId, e: PushEntry, now: int)
    requires Upsert(cfg, t, room, user, device, e, now).Took?
    ensures var step := Upsert(cfg, t, room, user, device, e, now);
      TellsTheTruth(t, step.t, user, e, now, step.answer)
  {
    hide Judge, Recorded, Release, Charge;
    RecordedAt(t.removals, Dropped(t, user, e), e.client, e.etype, Removal(user, user, now));
  }

  /** The states a committed batch passed through, with the answer each step gave. */
  ghost predicate Passes(
    user: UserId, entries: seq<PushEntry>, stamps: seq<int>, states: seq<Tables>, answers: seq<Answer>)
    requires |entries| == |stamps|
  {
    && |states| == |entries| + 1
    && |answers| == |entries|
    && forall i :: 0 <= i < |entries| ==>
      TellsTheTruth(states[i], states[i + 1], user, entries[i], stamps[i], answers[i])
  }

  /**
   * A committed batch answers every entry once, in order; what it reports as
   * withdrawn at each entry is what that entry's row lost there, and it is on record.
   */
  lemma {:induction false} EveryEntryIsAnswered(
    cfg: Config, t: Tables, room: Budget, user: UserId, device: DeviceId, entries: seq<PushEntry>, stamps: seq<int>)
    returns (states: seq<Tables>)
    requires |entries| == |stamps| && RunFrom(cfg, t, room, user, device, entries, stamps).Ran?
    ensures var end := RunFrom(cfg, t, room, user, device, entries, stamps);
      && Passes(user, entries, stamps, states, end.answers)
      && states[0] == t && states[|entries|] == end.t
    decreases entries
  {
    states := [t];
    if entries == [] {
    } else {
      hide Upsert, TellsTheTruth;
      var first := Upsert(cfg, t, room, user, device, entries[0], stamps[0]);
      UpsertTellsTheTruth(cfg, t, room, user, device, entries[0], stamps[0]);
      var rest := EveryEntryIsAnswered(cfg, first.t, first.room, user, device, entries[1..], stamps[1..]);
      states := [t] + rest;
    }
  }

  // ── The lists that are returned ───────────────────────────────────────────

  /** Positions below `n`, in order. */
  ghost predicate Positions(at: seq<nat>, n: nat) {
    && (forall i :: 0 <= i < |at| ==> at[i] < n)
    && (forall i, j :: 0 <= i < j < |at| ==> at[i] < at[j])
  }

  predicate Withdraws(a: Answer) {
    a.AcceptedEntry? && a.dropped != []
  }

  /** `list` is what `show` makes of the answers at the positions `at`, and of no other. */
  ghost predicate Reports<T(!new)>(answers: seq<Answer>, at: seq<nat>, list: seq<T>, show: Answer -> Option<T>) {
    && Positions(at, |answers|) && |at| == |list|
    && (forall i: nat :: i in at <==> i < |answers| && show(answers[i]).Some?)
    && (forall j :: 0 <= j < |at| ==> show(answers[at[j]]) == Some(list[j]))
  }

  function IfAccepted(a: Answer): Option<Answer> {
    if a.AcceptedEntry? then Some(a) else None
  }

  function IfConflict(a: Answer): Option<Answer> {
    if a.ConflictEntry? then Some(a) else None
  }

  function IfWithdrawn(a: Answer): Option<Withdrawal> {
    if Withdraws(a) then Some(Withdrawal(a.key.client, a.key.etype, a.dropped)) else None
  }

  lemma OneMoreReported<T(!new)>(
    answers: seq<Answer>, a: Answer, at: seq<nat>, list: seq<T>, show: Answer -> Option<T>)
    requires Reports(answers, at, list, show) && show(a).Some?
    ensures Reports(answers + [a], at + [|answers|], list + [show(a).value], show)
  {
    var n, longer, more := |answers|, answers + [a], at + [|answers|];
    assert forall i :: 0 <= i < n ==> longer[i] == answers[i];
    assert forall i: nat :: i in more <==> i in at || i == n;
    forall j | 0 <= j < |more|
      ensures show(longer[more[j]]) == Some((list + [show(a).value])[j])
    {
      if j < |at| {
        assert more[j] == at[j] && at[j] in at;
      }
    }
  }

  lemma OneMoreUnreported<T(!new)>(
    answers: seq<Answer>, a: Answer, at: seq<nat>, list: seq<T>, show: Answer -> Option<T>)
    requires Reports(answers, at, list, show) && show(a).None?
    ensures Reports(answers + [a], at, list, show)
  {
    var n, longer := |answers|, answers + [a];
    assert forall i :: 0 <= i < n ==> longer[i] == answers[i];
    forall j | 0 <= j < |at|
      ensures show(longer[at[j]]) == Some(list[j])
    {
      assert at[j] in at;
    }
  }

  /** The three returned lists, each with the positions of the entries it reports. */
  lemma {:induction false} ListsReport(answers: seq<Answer>)
    returns (accepted: seq<nat>, conflicts: seq<nat>, withdrawn: seq<nat>)
    ensures Reports(answers, accepted, AcceptedIn(answers), IfAccepted)
    ensures Reports(answers, conflicts, ConflictsIn(answers), IfConflict)
    ensures Reports(answers, withdrawn, WithdrawalsIn(answers), IfWithdrawn)
  {
    if answers == [] {
      accepted, conflicts, withdrawn := [], [], [];
    } else {
      hide Reports, AcceptedIn, ConflictsIn, WithdrawalsIn;
      var n := |answers| - 1;
      var before, a := answers[..n], answers[n];
      accepted, conflicts, withdrawn := ListsReport(before);
      assert before + [a] == answers;
      OneMoreAnswer(before, a);
      accepted := ListGrows(before, a, accepted, AcceptedIn(before), IfAccepted);
      conflicts := ListGrows(before, a, conflicts, ConflictsIn(before), IfConflict);
      withdrawn := ListGrows(before, a, withdrawn, WithdrawalsIn(before), IfWithdrawn);
    }
  }

  lemma ListGrows<T(!new)>(
    answers: seq<Answer>, a: Answer, at: seq<nat>, list: seq<T>, show: Answer -> Option<T>) returns (more: seq<nat>)
    requires Reports(answers, at, list, show)
    ensures Reports(answers + [a], more, list + (if show(a).Some? then [show(a).value] else []), show)
  {
    hide Reports;
    if show(a).Some? {
      more := at + [|answers|];
      OneMoreReported(answers, a, at, list, show);
    } else {
      more := at;
      assert list + [] == list;
      OneMoreUnreported(answers, a, at, list, show);
    }
  }

  lemma {:induction false} EveryAnswerIsReported(answers: seq<Answer>)
    ensures |AcceptedIn(answers)| + |ConflictsIn(answers)| == |answers|
  {
    if answers == [] {
    } else {
      EveryAnswerIsReported(answers[..|answers| - 1]);
    }
  }

  /** The row of entry `i` lost the space when the batch came to it. */
  predicate LosesAt(user: UserId, entries: seq<PushEntry>, states: seq<Tables>, i: nat, s: SpaceId)
    requires i < |entries| && |states| == |entries| + 1
  {
    var k := KeyOf(user, entries[i]);
    s in SpacesOf(states[i], k) && s !in SpacesOf(states[i + 1], k)
  }

  /**
   * What a committed push returns: each entry is accepted or a conflict and never
   * both, each list is in the order of the entries, and the withdrawals name, for
   * exactly the entries whose rows lost a space, exactly the spaces lost.
   */
  lemma WhatAPushReturns(
    cfg: Config, t: Tables, user: UserId, device: DeviceId, entries: seq<PushEntry>, stamps: seq<int>)
    returns (states: seq<Tables>, accepted: seq<nat>, conflicts: seq<nat>, withdrawn: seq<nat>)
    requires |entries| == |stamps| && RunBatch(cfg, t, user, device, entries, stamps).Ran?
    ensures var answers := RunBatch(cfg, t, user, device, entries, stamps).answers;
      && Passes(user, entries, stamps, states, answers) && states[0] == t
      && Reports(answers, accepted, AcceptedIn(answers), IfAccepted)
      && Reports(answers, conflicts, ConflictsIn(answers), IfConflict)
      && Reports(answers, withdrawn, WithdrawalsIn(answers), IfWithdrawn)
      && |AcceptedIn(answers)| + |ConflictsIn(answers)| == |entries|
      && (forall i: nat :: i < |entries| ==> (i in accepted <==> i !in conflicts))
      && (forall j :: 0 <= j < |accepted| ==> AcceptedIn(answers)[j].key == KeyOf(user, entries[accepted[j]]))
      && (forall j :: 0 <= j < |conflicts| ==> ConflictsIn(answers)[j].client == entries[conflicts[j]].client)
      && (forall j :: 0 <= j < |withdrawn| ==>
            && WithdrawalsIn(answers)[j].client == entries[withdrawn[j]].client
            && WithdrawalsIn(answers)[j].etype == entries[withdrawn[j]].etype
            && forall s :: s in WithdrawalsIn(answers)[j].spaceIds <==>
                 LosesAt(user, entries, states, withdrawn[j], s))
      && (forall i: nat, s :: i < |entries| && LosesAt(user, entries, states, i, s) ==> i in withdrawn)
  {
    hide RunFrom, OpeningBudget, AcceptedIn, ConflictsIn, WithdrawalsIn;
    states := EveryEntryIsAnswered(cfg, t, OpeningBudget(cfg, t, user), user, device, entries, stamps);
    var answers := RunBatch(cfg, t, user, device, entries, stamps).answers;
    accepted, conflicts, withdrawn := ListsReport(answers);
    EveryAnswerIsReported(answers);
    forall i: nat | i < |entries|
      ensures AnsweredAt(user, entries, states, answers[i], i)
    {
      assert TellsTheTruth(states[i], states[i + 1], user, entries[i], stamps[i], answers[i]);
    }
    hide Passes;
    forall j | 0 <= j < |withdrawn|
      ensures AnsweredAt(user, entries, states, answers[withdrawn[j]], withdrawn[j])
    {
    }
    forall i: nat, s | i < |entries| && LosesAt(user, entries, states, i, s)
      ensures i in withdrawn
    {
      assert AnsweredAt(user, entries, states, answers[i], i);
    }
  }

  /** The answer is about entry `i`, and names the spaces its row lost there. */
  predicate AnsweredAt(user: UserId, entries: seq<PushEntry>, states: seq<Tables>, a: Answer, i: nat)
    requires i < |entries| && |states| == |entries| + 1
  {
    match a
    case ConflictEntry(client, _) => client == entries[i].client && states[i + 1] == states[i]
    case AcceptedEntry(key, _, dropped) =>
      && key == KeyOf(user, entries[i])
      && (forall s :: s in dropped ==> LosesAt(user, entries, states, i, s))
      && (forall s :: s in SpacesOf(states[i], key) && LosesAt(user, entries, states, i, s) ==> s in dropped)
  }

  // ── A row that names a space twice ────────────────────────────────────────

  /** The row carries a space twice that the push leaves out. */
  predicate DropsATwin(t: Tables, user: UserId, e: PushEntry) {
    var spaces := SpacesOf(t, KeyOf(user, e));
    exists i, j :: 0 <= i < j < |spaces| && spaces[i] == spaces[j] && spaces[i] !in e.spaceIds
  }

  /** No space of the list that `kept` leaves out is named twice. */
  ghost predicate Apart(spaces: seq<SpaceId>, kept: seq<SpaceId>) {
    forall i, j :: 0 <= i < j < |spaces| && spaces[i] !in kept ==> spaces[i] != spaces[j]
  }

  lemma {:induction false} FilteredTwinsIff(spaces: seq<SpaceId>, kept: seq<SpaceId>)
    ensures Distinct(Without(spaces, kept)) <==> Apart(spaces, kept)
  {
    if spaces == [] {
    } else {
      hide Distinct, Apart;
      var head, tail := spaces[0], spaces[1..];
      FilteredTwinsIff(tail, kept);
      if head !in kept && head in tail {
        HeadHasATwin(spaces, kept);
      } else {
        TwinsBelow(spaces, kept);
        if head !in kept {
          HeadApart(head, Without(tail, kept));
        }
      }
    }
  }

  lemma HeadHasATwin(spaces: seq<SpaceId>, kept: seq<SpaceId>)
    requires spaces != [] && spaces[0] !in kept && spaces[0] in spaces[1..]
    ensures !Apart(spaces, kept) && !Distinct(Without(spaces, kept))
  {
    var rest := Without(spaces[1..], kept);
    var j :| 0 <= j < |spaces[1..]| && spaces[1..][j] == spaces[0];
    assert spaces[0] == spaces[j + 1];
    var m :| 0 <= m < |rest| && rest[m] == spaces[0];
    assert Without(spaces, kept) == [spaces[0]] + rest;
    assert Without(spaces, kept)[0] == Without(spaces, kept)[m + 1];
  }

  lemma HeadApart(x: SpaceId, rest: seq<SpaceId>)
    requires x !in rest
    ensures Distinct([x] + rest) <==> Distinct(rest)
  {
    if Distinct([x] + rest) {
      forall i, j | 0 <= i < j < |rest|
        ensures rest[i] != rest[j]
      {
        assert ([x] + rest)[i + 1] != ([x] + rest)[j + 1];
      }
    }
  }

  lemma TwinsBelow(spaces: seq<SpaceId>, kept: seq<SpaceId>)
    requires spaces != [] && (spaces[0] in kept || spaces[0] !in spaces[1..])
    ensures Apart(spaces, kept) <==> Apart(spaces[1..], kept)
  {
    var tail := spaces[1..];
    if Apart(spaces, kept) {
      forall i, j | 0 <= i < j < |tail| && tail[i] !in kept
        ensures tail[i] != tail[j]
      {
        assert spaces[i + 1] != spaces[j + 1];
      }
    }
    if Apart(tail, kept) {
      forall i, j | 0 <= i < j < |spaces| && spaces[i] !in kept
        ensures spaces[i] != spaces[j]
      {
        assert spaces[j] == tail[j - 1];
        if i > 0 {
          assert spaces[i] == tail[i - 1];
        }
      }
    }
  }

  /**
   * A push that nothing else stops fails as a whole exactly when it takes its row
   * out of a space the row names twice: two records for one key in one upsert.
   */
  lemma TwinsBlockUnsharingIff(cfg: Config, t: Tables, room: Budget, user: UserId, e: PushEntry)
    requires KeyOf(user, e) in t.entries
    requires Judge(cfg, t, room, user, e) in {Updates, Refused(RemovalNamedTwice)}
    ensures Judge(cfg, t, room, user, e).Refused? <==> DropsATwin(t, user, e)
  {
    hide TooLarge, MemberOfAll, NamesNewBlob, OwnsConfirmed, HasRival, Added, Without;
    var spaces := SpacesOf(t, KeyOf(user, e));
    FilteredTwinsIff(spaces, e.spaceIds);
    assert DropsATwin(t, user, e) <==> !AllDistinct(Without(spaces, e.spaceIds)) by {
      hide Judge;
    }
  }

  /**
   * The way out takes two pushes: one that names every space of the row, each
   * once, drops no twin; after it no push does.
   */
  lemma NamingOnceUnblocks(
    t: Tables, user: UserId, device: DeviceId, once: PushEntry, now: int, e: PushEntry)
    requires KeyOf(user, e) == KeyOf(user, once) && Distinct(once.spaceIds)
    ensures (forall s :: s in SpacesOf(t, KeyOf(user, once)) ==> s in once.spaceIds) ==> !DropsATwin(t, user, once)
    ensures !DropsATwin(WriteRow(t, user, device, once, now), user, e)
  {
    hide Recorded, Release, Superseded;
    assert SpacesOf(WriteRow(t, user, device, once, now), KeyOf(user, e)) == once.spaceIds;
  }
}
