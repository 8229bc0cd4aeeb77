/** `put_settings` of src/settings/service.py: one blob an account, under compare-and-swap or last-write-wins. */
module Settings {
  import opened Wrappers
  import opened Tables

  datatype Stored = Stored(blob: string, updatedAt: int)

  datatype Put = Put(blob: string, updatedAt: int, base: Option<int>)

  datatype Winner = Client | Server

  datatype Answer = Answer(winner: Winner, stored: Stored)

  /** The upsert's own condition on the row it meets. */
  predicate WriteIf(stored: Stored, put: Put) {
    match put.base
    case None => stored.updatedAt <= put.updatedAt
    case Some(base) => stored.updatedAt == base && stored.updatedAt < put.updatedAt
  }

  predicate Takes(state: Option<Stored>, put: Put) {
    state.None? || WriteIf(state.value, put)
  }

  function After(state: Option<Stored>, put: Put): Option<Stored> {
    if Takes(state, put) then Some(Stored(put.blob, put.updatedAt)) else state
  }

  class SettingsStore {
    var rows: map<UserId, Stored>

    constructor ()
      ensures rows == map[]
    {
      rows := map[];
    }

    function Of(user: UserId): Option<Stored>
      reads this
    {
      if user in rows then Some(rows[user]) else None
    }

    /**
     * Whoever wins, the answer is what is stored, and no other account is touched.
     * The client wins on an empty store; over a stored blob, without a base, unless
     * that is newer; with one, if that is the base and older than the request.
     */
    method PutSettings(user: UserId, put: Put) returns (answer: Answer)
      modifies this
      ensures Of(user) == After(old(Of(user)), put) == Some(answer.stored)
      ensures answer.winner == Client <==> Takes(old(Of(user)), put)
      ensures user !in old(rows) ==> answer.winner == Client
      ensures user in old(rows) && put.base == None ==>
        (answer.winner == Client <==> old(rows)[user].updatedAt <= put.updatedAt)
      ensures user in old(rows) && put.base != None ==>
        (answer.winner == Client <==>
           put.base.value == old(rows)[user].updatedAt && old(rows)[user].updatedAt < put.updatedAt)
      ensures answer.winner == Client ==> rows == old(rows)[user := Stored(put.blob, put.updatedAt)]
      ensures answer.winner == Server ==> rows == old(rows)
      ensures user in rows && answer.stored == rows[user]
    {
      if user !in rows || WriteIf(rows[user], put) {
        rows := rows[user := Stored(put.blob, put.updatedAt)];
        return Answer(Client, Stored(put.blob, put.updatedAt));
      }
      return Answer(Server, rows[user]);
    }
  }

  // ── A history of PUTs from one account's devices ──────────────────────────

  function Play(state: Option<Stored>, puts: seq<Put>): Option<Stored> {
    if puts == [] then state else After(Play(state, puts[..|puts| - 1]), puts[|puts| - 1])
  }

  /** The PUTs the server took, in order. */
  function Taken(state: Option<Stored>, puts: seq<Put>): seq<Put> {
    if puts == [] then []
    else
      var before, last := puts[..|puts| - 1], puts[|puts| - 1];
      Taken(state, before) + if Takes(Play(state, before), last) then [last] else []
  }

  lemma NoPuts(state: Option<Stored>)
    ensures Play(state, []) == state && Taken(state, []) == []
  {
  }

  lemma OneMorePut(state: Option<Stored>, puts: seq<Put>, put: Put)
    ensures Play(state, puts + [put]) == After(Play(state, puts), put)
    ensures Taken(state, puts + [put]) == Taken(state, puts) + if Takes(Play(state, puts), put) then [put] else []
  {
    assert (puts + [put])[..|puts|] == puts;
  }

  predicate AllMerged(puts: seq<Put>) {
    forall i :: 0 <= i < |puts| ==> puts[i].base.Some?
  }

  /** The stored stamp never goes back, whatever the mix of PUTs. */
  lemma {:induction false} StampNeverGoesBack(state: Option<Stored>, puts: seq<Put>)
    requires state.Some?
    ensures Play(state, puts).Some? && state.value.updatedAt <= Play(state, puts).value.updatedAt
  {
    if puts == [] {
    } else {
      StampNeverGoesBack(state, puts[..|puts| - 1]);
    }
  }

  /** What is stored is the last PUT taken, or what was there at first. */
  lemma {:induction false} TheLastTakenIsStored(state: Option<Stored>, puts: seq<Put>)
    ensures var taken := Taken(state, puts);
      Play(state, puts) ==
        if taken == [] then state else Some(Stored(taken[|taken| - 1].blob, taken[|taken| - 1].updatedAt))
    ensures state.None? && puts != [] ==> Taken(state, puts) != []
  {
    if puts == [] {
    } else {
      TheLastTakenIsStored(state, puts[..|puts| - 1]);
    }
  }

  /** Each PUT taken was merged from the very one it replaced, and carries a later stamp. */
  ghost predicate Linear(state: Option<Stored>, taken: seq<Put>) {
    && (forall i :: 0 < i < |taken| ==>
          taken[i].base == Some(taken[i - 1].updatedAt) && taken[i - 1].updatedAt < taken[i].updatedAt)
    && (taken != [] && state.Some? ==>
          taken[0].base == Some(state.value.updatedAt) && state.value.updatedAt < taken[0].updatedAt)
  }

  lemma LineGrows(state: Option<Stored>, taken: seq<Put>, put: Put)
    requires Linear(state, taken) && put.base.Some?
    requires var stored := if taken == [] then state
             else Some(Stored(taken[|taken| - 1].blob, taken[|taken| - 1].updatedAt));
      Takes(stored, put)
    ensures Linear(state, taken + [put])
  {
    var longer := taken + [put];
    forall i | 0 < i < |longer|
      ensures longer[i].base == Some(longer[i - 1].updatedAt) && longer[i - 1].updatedAt < longer[i].updatedAt
    {
      if i < |taken| {
        assert taken[i].base == Some(taken[i - 1].updatedAt);
      }
    }
  }

  /**
   * When every PUT has a base, the versions taken form one
   * line: strictly increasing, each merged from the one before.
   */
  lemma {:induction false} MergedPutsFormALine(state: Option<Stored>, puts: seq<Put>)
    requires AllMerged(puts)
    ensures Linear(state, Taken(state, puts))
  {
    if puts == [] {
      assert Taken(state, puts) == [];
    } else {
      hide Linear, Takes;
      var n := |puts| - 1;
      assert AllMerged(puts[..n]) && puts[n].base.Some?;
      MergedPutsFormALine(state, puts[..n]);
      TheLastTakenIsStored(state, puts[..n]);
      if Takes(Play(state, puts[..n]), puts[n]) {
        LineGrows(state, Taken(state, puts[..n]), puts[n]);
      } else {
        assert Taken(state, puts) == Taken(state, puts[..n]);
      }
    }
  }

  lemma {:induction false} StampsIncrease(state: Option<Stored>, taken: seq<Put>, i: nat, j: nat)
    requires Linear(state, taken) && i < j < |taken|
    ensures taken[i].updatedAt < taken[j].updatedAt
    decreases j
  {
    if i < j - 1 {
      StampsIncrease(state, taken, i, j - 1);
    }
  }

  /** A stamp names one version: the blob a merged PUT replaced is the only one ever stored under its base. */
  lemma NoAcceptedChangeIsLost(state: Option<Stored>, puts: seq<Put>, i: nat, j: nat)
    requires AllMerged(puts)
    requires i < |Taken(state, puts)| && j < |Taken(state, puts)|
    requires Taken(state, puts)[j].base == Some(Taken(state, puts)[i].updatedAt)
    ensures j == i + 1 || (j == 0 && state.None?)
  {
    var taken := Taken(state, puts);
    MergedPutsFormALine(state, puts);
    if j > 0 {
      if i < j - 1 {
        StampsIncrease(state, taken, i, j - 1);
      } else if j - 1 < i {
        StampsIncrease(state, taken, j - 1, i);
      }
    } else if i > 0 {
      StampsIncrease(state, taken, 0, i);
    }
  }

  // ── Last write wins ───────────────────────────────────────────────────────

  /** The start, if there is one, and then what each PUT would store. */
  function Candidates(state: Option<Stored>, puts: seq<Put>): seq<Stored> {
    if puts == [] then
      (if state.Some? then [state.value] else [])
    else
      Candidates(state, puts[..|puts| - 1]) + [Stored(puts[|puts| - 1].blob, puts[|puts| - 1].updatedAt)]
  }

  /** `i` is the newest of them, and the last of those that are as new. */
  predicate LastNewest(all: seq<Stored>, i: nat) {
    && i < |all|
    && (forall j :: 0 <= j < |all| ==> all[j].updatedAt <= all[i].updatedAt)
    && (forall j :: i < j < |all| ==> all[j].updatedAt < all[i].updatedAt)
  }

  /** Without bases, what ends up stored is the newest of the start and the PUTs, and the last to arrive among the newest. */
  lemma {:induction false} TheLastNewestIsStored(state: Option<Stored>, puts: seq<Put>) returns (i: nat)
    requires forall j :: 0 <= j < |puts| ==> puts[j].base == None
    requires state.Some? || puts != []
    ensures LastNewest(Candidates(state, puts), i)
    ensures Play(state, puts) == Some(Candidates(state, puts)[i])
  {
    if puts == [] {
      i := 0;
    } else {
      var n := |puts| - 1;
      var before := Candidates(state, puts[..n]);
      var all := Candidates(state, puts);
      assert puts[n].base == None;
      if state.None? && n == 0 {
        assert before == [];
        assert Play(state, puts[..n]) == None;
        i := 0;
      } else {
        i := TheLastNewestIsStored(state, puts[..n]);
        assert forall j :: 0 <= j < |before| ==> all[j] == before[j];
        if before[i].updatedAt <= puts[n].updatedAt {
          i := |before|;
        }
      }
    }
  }

  // ── What blind PUTs can do ────────────────────────────────────────────────

  /** A PUT without a base that puts another blob under the stamp already stored. */
  predicate Hides(state: Option<Stored>, put: Put) {
    && state.Some? && put.base.None?
    && put.updatedAt == state.value.updatedAt && put.blob != state.value.blob
  }

  /** A PUT merged from the version stored after `m` PUTs would be taken after `n`. */
  predicate Replaces(state: Option<Stored>, puts: seq<Put>, m: nat, n: nat, put: Put)
    requires m <= n <= |puts|
  {
    && Play(state, puts[..m]).Some?
    && put.base == Some(Play(state, puts[..m]).value.updatedAt)
    && Takes(Play(state, puts[..n]), put)
  }

  lemma PlayedOn(state: Option<Stored>, puts: seq<Put>, n: nat)
    requires n < |puts|
    ensures Play(state, puts[..n + 1]) == After(Play(state, puts[..n]), puts[n])
  {
    assert puts[..n + 1][..n] == puts[..n];
  }

  lemma {:induction false} StampsRise(state: Option<Stored>, puts: seq<Put>, m: nat, n: nat)
    requires m <= n <= |puts| && Play(state, puts[..m]).Some?
    ensures Play(state, puts[..n]).Some?
    ensures Play(state, puts[..m]).value.updatedAt <= Play(state, puts[..n]).value.updatedAt
    decreases n
  {
    if n == m {
    } else {
      hide Play;
      StampsRise(state, puts, m, n - 1);
      PlayedOn(state, puts, n - 1);
    }
  }

  /** Without such a PUT, one stamp names one version. */
  lemma {:induction false} OneStampOneVersion(state: Option<Stored>, puts: seq<Put>, m: nat, n: nat)
    requires forall i :: 0 <= i < |puts| ==> !Hides(Play(state, puts[..i]), puts[i])
    requires m <= n <= |puts| && Play(state, puts[..m]).Some? && Play(state, puts[..n]).Some?
    requires Play(state, puts[..m]).value.updatedAt == Play(state, puts[..n]).value.updatedAt
    ensures Play(state, puts[..m]) == Play(state, puts[..n])
    decreases n
  {
    if n == m {
    } else {
      hide Play;
      StampsRise(state, puts, m, n - 1);
      PlayedOn(state, puts, n - 1);
      assert !Hides(Play(state, puts[..n - 1]), puts[n - 1]);
      OneStampOneVersion(state, puts, m, n - 1);
    }
  }

  /**
   * Over any history: whatever merged PUT is taken, it replaces the very version
   * it was merged from, if and only if no PUT without a base puts another blob
   * under the stamp it overwrites.
   */
  lemma MergesReplaceTheirBaseIff(state: Option<Stored>, puts: seq<Put>)
    ensures
      (forall m, n, put | 0 <= m <= n <= |puts| && Replaces(state, puts, m, n, put) ::
         Play(state, puts[..n]) == Play(state, puts[..m]))
      <==>
      (forall i :: 0 <= i < |puts| ==> !Hides(Play(state, puts[..i]), puts[i]))
  {
    hide Play;
    if forall i :: 0 <= i < |puts| ==> !Hides(Play(state, puts[..i]), puts[i]) {
      forall m, n, put | 0 <= m <= n <= |puts| && Replaces(state, puts, m, n, put)
        ensures Play(state, puts[..n]) == Play(state, puts[..m])
      {
        StampsRise(state, puts, m, n);
        OneStampOneVersion(state, puts, m, n);
      }
    } else {
      var i :| 0 <= i < |puts| && Hides(Play(state, puts[..i]), puts[i]);
      var seen := Play(state, puts[..i]).value;
      PlayedOn(state, puts, i);
      var merged := Put("", seen.updatedAt + 1, Some(seen.updatedAt));
      assert Replaces(state, puts, i, i + 1, merged);
      assert Play(state, puts[..i + 1]) != Play(state, puts[..i]);
    }
  }
}
