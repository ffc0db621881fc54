/** The archive-import queue: jobs over staged uploads, drained by workers that claim, beat and land.
    Reading the clock, the owner's account, the storage and the importer are the environment. */
module ArchiveJobs {
  import opened Basics
  import opened ClaimQueue

  const STALE_RUNNING_AFTER := 30 * 60 * 1000
  const MAX_ATTEMPTS := 3
  const MAX_UPLOAD_BYTES := 4 * 1024 * 1024 * 1024
  const PARAMS := Params(STALE_RUNNING_AFTER, MAX_ATTEMPTS)

  type UserId = nat

  datatype Counts = Counts(created: nat, updated: nat, skipped: nat, failed: nat)

  datatype Job = Job(owner: UserId, zipKey: string, counts: Counts, error: Option<string>, finishedAt: Option<int>)

  datatype Account = Account(deleted: bool, active: bool, linked: bool)

  datatype Backfill = Imported(counts: Counts) | Raised(error: string)

  datatype Mail = NoMail | FailedMail | CompleteMail

  const NONE_YET := Counts(0, 0, 0, 0)

  function NewJob(owner: UserId, zipKey: string, now: int): Row<Job> {
    Row(Queued, 0, 0, now, Job(owner, zipKey, NONE_YET, None, None))
  }

  /** A job brought to its end: its error, or none and the import's counts. */
  function Ended(row: Row<Job>, error: Option<string>, counts: Counts, now: int): Row<Job> {
    row.(status := if error.None? then Done else Failed,
         data := Job(row.data.owner, row.data.zipKey, if error.None? then counts else row.data.counts, error,
                     Some(now)))
  }

  /** A job ends done exactly when it ends without an error, and only then takes the counts. */
  lemma EndedRow(row: Row<Job>, error: Option<string>, counts: Counts, now: int)
    ensures var end := Ended(row, error, counts, now);
            && (end.status.Done? <==> error.None?) && (end.status.Failed? <==> error.Some?)
            && end.attempts == row.attempts && end.stamp == row.stamp && end.created == row.created
            && end.data.owner == row.data.owner && end.data.zipKey == row.data.zipKey
            && end.data.error == error && end.data.finishedAt == Some(now)
            && end.data.counts == if error.None? then counts else row.data.counts
  {
  }

  /** A failure is mailed to an owner whose account is still there. */
  predicate Mailed(accounts: map<UserId, Account>, owner: UserId) {
    owner in accounts && !accounts[owner].deleted
  }

  /** One staged object backs at most one job. */
  ghost predicate OneKeyOneJob(rows: map<Id, Row<Job>>) {
    forall i, j :: i in rows && j in rows && i != j ==> rows[i].data.zipKey != rows[j].data.zipKey
  }

  predicate KeyFree(rows: map<Id, Row<Job>>, zipKey: string) {
    forall j :: j in rows ==> rows[j].data.zipKey != zipKey
  }

  /** A burial is a failure for the spent budget, whatever was deleted with it. */
  ghost predicate SweptJobs(was: map<Id, Row<Job>>, rows: map<Id, Row<Job>>, since: int, now: int) {
    && Swept(was, rows, now, PARAMS)
    && forall id :: id in rows ==> rows[id] == was[id] || SpentBy(was[id], rows[id], since, now)
  }

  predicate SpentBy(was: Row<Job>, row: Row<Job>, since: int, now: int) {
    && row.data.finishedAt.Some? && since <= row.data.finishedAt.value <= now
    && row == Buried(was, row.data.finishedAt.value)
  }

  /** The buried jobs whose owners are told. */
  function Told(accounts: map<UserId, Account>, was: map<Id, Row<Job>>, rows: map<Id, Row<Job>>): set<Id>
    requires was.Keys == rows.Keys
  {
    set id | id in BuriedIds(was, rows) && Mailed(accounts, was[id].data.owner)
  }

  /** A burial fails its job for the spent budget; it was claimable with its attempts spent, and its owner is told
      if their account is still there. */
  lemma BuriedExactly(accounts: map<UserId, Account>, was: map<Id, Row<Job>>, rows: map<Id, Row<Job>>, since: int,
                      now: int, id: Id)
    requires SweptJobs(was, rows, since, now) && id in rows && rows[id] != was[id]
    ensures rows[id].status.Failed? && rows[id].data.error == Some("attempt budget spent")
    ensures rows[id].data.counts == was[id].data.counts && rows[id].data.zipKey == was[id].data.zipKey
    ensures !Terminal(was[id].status) && was[id].attempts >= 3 && was[id].attempts == rows[id].attempts
    ensures id in Told(accounts, was, rows)
            <==> was[id].data.owner in accounts && !accounts[was[id].data.owner].deleted
  {
  }

  /** The claim loop so far: the burials since `was`, the owners told, and the objects gone from storage,
      each a buried job's. */
  ghost predicate Sweeping(was: map<Id, Row<Job>>, rows: map<Id, Row<Job>>, accounts: map<UserId, Account>,
                           mailed: set<Id>, before: set<string>, staged: set<string>, since: int, now: int) {
    && SweptJobs(was, rows, since, now) && mailed == Told(accounts, was, rows)
    && staged <= before && Accounted(before, staged, was, rows)
    && TotalLeft(rows, PARAMS) <= TotalLeft(was, PARAMS)
  }

  lemma SweepingLater(was: map<Id, Row<Job>>, rows: map<Id, Row<Job>>, accounts: map<UserId, Account>, mailed: set<Id>,
                      before: set<string>, staged: set<string>, since: int, now: int, later: int)
    requires Sweeping(was, rows, accounts, mailed, before, staged, since, now) && now <= later
    ensures Sweeping(was, rows, accounts, mailed, before, staged, since, later)
  {
  }

  function Buried(row: Row<Job>, now: int): Row<Job> {
    Ended(row, Some("attempt budget spent"), row.data.counts, now)
  }

  /** One more burial, with its mail and its object. */
  lemma BuryJob(was: map<Id, Row<Job>>, rows: map<Id, Row<Job>>, accounts: map<UserId, Account>, mailed: set<Id>,
                before: set<string>, held: set<string>, staged: set<string>, id: Id, since: int, now: int)
    requires Sweeping(was, rows, accounts, mailed, before, held, since, now) && since <= now
    requires id in rows && Claimable(rows[id], now, PARAMS) && rows[id].attempts >= MAX_ATTEMPTS
    requires held - {rows[id].data.zipKey} <= staged <= held
    ensures Sweeping(was, rows[id := Buried(rows[id], now)], accounts,
                     mailed + if Mailed(accounts, rows[id].data.owner) then {id} else {}, before, staged, since, now)
    ensures TotalLeft(rows[id := Buried(rows[id], now)], PARAMS) == TotalLeft(rows, PARAMS) - 1
  {
    var buried := rows[id := Buried(rows[id], now)];
    SweepMore(was, rows, id, Buried(rows[id], now), now, PARAMS);
    AccountMore(before, held, staged, was, rows, id, buried[id]);
    assert Told(accounts, was, buried)
        == Told(accounts, was, rows) + if Mailed(accounts, rows[id].data.owner) then {id} else {};
  }

  class ArchiveQueue {
    var rows: map<Id, Row<Job>>
    var staged: set<string>
    var clock: int

    ghost predicate Valid()
      reads this
    {
      forall id :: id in rows ==> rows[id].attempts <= MAX_ATTEMPTS
    }

    method ReadClock() returns (now: int)
      modifies this`clock
      ensures now == clock >= old(clock)
    {
      now :| now >= clock;
      clock := now;
    }

    /** Whether no job holds the key, as the enqueue reads it first. */
    method KeyIsFree(zipKey: string) returns (free: bool)
      ensures free <==> KeyFree(rows, zipKey)
    {
      free := !exists j :: j in rows && rows[j].data.zipKey == zipKey;
    }

    /** Insert the queued row, as the enqueue does once its read found the key free. Nothing holds the table
        in between. */
    method Insert(id: Id, owner: UserId, zipKey: string)
      requires Valid() && id !in rows
      modifies this`rows, this`clock
      ensures Valid() && clock >= old(clock) && rows == old(rows)[id := NewJob(owner, zipKey, clock)]
    {
      var now := ReadClock();
      rows := rows[id := NewJob(owner, zipKey, now)];
    }

    /** An enqueue whose read and insert no other session comes between. */
    method Enqueue(id: Id, owner: UserId, zipKey: string) returns (accepted: bool)
      requires Valid() && id !in rows
      modifies this`rows, this`clock
      ensures Valid() && clock >= old(clock) && (accepted <==> KeyFree(old(rows), zipKey))
      ensures OneKeyOneJob(old(rows)) ==> OneKeyOneJob(rows)
      ensures rows == if accepted then old(rows)[id := NewJob(owner, zipKey, clock)] else old(rows)
    {
      accepted := KeyIsFree(zipKey);
      if accepted {
        Insert(id, owner, zipKey);
      }
    }

    /** Land a row and delete its staged object, best effort. */
    method Finish(id: Id, error: Option<string>, counts: Counts)
      requires Valid() && id in rows
      modifies this`rows, this`staged, this`clock
      ensures Valid() && clock >= old(clock)
      ensures rows == old(rows)[id := Ended(old(rows)[id], error, counts, clock)]
      ensures rows[id].status == (if error.None? then Done else Failed) && rows[id].data.error == error
      ensures old(staged) - {old(rows)[id].data.zipKey} <= staged <= old(staged)
    {
      var now := ReadClock();
      rows := rows[id := Ended(rows[id], error, counts, now)];
      var deleted: bool := *;
      if deleted {
        staged := staged - {rows[id].data.zipKey};
      }
    }

    /** Claim the oldest runnable job, burying on the way every older one whose attempts are spent:
        `swept` is the table after the burials, and `mailed` the buried jobs whose owner is told. What is
        deleted from storage belongs to buried jobs; when nothing is claimed, nothing claimable is left. */
    method ClaimNext(accounts: map<UserId, Account>)
      returns (claimed: Option<Id>, mailed: set<Id>, ghost swept: map<Id, Row<Job>>)
      requires Valid()
      modifies this`rows, this`staged, this`clock
      ensures Valid() && clock >= old(clock) && SweptJobs(old(rows), swept, old(clock), clock)
      ensures claimed.None? ==> rows == swept && NoneClaimable(rows, clock, PARAMS)
      ensures claimed.Some? ==>
                && Oldest(swept, claimed.value, clock, PARAMS)
                && swept[claimed.value] == old(rows)[claimed.value] && swept[claimed.value].attempts < MAX_ATTEMPTS
                && rows == swept[claimed.value := Claimed(swept[claimed.value], clock)]
      ensures mailed == Told(accounts, old(rows), swept)
      ensures staged <= old(staged) && Accounted(old(staged), staged, old(rows), swept)
      ensures TotalLeft(swept, PARAMS) <= TotalLeft(old(rows), PARAMS)
    {
      mailed := {};
      while true
        invariant Valid() && clock >= old(clock)
        invariant Sweeping(old(rows), rows, accounts, mailed, old(staged), staged, old(clock), clock)
        decreases TotalLeft(rows, PARAMS)
      {
        TotalNonNegative(rows, PARAMS);
        swept := rows;
        ghost var before, held := clock, staged;
        var now := ReadClock();
        SweepingLater(old(rows), rows, accounts, mailed, old(staged), staged, old(clock), before, clock);
        var found := FirstClaimable(rows, now, PARAMS);
        if found.None? {
          return None, mailed, swept;
        }
        var id := found.value;
        if rows[id].attempts < MAX_ATTEMPTS {
          rows := rows[id := Claimed(rows[id], now)];
          return Some(id), mailed, swept;
        }
        Finish(id, Some("attempt budget spent"), rows[id].data.counts);
        SweepingLater(old(rows), swept, accounts, mailed, old(staged), held, old(clock), now, clock);
        BuryJob(old(rows), swept, accounts, mailed, old(staged), held, staged, id, old(clock), clock);
        if Mailed(accounts, rows[id].data.owner) {
          mailed := mailed + {id};
        }
      }
    }

    /** The heartbeat thread's re-stamp: the job's clock alone, whatever its status. */
    method Beat(id: Id)
      requires Valid()
      modifies this`rows, this`clock
      ensures Valid() && clock >= old(clock)
      ensures rows == if id in old(rows) then old(rows)[id := old(rows)[id].(stamp := clock)] else old(rows)
    {
      var now := ReadClock();
      if id in rows {
        rows := rows[id := rows[id].(stamp := now)];
      }
    }

    /** The beats that land while an import runs. */
    method Beats(id: Id)
      requires Valid() && id in rows
      modifies this`rows, this`clock
      ensures Valid() && clock >= old(clock)
      ensures id in rows && rows == old(rows)[id := old(rows)[id].(stamp := rows[id].stamp)]
      ensures rows[id] == old(rows)[id] || old(clock) <= rows[id].stamp <= clock
    {
      var left: nat := *;
      while left > 0
        invariant Valid() && clock >= old(clock)
        invariant id in rows && rows == old(rows)[id := old(rows)[id].(stamp := rows[id].stamp)]
        invariant rows[id] == old(rows)[id] || old(clock) <= rows[id].stamp <= clock
      {
        Beat(id);
        left := left - 1;
      }
    }

    /** Run one claimed job to a terminal state. The first refusal lands it; an import beats while it runs. */
    method Process(id: Id, account: Option<Account>, size: Option<nat>, backfill: Backfill)
      returns (mail: Mail, raised: bool)
      requires Valid() && id in rows
      modifies this`rows, this`staged, this`clock
      ensures Valid() && clock >= old(clock)
      ensures id in rows
      ensures rows == old(rows)[id := Ended(old(rows)[id].(stamp := rows[id].stamp), Refusal(account, size, backfill),
                                                          CountsOf(backfill), clock)]
      ensures rows[id].status == if Imports(account, size) && backfill.Imported? then Done else Failed
      ensures rows[id].data.counts
              == if Imports(account, size) && backfill.Imported? then backfill.counts else old(rows)[id].data.counts
      ensures rows[id].data.error.None? <==> Imports(account, size) && backfill.Imported?
      ensures rows[id].stamp == old(rows)[id].stamp || (Imports(account, size) && old(clock) <= rows[id].stamp <= clock)
      ensures old(staged) - {old(rows)[id].data.zipKey} <= staged <= old(staged)
      ensures mail == if !Works(account) then NoMail
                      else if Refusal(account, size, backfill).None? then CompleteMail else FailedMail
      ensures raised <==> Imports(account, size) && backfill.Raised?
    {
      raised := false;
      if account.None? || account.value.deleted || !account.value.active {
        Finish(id, Some("owner gone"), NONE_YET);
        return NoMail, false;
      }
      if !account.value.linked {
        Finish(id, Some("owner has no linked X handle"), NONE_YET);
        return FailedMail, false;
      }
      if size.None? {
        Finish(id, Some("staged object missing"), NONE_YET);
        return FailedMail, false;
      }
      if size.value > MAX_UPLOAD_BYTES {
        Finish(id, Some("staged object oversized"), NONE_YET);
        return FailedMail, false;
      }
      Beats(id);
      match backfill
      case Raised(error) =>
        Finish(id, Some(error), NONE_YET);
        return FailedMail, true;
      case Imported(counts) =>
        Finish(id, None, counts);
        return CompleteMail, false;
    }

    /** One turn of the drain: claim a job and run it to a terminal state; false when none is left. */
    method DrainOne(accounts: map<UserId, Account>) returns (handled: bool)
      requires Valid()
      modifies this`rows, this`staged, this`clock
      ensures Valid() && clock >= old(clock) && Drained(old(rows), rows)
      ensures !handled ==> NoneClaimable(rows, clock, PARAMS)
      ensures TotalLeft(rows, PARAMS) + (if handled then 1 else 0) <= TotalLeft(old(rows), PARAMS)
    {
      var claimed, _, swept := ClaimNext(accounts);
      if claimed.None? {
        return false;
      }
      var id := claimed.value;
      ghost var claimedAt := clock;
      var owner := rows[id].data.owner;
      var account: Option<Account> := if owner in accounts then Some(accounts[owner]) else None;
      var size: Option<nat> := *;
      var backfill: Backfill := *;
      var _, _ := Process(id, account, size, backfill);
      assert rows == swept[id := rows[id]];
      JobLanded(old(rows), old(rows), swept, id, rows[id], claimedAt, PARAMS);
      return true;
    }

    /** Drain the queue. It ends: each claim spends one of the attempts left. What was claimable ends
        terminal, and what was terminal is untouched. */
    method RunOnce() returns (handled: nat)
      requires Valid()
      modifies this`rows, this`staged, this`clock
      ensures Valid() && clock >= old(clock)
      ensures NoneClaimable(rows, clock, PARAMS) && Drained(old(rows), rows)
      ensures forall id :: id in rows && Claimable(old(rows)[id], old(clock), PARAMS) ==> Terminal(rows[id].status)
      ensures handled + TotalLeft(rows, PARAMS) <= TotalLeft(old(rows), PARAMS)
    {
      handled := 0;
      while true
        invariant Valid() && clock >= old(clock) && Drained(old(rows), rows)
        invariant handled + TotalLeft(rows, PARAMS) <= TotalLeft(old(rows), PARAMS)
        decreases TotalLeft(rows, PARAMS)
      {
        TotalNonNegative(rows, PARAMS);
        ghost var was := rows;
        var accounts: map<UserId, Account> := *;
        var more := DrainOne(accounts);
        DrainBoth(old(rows), was, rows);
        if !more {
          AllTaken(old(rows), rows, old(clock), clock, PARAMS);
          return;
        }
        handled := handled + 1;
      }
    }
  }

  /** `key` is the object of a job buried since `was`. */
  ghost predicate BuriedKey(was: map<Id, Row<Job>>, rows: map<Id, Row<Job>>, key: string) {
    exists id :: id in was && id in rows && was[id].attempts >= MAX_ATTEMPTS && rows[id].data.zipKey == key
                 && !Terminal(was[id].status) && rows[id].status.Failed?
  }

  /** Every object gone from storage since `before` is a buried job's. */
  ghost predicate Accounted(before: set<string>, staged: set<string>, was: map<Id, Row<Job>>, rows: map<Id, Row<Job>>) {
    forall key :: key in before && key !in staged ==> BuriedKey(was, rows, key)
  }

  lemma AccountMore(before: set<string>, held: set<string>, staged: set<string>, was: map<Id, Row<Job>>,
                    rows: map<Id, Row<Job>>, id: Id, row: Row<Job>)
    requires Accounted(before, held, was, rows) && held - {row.data.zipKey} <= staged
    requires id in rows && id in was && rows[id] == was[id] && !Terminal(was[id].status)
    requires was[id].attempts >= MAX_ATTEMPTS && row.status.Failed?
    ensures Accounted(before, staged, was, rows[id := row])
  {
  }

  predicate Works(account: Option<Account>) {
    account.Some? && !account.value.deleted && account.value.active
  }

  /** Whether the job gets as far as the import. */
  predicate Imports(account: Option<Account>, size: Option<nat>) {
    Works(account) && account.value.linked && size.Some? && size.value <= MAX_UPLOAD_BYTES
  }

  /** Why a job fails, if it does: the checks before the import in order, then its own error. */
  function Refusal(account: Option<Account>, size: Option<nat>, backfill: Backfill): Option<string> {
    if !Works(account) then Some("owner gone")
    else if !account.value.linked then Some("owner has no linked X handle")
    else if size.None? then Some("staged object missing")
    else if size.value > MAX_UPLOAD_BYTES then Some("staged object oversized")
    else if backfill.Raised? then Some(backfill.error)
    else None
  }

  /** Which job imports, and why each other one fails, the first reason counting. */
  lemma WhyJobsFail(account: Option<Account>, size: Option<nat>, backfill: Backfill)
    ensures var gone := account.None? || account.value.deleted || !account.value.active;
            var unlinked := !gone && !account.value.linked;
            var missing := !gone && !unlinked && size.None?;
            var oversized := !gone && !unlinked && !missing && size.value > 4 * 1024 * 1024 * 1024;
            var imports := !gone && !unlinked && !missing && !oversized;
            && (Works(account) <==> !gone) && (Imports(account, size) <==> imports)
            && (Refusal(account, size, backfill).None? <==> imports && backfill.Imported?)
            && (gone ==> Refusal(account, size, backfill) == Some("owner gone"))
            && (unlinked ==> Refusal(account, size, backfill) == Some("owner has no linked X handle"))
            && (missing ==> Refusal(account, size, backfill) == Some("staged object missing"))
            && (oversized ==> Refusal(account, size, backfill) == Some("staged object oversized"))
            && (imports && backfill.Raised? ==> Refusal(account, size, backfill) == Some(backfill.error))
            && (imports && backfill.Imported? ==> CountsOf(backfill) == backfill.counts)
  {
  }

  function CountsOf(backfill: Backfill): Counts {
    if backfill.Imported? then backfill.counts else NONE_YET
  }

  // ---- What the methods do, as events of the protocol

  /** The queue's own events: an enqueue's insert, a burial for the spent budget, and a landing that ends the
      job as `Finish` does. */
  ghost predicate Honest(s: State<Job>, e: Event<Job>)
    requires Enabled(s, e, PARAMS)
  {
    match e
    case Enqueue(id, created, data) => data == NewJob(data.owner, data.zipKey, created).data
    case Bury(id, stamp, data) => exists now :: e == BurialOf(id, s.rows[id], now)
    case Land(w, _, _, _) => exists error, counts, now :: e == LandingOf(w, s.rows[s.live[w]], error, counts, now)
    case _ => true
  }

  function BurialOf(id: Id, row: Row<Job>, now: int): Event<Job> {
    Bury(id, row.stamp, Buried(row, now).data)
  }

  function LandingOf(w: Worker, row: Row<Job>, error: Option<string>, counts: Counts, now: int): Event<Job> {
    var end := Ended(row, error, counts, now);
    Land(w, end.status, end.stamp, end.data)
  }

  /** An insert is one enabled event of the queue. */
  lemma InsertIsHonest(s: State<Job>, id: Id, owner: UserId, zipKey: string, now: int)
    requires id !in s.rows
    ensures var e := Enqueue(id, now, NewJob(owner, zipKey, now).data);
            && Enabled(s, e, PARAMS) && Honest(s, e)
            && Apply(s, e, PARAMS) == State(s.rows[id := NewJob(owner, zipKey, now)], s.live, s.now)
  {
  }

  /** What `Finish` leaves of a running job is one enabled event of the queue. */
  lemma LandingIsHonest(s: State<Job>, w: Worker, error: Option<string>, counts: Counts, now: int)
    requires w in s.live && s.live[w] in s.rows
    ensures var id, e := s.live[w], LandingOf(w, s.rows[s.live[w]], error, counts, now);
            && Enabled(s, e, PARAMS) && Honest(s, e)
            && Apply(s, e, PARAMS) == State(s.rows[id := Ended(s.rows[id], error, counts, now)], s.live - {w}, s.now)
  {
  }

  /** The claim loop is a run of the queue's burials and its claim. */
  lemma {:induction false} ClaimIsHonestRun(s: State<Job>, swept: map<Id, Row<Job>>, w: Worker, id: Id, since: int)
    returns (events: seq<Event<Job>>)
    requires Inv(s, PARAMS) && Fresh(s, PARAMS) && SweptJobs(s.rows, swept, since, s.now) && w !in s.live
    requires Oldest(swept, id, s.now, PARAMS) && swept[id] == s.rows[id] && swept[id].attempts < MAX_ATTEMPTS
    ensures Admissible(s, events, PARAMS) && HonestRun(s, events)
    ensures Run(s, events, PARAMS) == State(swept[id := Claimed(swept[id], s.now)], s.live[w := id], s.now)
    decreases |BuriedIds(s.rows, swept)|
  {
    if x :| x in BuriedIds(s.rows, swept) {
      var bury := BuryNext(s, swept, x, PARAMS);
      assert bury == BurialOf(x, s.rows[x], swept[x].data.finishedAt.value);
      var rest := ClaimIsHonestRun(Apply(s, bury, PARAMS), swept, w, id, since);
      events := [bury] + rest;
      assert events[1..] == rest;
    } else {
      forall y | y in swept ensures swept[y] == s.rows[y] {
        assert y !in BuriedIds(s.rows, swept);
      }
      assert swept == s.rows;
      events := [Claim(w, id)];
      assert events[1..] == [];
    }
  }

  ghost predicate HonestRun(s: State<Job>, events: seq<Event<Job>>)
    requires Possible(s, events, PARAMS)
    decreases events
  {
    events == [] || (Honest(s, events[0]) && HonestRun(Apply(s, events[0], PARAMS), events[1..]))
  }

  /** The object an event of the queue deletes from storage. */
  function Deleted(s: State<Job>, e: Event<Job>): set<string>
    requires Enabled(s, e, PARAMS)
  {
    match e
    case Bury(id, _, _) => {s.rows[id].data.zipKey}
    case Land(w, _, _, _) => {s.rows[s.live[w]].data.zipKey}
    case _ => {}
  }

  // ---- What a job's row says, over every run

  /** Done exactly when it has a finish time and no error, failed exactly when it has an error; a row that still
      waits or runs has neither, and no counts. */
  predicate RowTrue(row: Row<Job>) {
    && (row.status.Done? <==> row.data.finishedAt.Some? && row.data.error.None?)
    && (row.status.Failed? <==> row.data.error.Some?)
    && (row.data.error.Some? ==> row.data.finishedAt.Some?)
    && (row.data.counts != Counts(0, 0, 0, 0) ==> row.status.Done?)
  }

  ghost predicate RowsTrue(rows: map<Id, Row<Job>>) {
    forall id :: id in rows ==> RowTrue(rows[id])
  }

  lemma StepKeepsTrue(s: State<Job>, e: Event<Job>)
    requires Inv(s, PARAMS) && RowsTrue(s.rows) && Enabled(s, e, PARAMS) && Honest(s, e)
    ensures RowsTrue(Apply(s, e, PARAMS).rows)
  {
  }

  /** In every interleaving of workers whose runs stay fresh: a job is done exactly when it finished without an
      error, failed exactly when it has one, and only a done job has counts. */
  lemma {:induction false} JobsStayTrue(s: State<Job>, events: seq<Event<Job>>)
    requires Inv(s, PARAMS) && RowsTrue(s.rows) && Admissible(s, events, PARAMS) && HonestRun(s, events)
    ensures RowsTrue(Run(s, events, PARAMS).rows)
    decreases events
  {
    if events != [] {
      StepKeepsInv(s, events[0], PARAMS);
      StepKeepsTrue(s, events[0]);
      JobsStayTrue(Apply(s, events[0], PARAMS), events[1..]);
    }
  }
}
