/** The claim protocol both worker queues share: rows in a table, workers that claim, finish, crash
    and beat, and a clock. Each locked or committed section of the services is one event. `X` is
    whatever else a row carries. */
module ClaimQueue {
  import opened Basics

  type Id = nat
  type Worker = nat

  datatype Status = Queued | Running | Done | Failed

  datatype Row<X> = Row(status: Status, attempts: nat, stamp: int, created: int, data: X)

  datatype Params = Params(staleAfter: nat, budget: nat)

  /** `live` names the row each running worker believes it holds; a crash removes it there only. */
  datatype State<X> = State(rows: map<Id, Row<X>>, live: map<Worker, Id>, now: int)

  datatype Event<X> =
    | Enqueue(id: Id, created: int, data: X)
    | Claim(worker: Worker, id: Id)
    | Bury(id: Id, stamp: int, data: X)
    | Beat(id: Id)
    | Land(worker: Worker, status: Status, stamp: int, data: X)
    | Requeue(worker: Worker)
    | Crash(worker: Worker)
    | Tick(dt: nat)

  predicate Terminal(status: Status) {
    status.Done? || status.Failed?
  }

  predicate Claimable<X>(row: Row<X>, now: int, p: Params) {
    row.status.Queued? || (row.status.Running? && row.stamp < now - p.staleAfter)
  }

  predicate Enabled<X>(s: State<X>, e: Event<X>, p: Params) {
    match e
    case Enqueue(id, _, _) => id !in s.rows
    case Claim(w, id) =>
      && w !in s.live && id in s.rows && Claimable(s.rows[id], s.now, p)
      && s.rows[id].attempts < p.budget
    case Bury(id, _, _) => id in s.rows && Claimable(s.rows[id], s.now, p) && s.rows[id].attempts >= p.budget
    case Beat(id) => id in s.rows
    case Land(w, status, _, _) => w in s.live && s.live[w] in s.rows && Terminal(status)
    case Requeue(w) => w in s.live && s.live[w] in s.rows
    case Crash(w) => w in s.live
    case Tick(_) => true
  }

  /** A claim's effect on its row. */
  function Claimed<X>(row: Row<X>, now: int): Row<X> {
    row.(status := Running, attempts := row.attempts + 1, stamp := now)
  }

  function Apply<X>(s: State<X>, e: Event<X>, p: Params): State<X>
    requires Enabled(s, e, p)
  {
    match e
    case Enqueue(id, created, data) => s.(rows := s.rows[id := Row(Queued, 0, 0, created, data)])
    case Claim(w, id) => s.(rows := s.rows[id := Claimed(s.rows[id], s.now)], live := s.live[w := id])
    case Bury(id, stamp, data) => s.(rows := s.rows[id := s.rows[id].(status := Failed, stamp := stamp, data := data)])
    case Beat(id) => s.(rows := s.rows[id := s.rows[id].(stamp := s.now)])
    case Land(w, status, stamp, data) =>
      var id := s.live[w];
      s.(rows := s.rows[id := s.rows[id].(status := status, stamp := stamp, data := data)], live := s.live - {w})
    case Requeue(w) =>
      s.(rows := s.rows[s.live[w] := s.rows[s.live[w]].(status := Queued)], live := s.live - {w})
    case Crash(w) => s.(live := s.live - {w})
    case Tick(dt) => s.(now := s.now + dt)
  }

  /** A beat re-stamps its row alone, a re-queue frees its row and its worker, a crash its worker alone. */
  lemma SmallEvents<X>(s: State<X>, id: Id, w: Worker, p: Params)
    ensures id in s.rows ==>
              var row := s.rows[id];
              Apply(s, Beat(id), p)
              == State(s.rows[id := Row(row.status, row.attempts, s.now, row.created, row.data)], s.live, s.now)
    ensures w in s.live && s.live[w] in s.rows ==>
              var row := s.rows[s.live[w]];
              Apply(s, Requeue(w), p)
              == State(s.rows[s.live[w] := Row(Queued, row.attempts, row.stamp, row.created, row.data)],
                       s.live - {w}, s.now)
    ensures w in s.live ==> Apply(s, Crash(w), p) == State(s.rows, s.live - {w}, s.now)
  {
  }

  /** The timing hypothesis: no live run's stamp is older than the stale window. */
  ghost predicate Fresh<X>(s: State<X>, p: Params) {
    forall w :: w in s.live && s.live[w] in s.rows ==> s.rows[s.live[w]].stamp >= s.now - p.staleAfter
  }

  ghost predicate Exclusive<X>(s: State<X>) {
    forall w, v :: w in s.live && v in s.live && w != v ==> s.live[w] != s.live[v]
  }

  ghost predicate Inv<X>(s: State<X>, p: Params) {
    && Exclusive(s)
    && (forall w :: w in s.live ==> s.live[w] in s.rows && s.rows[s.live[w]].status.Running?)
    && (forall id :: id in s.rows ==> s.rows[id].attempts <= p.budget)
  }

  /** Every event was possible when it happened. */
  ghost predicate Possible<X>(s: State<X>, events: seq<Event<X>>, p: Params)
    decreases events
  {
    events == [] || (Enabled(s, events[0], p) && Possible(Apply(s, events[0], p), events[1..], p))
  }

  ghost function Run<X>(s: State<X>, events: seq<Event<X>>, p: Params): State<X>
    requires Possible(s, events, p)
    decreases events
  {
    if events == [] then s else Run(Apply(s, events[0], p), events[1..], p)
  }

  /** The timing hypothesis held before every event. */
  ghost predicate Timely<X>(s: State<X>, events: seq<Event<X>>, p: Params)
    requires Possible(s, events, p)
    decreases events
  {
    events == [] || (Fresh(s, p) && Timely(Apply(s, events[0], p), events[1..], p))
  }

  ghost predicate Admissible<X>(s: State<X>, events: seq<Event<X>>, p: Params) {
    Possible(s, events, p) && Timely(s, events, p)
  }

  lemma {:induction false} RunAppend<X>(s: State<X>, first: seq<Event<X>>, later: seq<Event<X>>, p: Params)
    requires Possible(s, first, p) && Possible(Run(s, first, p), later, p)
    ensures Possible(s, first + later, p) && Run(s, first + later, p) == Run(Run(s, first, p), later, p)
    decreases first
  {
    if first == [] {
      assert first + later == later;
    } else {
      assert (first + later)[0] == first[0] && (first + later)[1..] == first[1..] + later;
      RunAppend(Apply(s, first[0], p), first[1..], later, p);
    }
  }

  // ---- Mutual exclusion

  lemma StepKeepsInv<X>(s: State<X>, e: Event<X>, p: Params)
    requires Inv(s, p) && Fresh(s, p) && Enabled(s, e, p)
    ensures Inv(Apply(s, e, p), p)
    ensures e.Bury? ==> forall w :: w in s.live ==> s.live[w] != e.id
  {
  }

  /** In every interleaving of enqueues, claims, beats, burials, landings, re-queues and crashes in
      which no live run's stamp goes stale, no two workers run one row, a live run's row is
      `running`, and no row is claimed past the budget. */
  lemma {:induction false} MutualExclusion<X>(s: State<X>, events: seq<Event<X>>, p: Params)
    requires Inv(s, p) && Admissible(s, events, p)
    ensures Inv(Run(s, events, p), p)
    decreases events
  {
    if events != [] {
      StepKeepsInv(s, events[0], p);
      MutualExclusion(Apply(s, events[0], p), events[1..], p);
    }
  }

  /** The hypothesis is exact: from a state of the protocol, no possible claim can put a second worker
      on a row if and only if every live run that could be claimed again is still fresh. */
  lemma ExclusionNeedsFreshness<X>(s: State<X>, p: Params)
    requires Inv(s, p)
    ensures (forall w, id :: Enabled(s, Claim(w, id), p) ==> Exclusive(Apply(s, Claim(w, id), p)))
            <==> forall v :: v in s.live && s.rows[s.live[v]].attempts < p.budget ==>
                               s.rows[s.live[v]].stamp >= s.now - p.staleAfter
  {
    forall v | v in s.live && s.rows[s.live[v]].attempts < p.budget && s.rows[s.live[v]].stamp < s.now - p.staleAfter
      ensures exists w :: Enabled(s, Claim(w, s.live[v]), p) && !Exclusive(Apply(s, Claim(w, s.live[v]), p))
    {
      var w := Unused(s.live.Keys);
      var t := Apply(s, Claim(w, s.live[v]), p);
      assert Enabled(s, Claim(w, s.live[v]), p) && t.live[w] == t.live[v];
    }
  }

  // ---- Terminal rows, under the timing hypothesis

  /** A terminal row keeps its status for good, whatever beats land on it afterwards. */
  lemma {:induction false} TerminalStays<X>(s: State<X>, events: seq<Event<X>>, p: Params, id: Id)
    requires Inv(s, p) && Admissible(s, events, p)
    requires id in s.rows && Terminal(s.rows[id].status)
    ensures id in Run(s, events, p).rows
    ensures Run(s, events, p).rows[id].status == s.rows[id].status
    ensures Run(s, events, p).rows[id].data == s.rows[id].data
    decreases events
  {
    if events != [] {
      StepKeepsInv(s, events[0], p);
      TerminalStays(Apply(s, events[0], p), events[1..], p, id);
    }
  }

  /** What is left of a row under the timing hypothesis: a claim per attempt, and its burial. */
  function Due<X>(row: Row<X>, p: Params): int {
    if Terminal(row.status) then 0 else p.budget + 1 - row.attempts
  }

  function DueOf<X>(rows: map<Id, Row<X>>, id: Id, p: Params): int {
    if id in rows then Due(rows[id], p) else p.budget + 1
  }

  /** While no live run goes stale, a row is claimed or buried at most once per attempt left and once
      more for its burial. */
  lemma {:induction false} TakesWhileFresh<X>(s: State<X>, events: seq<Event<X>>, p: Params, id: Id)
    requires Inv(s, p) && Admissible(s, events, p)
    ensures 0 <= DueOf(Run(s, events, p).rows, id, p) <= DueOf(s.rows, id, p) - Takes(events, id)
    decreases events
  {
    if events != [] {
      StepKeepsInv(s, events[0], p);
      TakesWhileFresh(Apply(s, events[0], p), events[1..], p, id);
    }
  }

  // ---- Attempts over every run, slow attempts and late landings included

  ghost predicate Budgeted<X>(rows: map<Id, Row<X>>, p: Params) {
    forall id :: id in rows ==> rows[id].attempts <= p.budget
  }

  /** How many claims, and how many claims and burials, of `id` a run holds. */
  function Claims<X>(events: seq<Event<X>>, id: Id): nat {
    if events == [] then 0 else (if events[0].Claim? && events[0].id == id then 1 else 0) + Claims(events[1..], id)
  }

  function Takes<X>(events: seq<Event<X>>, id: Id): nat {
    if events == [] then 0
    else (if (events[0].Claim? || events[0].Bury?) && events[0].id == id then 1 else 0) + Takes(events[1..], id)
  }

  function AttemptsOf<X>(rows: map<Id, Row<X>>, id: Id): nat {
    if id in rows then rows[id].attempts else 0
  }

  /** Whatever the timing, a row's attempts count its claims exactly, and never pass the budget: crashes,
      re-queues and reclaims of attempts still running included. */
  lemma {:induction false} AttemptsCountClaims<X>(s: State<X>, events: seq<Event<X>>, p: Params, id: Id)
    requires Budgeted(s.rows, p) && Possible(s, events, p)
    ensures AttemptsOf(Run(s, events, p).rows, id) == AttemptsOf(s.rows, id) + Claims(events, id) <= p.budget
    decreases events
  {
    if events != [] {
      AttemptsCountClaims(Apply(s, events[0], p), events[1..], p, id);
    }
  }

  function Holders(live: map<Worker, Id>, id: Id): set<Worker> {
    set w | w in live && live[w] == id
  }

  /** What a row can still cost: two for each attempt left, a claim and the re-queue that may reopen the
      row late, and one while it is open. */
  function Left<X>(row: Row<X>, p: Params): int {
    2 * (p.budget - row.attempts) + if Terminal(row.status) then 0 else 1
  }

  function LeftOf<X>(s: State<X>, id: Id, p: Params): int {
    |Holders(s.live, id)| + if id in s.rows then Left(s.rows[id], p) else 2 * p.budget + 1
  }

  lemma HolderAdded(live: map<Worker, Id>, w: Worker, id: Id, held: Id)
    requires w !in live
    ensures |Holders(live[w := id], held)| == |Holders(live, held)| + if held == id then 1 else 0
  {
    assert Holders(live[w := id], held) == Holders(live, held) + if held == id then {w} else {};
  }

  lemma HolderGone(live: map<Worker, Id>, w: Worker, held: Id)
    requires w in live
    ensures |Holders(live - {w}, held)| == |Holders(live, held)| - if held == live[w] then 1 else 0
  {
    assert Holders(live - {w}, held) == Holders(live, held) - if held == live[w] then {w} else {};
  }

  lemma TakeSpends<X>(s: State<X>, e: Event<X>, p: Params, id: Id)
    requires Budgeted(s.rows, p) && Enabled(s, e, p)
    ensures Budgeted(Apply(s, e, p).rows, p)
    ensures LeftOf(Apply(s, e, p), id, p) + Takes([e], id) <= LeftOf(s, id, p)
  {
    if e.Claim? {
      HolderAdded(s.live, e.worker, e.id, id);
    } else if e.Land? || e.Requeue? || e.Crash? {
      HolderGone(s.live, e.worker, id);
    }
  }

  /** Whatever the timing, a row is claimed or buried at most twice per attempt left, plus once for each
      worker that holds it and once while it is open. */
  lemma {:induction false} BoundedTakes<X>(s: State<X>, events: seq<Event<X>>, p: Params, id: Id)
    requires Budgeted(s.rows, p) && Possible(s, events, p)
    ensures 0 <= LeftOf(Run(s, events, p), id, p) <= LeftOf(s, id, p) - Takes(events, id)
    decreases events
  {
    if events != [] {
      TakeSpends(s, events[0], p, id);
      BoundedTakes(Apply(s, events[0], p), events[1..], p, id);
    }
  }

  /** The same measure over a whole table. */
  ghost function TotalLeft<X>(rows: map<Id, Row<X>>, p: Params): int {
    if rows == map[] then 0
    else
      var id :| id in rows;
      Left(rows[id], p) + TotalLeft(rows - {id}, p)
  }

  lemma {:induction false} TotalSplit<X>(rows: map<Id, Row<X>>, p: Params, id: Id)
    requires id in rows
    ensures TotalLeft(rows, p) == Left(rows[id], p) + TotalLeft(rows - {id}, p)
  {
    var x :| x in rows && TotalLeft(rows, p) == Left(rows[x], p) + TotalLeft(rows - {x}, p);
    if x != id {
      TotalSplit(rows - {x}, p, id);
      TotalSplit(rows - {id}, p, x);
      assert rows - {x} - {id} == rows - {id} - {x};
    }
  }

  /** Rewriting one row moves the total by that row's change. */
  lemma TotalUpdate<X>(rows: map<Id, Row<X>>, p: Params, id: Id, row: Row<X>)
    requires id in rows
    ensures TotalLeft(rows[id := row], p) == TotalLeft(rows, p) - Left(rows[id], p) + Left(row, p)
  {
    TotalSplit(rows, p, id);
    TotalSplit(rows[id := row], p, id);
    assert rows[id := row] - {id} == rows - {id};
  }

  lemma {:induction false} TotalNonNegative<X>(rows: map<Id, Row<X>>, p: Params)
    requires Budgeted(rows, p)
    ensures TotalLeft(rows, p) >= 0
  {
    if rows != map[] {
      var x :| x in rows;
      TotalNonNegative(rows - {x}, p);
      TotalSplit(rows, p, x);
    }
  }

  function Count<X>(events: seq<Event<X>>): nat {
    if events == [] then 0 else (if events[0].Claim? || events[0].Bury? then 1 else 0) + Count(events[1..])
  }

  lemma LiveChange(live: map<Worker, Id>, w: Worker, id: Id)
    ensures w !in live ==> |live[w := id]| == |live| + 1
    ensures w in live ==> |live - {w}| == |live| - 1
  {
  }

  /** One event other than an enqueue spends from the table and the workers together: a claim or a burial
      at least one. */
  lemma EventSpends<X>(s: State<X>, e: Event<X>, p: Params)
    requires Enabled(s, e, p) && !e.Enqueue?
    ensures var t := Apply(s, e, p);
            TotalLeft(t.rows, p) + |t.live| + (if e.Claim? || e.Bury? then 1 else 0) <= TotalLeft(s.rows, p) + |s.live|
  {
    match e
    case Claim(w, id) => LiveChange(s.live, w, id); TotalUpdate(s.rows, p, id, Claimed(s.rows[id], s.now));
    case Bury(id, _, _) => TotalUpdate(s.rows, p, id, Apply(s, e, p).rows[id]);
    case Beat(id) => TotalUpdate(s.rows, p, id, Apply(s, e, p).rows[id]);
    case Land(w, _, _, _) =>
      LiveChange(s.live, w, 0);
      TotalUpdate(s.rows, p, s.live[w], Apply(s, e, p).rows[s.live[w]]);
    case Requeue(w) => LiveChange(s.live, w, 0); TotalUpdate(s.rows, p, s.live[w], Apply(s, e, p).rows[s.live[w]]);
    case Crash(w) => LiveChange(s.live, w, 0);
    case Tick(_) =>
  }

  /** With nothing enqueued, any run holds at most as many claims and burials as the rows and the workers
      have left, whatever the timing: every drain ends, whatever crashes, re-queues and reclaims
      interrupt it. */
  lemma {:induction false} DrainsEnd<X>(s: State<X>, events: seq<Event<X>>, p: Params)
    requires Budgeted(s.rows, p) && Possible(s, events, p)
    requires forall i :: 0 <= i < |events| ==> !events[i].Enqueue?
    ensures var t := Run(s, events, p);
            0 <= TotalLeft(t.rows, p) + |t.live| <= TotalLeft(s.rows, p) + |s.live| - Count(events)
    decreases events
  {
    if events == [] {
      TotalNonNegative(s.rows, p);
    } else {
      EventSpends(s, events[0], p);
      DrainsEnd(Apply(s, events[0], p), events[1..], p);
    }
  }

  // ---- The claim loop: bury the oldest spent rows, then claim the oldest that is left

  predicate NoneClaimable<X>(rows: map<Id, Row<X>>, now: int, p: Params) {
    forall id :: id in rows ==> !Claimable(rows[id], now, p)
  }

  /** `id` is the oldest row a claim at `now` may take. */
  predicate Oldest<X>(rows: map<Id, Row<X>>, id: Id, now: int, p: Params) {
    && id in rows && Claimable(rows[id], now, p)
    && forall other :: other in rows && Claimable(rows[other], now, p) ==> rows[id].created <= rows[other].created
  }

  lemma {:induction false} OldestExists<X>(rows: map<Id, Row<X>>, now: int, p: Params)
    requires !NoneClaimable(rows, now, p)
    ensures exists id :: Oldest(rows, id, now, p)
  {
    var id :| id in rows && Claimable(rows[id], now, p);
    var rest := rows - {id};
    assert forall other :: other in rows ==> other == id || (other in rest && rest[other] == rows[other]);
    if NoneClaimable(rest, now, p) {
      assert Oldest(rows, id, now, p);
    } else {
      OldestExists(rest, now, p);
      var best :| Oldest(rest, best, now, p);
      assert Oldest(rows, if rows[id].created <= rows[best].created then id else best, now, p);
    }
  }

  /** The claim's query. */
  method FirstClaimable<X>(rows: map<Id, Row<X>>, now: int, p: Params) returns (found: Option<Id>)
    ensures found.None? ==> NoneClaimable(rows, now, p)
    ensures found.Some? ==> Oldest(rows, found.value, now, p)
  {
    if NoneClaimable(rows, now, p) {
      return None;
    }
    OldestExists(rows, now, p);
    var id :| id in rows && Oldest(rows, id, now, p);
    return Some(id);
  }

  /** The row was past its budget and claimable, and is now buried. */
  predicate BuriedRow<X(==)>(was: Row<X>, row: Row<X>, now: int, p: Params) {
    && Claimable(was, now, p) && was.attempts >= p.budget
    && row == was.(status := Failed, stamp := row.stamp, data := row.data)
  }

  /** Every row stands as it was or has been buried. */
  ghost predicate Swept<X>(was: map<Id, Row<X>>, rows: map<Id, Row<X>>, now: int, p: Params) {
    rows.Keys == was.Keys && forall id :: id in rows ==> rows[id] == was[id] || BuriedRow(was[id], rows[id], now, p)
  }

  lemma SweepMore<X>(was: map<Id, Row<X>>, rows: map<Id, Row<X>>, id: Id, row: Row<X>, now: int, p: Params)
    requires Swept(was, rows, now, p) && id in rows && BuriedRow(rows[id], row, now, p)
    ensures Swept(was, rows[id := row], now, p) && rows[id] == was[id]
    ensures TotalLeft(rows[id := row], p) == TotalLeft(rows, p) - 1
  {
    TotalUpdate(rows, p, id, row);
  }

  /** The rows a sweep has buried. */
  function BuriedIds<X(==)>(was: map<Id, Row<X>>, rows: map<Id, Row<X>>): set<Id>
    requires was.Keys == rows.Keys
  {
    set id | id in rows && rows[id] != was[id]
  }

  /** Each buried row's burial is an event of the protocol, and leaves the rest of the sweep to do. */
  lemma BuryNext<X>(s: State<X>, swept: map<Id, Row<X>>, x: Id, p: Params) returns (bury: Event<X>)
    requires Inv(s, p) && Fresh(s, p) && Swept(s.rows, swept, s.now, p) && x in BuriedIds(s.rows, swept)
    ensures bury == Bury(x, swept[x].stamp, swept[x].data)
    ensures Enabled(s, bury, p) && Inv(Apply(s, bury, p), p) && Fresh(Apply(s, bury, p), p)
    ensures Apply(s, bury, p) == State(s.rows[x := swept[x]], s.live, s.now)
    ensures Swept(s.rows[x := swept[x]], swept, s.now, p)
    ensures BuriedIds(s.rows[x := swept[x]], swept) == BuriedIds(s.rows, swept) - {x}
  {
    bury := Bury(x, swept[x].stamp, swept[x].data);
    StepKeepsInv(s, bury, p);
    assert Apply(s, bury, p).rows == s.rows[x := swept[x]];
  }

  /** A sweep and the claim after it are a run of the protocol: the claim loop does nothing the events do
      not. */
  lemma {:induction false} ClaimIsARun<X>(s: State<X>, swept: map<Id, Row<X>>, w: Worker, id: Id, p: Params)
    returns (events: seq<Event<X>>)
    requires Inv(s, p) && Fresh(s, p) && Swept(s.rows, swept, s.now, p) && w !in s.live
    requires Oldest(swept, id, s.now, p) && swept[id] == s.rows[id] && swept[id].attempts < p.budget
    ensures Admissible(s, events, p)
    ensures Run(s, events, p) == State(swept[id := Claimed(swept[id], s.now)], s.live[w := id], s.now)
    decreases |BuriedIds(s.rows, swept)|
  {
    if x :| x in BuriedIds(s.rows, swept) {
      var bury := BuryNext(s, swept, x, p);
      var rest := ClaimIsARun(Apply(s, bury, p), swept, w, id, p);
      events := [bury] + rest;
      assert events[1..] == rest;
    } else {
      forall y | y in swept ensures swept[y] == s.rows[y] {
        assert y !in BuriedIds(s.rows, swept);
      }
      assert swept == s.rows;
      events := [Claim(w, id)];
      assert events[1..] == [];
    }
  }

  /** Every row stands as it was or has gone terminal, and no terminal row moved. */
  ghost predicate Drained<X>(was: map<Id, Row<X>>, rows: map<Id, Row<X>>) {
    && rows.Keys == was.Keys
    && forall id :: id in rows ==> rows[id] == was[id] || (!Terminal(was[id].status) && Terminal(rows[id].status))
  }

  lemma DrainMore<X>(was: map<Id, Row<X>>, mid: map<Id, Row<X>>, rows: map<Id, Row<X>>, now: int, p: Params)
    requires Drained(was, mid) && Swept(mid, rows, now, p)
    ensures Drained(was, rows)
  {
  }

  lemma DrainBoth<X>(was: map<Id, Row<X>>, mid: map<Id, Row<X>>, rows: map<Id, Row<X>>)
    requires Drained(was, mid) && Drained(mid, rows)
    ensures Drained(was, rows)
  {
  }

  /** One job from claim to landing: the table stays drained and the attempts left go down. */
  lemma JobLanded<X>(first: map<Id, Row<X>>, was: map<Id, Row<X>>, swept: map<Id, Row<X>>, id: Id, row: Row<X>,
                     now: int, p: Params)
    requires Drained(first, was) && Swept(was, swept, now, p) && id in swept && Terminal(row.status)
    requires swept[id] == was[id] && !Terminal(was[id].status) && row.attempts == was[id].attempts + 1 <= p.budget
    ensures Drained(first, swept[id := row])
    ensures TotalLeft(swept[id := row], p) < TotalLeft(swept, p)
  {
    DrainMore(first, was, swept, now, p);
    TotalUpdate(swept, p, id, row);
  }

  lemma AllTaken<X>(first: map<Id, Row<X>>, rows: map<Id, Row<X>>, start: int, now: int, p: Params)
    requires Drained(first, rows) && NoneClaimable(rows, now, p) && start <= now
    ensures forall id :: id in rows && Claimable(first[id], start, p) ==> Terminal(rows[id].status)
  {
  }
}
