/** The catch-up cursor: what the periodic pull of the mentions timeline recovers of the mentions the
    webhook dropped, over every run of posts, deliveries and pulls. Times are milliseconds since the
    platform's snowflake epoch; a post id carries its time above bit 22. */
module CatchUp {
  import opened Basics

  const CATCH_UP_INTERVAL := 60 * 60 * 1000
  /** `<< 22`. */
  const SHIFT := 0x40_0000
  const SINCE_ID_OVERLAP := CATCH_UP_INTERVAL * SHIFT
  /** Ten pages of a hundred; past it the oldest mentions are not returned. */
  const FETCH_CAP := 1000

  type PostId = nat

  function PostedAt(id: PostId): nat {
    id / SHIFT
  }

  function Max(ids: set<PostId>): (m: PostId)
    requires ids != {}
    ensures m in ids && forall id :: id in ids ==> id <= m
  {
    MaxExists(ids);
    var m :| m in ids && forall id :: id in ids ==> id <= m;
    m
  }

  lemma MaxExists(ids: set<PostId>)
    requires ids != {}
    ensures exists m :: m in ids && forall id :: id in ids ==> id <= m
  {
    var m := Highest(ids);
  }

  lemma {:induction false} Highest(ids: set<PostId>) returns (m: PostId)
    requires ids != {}
    ensures m in ids && forall id :: id in ids ==> id <= m
  {
    m :| m in ids;
    if ids != {m} {
      var rest := Highest(ids - {m});
      assert forall id :: id in ids ==> id == m || id in ids - {m};
      m := if rest > m then rest else m;
    }
  }

  /** The cursor: one interval of id space behind the newest id in the table. */
  function SinceId(table: set<PostId>): Option<int> {
    if table == {} then None
    else Some(if Max(table) - SINCE_ID_OVERLAP > 1 then Max(table) - SINCE_ID_OVERLAP else 1)
  }

  /** Where a pull starts: nowhere on an empty table; else one hour of ids behind the newest, and at least at 1. */
  lemma PullsFrom(table: set<PostId>)
    ensures table == {} <==> SinceId(table).None?
    ensures table != {} ==>
              var back := Max(table) - 60 * 60 * 1000 * 0x40_0000;
              (back >= 1 ==> SinceId(table) == Some(back)) && (back < 1 ==> SinceId(table) == Some(1))
  {
  }

  function Newer(timeline: set<PostId>, since: Option<int>): set<PostId> {
    set id | id in timeline && (since.Some? ==> id > since.value)
  }

  /** What one pull returns: the ids past the cursor, the newest `FETCH_CAP` of them. */
  function Fetched(timeline: set<PostId>, since: Option<int>): set<PostId> {
    set id | id in Newer(timeline, since) && |Newer(timeline, Some(id))| < FETCH_CAP
  }

  lemma FetchedAll(timeline: set<PostId>, since: Option<int>)
    requires |Newer(timeline, since)| <= FETCH_CAP
    ensures Fetched(timeline, since) == Newer(timeline, since)
  {
    forall id | id in Newer(timeline, since) ensures |Newer(timeline, Some(id))| < FETCH_CAP {
      SmallerSet(Newer(timeline, Some(id)), Newer(timeline, since), id);
    }
  }

  /** What the fetch cap leaves out. */
  function Beyond(timeline: set<PostId>, since: Option<int>): set<PostId> {
    Newer(timeline, since) - Fetched(timeline, since)
  }

  /** One pull returns at most `FETCH_CAP` ids, the newest, and leaves one out exactly when there are more. */
  lemma FetchesTheNewest(timeline: set<PostId>, since: Option<int>)
    ensures |Fetched(timeline, since)| <= FETCH_CAP
    ensures forall f, b :: f in Fetched(timeline, since) && b in Beyond(timeline, since) ==> b < f
    ensures Beyond(timeline, since) == {} <==> |Newer(timeline, since)| <= FETCH_CAP
  {
    var fetched := Fetched(timeline, since);
    if fetched != {} {
      var f := Min(fetched);
      SubsetSize(fetched - {f}, Newer(timeline, Some(f)));
    }
    forall f, b | f in fetched && b in Beyond(timeline, since) ensures b < f {
      if f <= b {
        SubsetSize(Newer(timeline, Some(b)), Newer(timeline, Some(f)));
      }
    }
    if |Newer(timeline, since)| <= FETCH_CAP {
      FetchedAll(timeline, since);
    } else {
      var m := Min(Newer(timeline, since));
      assert Newer(timeline, Some(m)) >= Newer(timeline, since) - {m};
      SubsetSize(Newer(timeline, since) - {m}, Newer(timeline, Some(m)));
      assert m in Beyond(timeline, since);
    }
  }

  lemma {:induction false} Min(ids: set<PostId>) returns (m: PostId)
    requires ids != {}
    ensures m in ids && forall id :: id in ids ==> m <= id
  {
    m :| m in ids;
    if ids != {m} {
      var least := Min(ids - {m});
      assert forall id :: id in ids ==> id == m || id in ids - {m};
      m := if least < m then least else m;
    }
  }

  lemma SmallerSet(a: set<PostId>, b: set<PostId>, x: PostId)
    requires a <= b && x in b && x !in a
    ensures |a| < |b|
  {
    var rest := b - {x} - a;
    assert b == a + rest + {x};
  }

  function Pulled(table: set<PostId>, timeline: set<PostId>): set<PostId> {
    table + Fetched(timeline, SinceId(table))
  }

  // ---- The world the worker runs in

  /** `timeline` is every mention posted, `table` those queued, `pulledAt` the last pull. */
  datatype World = World(timeline: set<PostId>, table: set<PostId>, pulledAt: int, now: int)

  datatype Event = Post(id: PostId) | Deliver(id: PostId) | Pull | Tick(dt: nat)

  predicate Enabled(w: World, e: Event) {
    match e
    case Post(id) => id !in w.timeline && PostedAt(id) == w.now
    case Deliver(id) => id in w.timeline
    case Pull => true
    case Tick(_) => true
  }

  /** A pull takes at least a millisecond, so a post it could not see is later than it. */
  function Apply(w: World, e: Event): World {
    match e
    case Post(id) => w.(timeline := w.timeline + {id})
    case Deliver(id) => w.(table := w.table + {id})
    case Pull => w.(table := Pulled(w.table, w.timeline), pulledAt := w.now, now := w.now + 1)
    case Tick(dt) => w.(now := w.now + dt)
  }

  ghost predicate Possible(w: World, events: seq<Event>)
    decreases events
  {
    events == [] || (Enabled(w, events[0]) && Possible(Apply(w, events[0]), events[1..]))
  }

  function Run(w: World, events: seq<Event>): World
    decreases events
  {
    if events == [] then w else Run(Apply(w, events[0]), events[1..])
  }

  /** Times run forward from a real instant and nothing is queued that was not posted. */
  ghost predicate Sound(w: World) {
    && 1 <= w.now && w.pulledAt < w.now
    && w.table <= w.timeline
    && forall id :: id in w.timeline ==> 1 <= PostedAt(id) <= w.now
  }

  /** Every mention posted up to the last pull is in the table. */
  ghost predicate Complete(w: World) {
    forall id :: id in w.timeline && PostedAt(id) <= w.pulledAt ==> id in w.table
  }

  /** What the cap would leave out of the next pull is in the table already. */
  predicate Covered(w: World) {
    Beyond(w.timeline, SinceId(w.table)) <= w.table
  }

  /** A mention the next pull leaves out of the table is past the cap, or at least an interval old. */
  lemma CursorReaches(w: World, id: PostId)
    requires Sound(w) && id in w.timeline && id !in Pulled(w.table, w.timeline)
    ensures id in Beyond(w.timeline, SinceId(w.table))
            || (w.table != {} && id <= Max(w.table) - SINCE_ID_OVERLAP && PostedAt(id) <= w.now - CATCH_UP_INTERVAL)
  {
    if id !in Newer(w.timeline, SinceId(w.table)) {
      var newest := Max(w.table);
      assert PostedAt(newest) <= w.now && id >= SHIFT;
      assert newest == PostedAt(newest) * SHIFT + newest % SHIFT;
      assert id == PostedAt(id) * SHIFT + id % SHIFT;
    }
  }

  /** What one pull can still miss: with a gap of `g` since the previous one, only mentions posted in
      the first `g` minus the interval after it, and those past the cap. */
  lemma MissedOnlyEarly(w: World, id: PostId)
    requires Sound(w) && Complete(w)
    requires id in w.timeline && id !in Apply(w, Pull).table && id !in Beyond(w.timeline, SinceId(w.table))
    ensures w.pulledAt < PostedAt(id) <= w.pulledAt + (w.now - w.pulledAt - CATCH_UP_INTERVAL)
  {
    CursorReaches(w, id);
  }

  /** The fetch cap, exactly: a prompt pull is complete if and only if every mention past the newest thousand
      is in the table already. */
  lemma PullCompleteIffCovered(w: World)
    requires Sound(w) && Complete(w) && w.now - w.pulledAt <= CATCH_UP_INTERVAL
    ensures Complete(Apply(w, Pull)) <==> Covered(w)
  {
    if Covered(w) {
      forall id | id in w.timeline ensures id in Apply(w, Pull).table {
        if id !in Apply(w, Pull).table {
          MissedOnlyEarly(w, id);
          assert false;
        }
      }
    } else {
      var id :| id in Beyond(w.timeline, SinceId(w.table)) && id !in w.table;
      assert id in w.timeline && id !in Apply(w, Pull).table;
    }
  }

  lemma StepKeepsSound(w: World, e: Event)
    requires Sound(w) && Enabled(w, e)
    ensures Sound(Apply(w, e))
  {
  }

  /** Pulls no more than one interval apart, none with a mention past its cap that is not in the table. */
  ghost predicate Prompt(w: World, events: seq<Event>)
    decreases events
  {
    events == [] ||
    ((events[0].Pull? ==> w.now - w.pulledAt <= CATCH_UP_INTERVAL && Covered(w))
     && Prompt(Apply(w, events[0]), events[1..]))
  }

  /** Completeness: for any subset and order of webhook deliveries, if consecutive pulls are at most
      one interval apart and covered, after each of them every mention posted so far is in the table. */
  lemma {:induction false} PromptPullsMissNothing(w: World, events: seq<Event>)
    requires Sound(w) && Complete(w) && Possible(w, events) && Prompt(w, events)
    ensures Sound(Run(w, events)) && Complete(Run(w, events))
    decreases events
  {
    if events != [] {
      var e := events[0];
      StepKeepsSound(w, e);
      if e.Pull? {
        PullCompleteIffCovered(w);
      }
      PromptPullsMissNothing(Apply(w, e), events[1..]);
    }
  }

  /** A mention the cursor has passed is lost for good unless the webhook delivers it late: no later
      pull returns it, since the newest id only grows. */
  lemma {:induction false} LostForGood(w: World, events: seq<Event>, id: PostId)
    requires id !in w.table && w.table != {} && 1 < id <= Max(w.table) - SINCE_ID_OVERLAP
    requires forall i :: 0 <= i < |events| ==> events[i] != Deliver(id)
    ensures id !in Run(w, events).table
    decreases events
  {
    if events != [] {
      var next := Apply(w, events[0]);
      assert w.table <= next.table && Max(next.table) >= Max(w.table);
      LostForGood(next, events[1..], id);
    }
  }

  /** A mention past the cap is lost for good too: what is newer than it only grows. */
  lemma {:induction false} PastTheCapForGood(w: World, events: seq<Event>, id: PostId)
    requires id !in w.table && |Newer(w.timeline, Some(id))| >= FETCH_CAP
    requires forall i :: 0 <= i < |events| ==> events[i] != Deliver(id)
    ensures id !in Run(w, events).table
    decreases events
  {
    if events != [] {
      var next := Apply(w, events[0]);
      SubsetSize(Newer(w.timeline, Some(id)), Newer(next.timeline, Some(id)));
      PastTheCapForGood(next, events[1..], id);
    }
  }

  /** The interval is exact: a gap is safe, in every complete and covered world that reaches it, if and only
      if it is at most the interval. */
  lemma GapSafeIffWithinInterval(gap: int)
    requires gap >= 1
    ensures (forall w: World :: Sound(w) && Complete(w) && Covered(w) && w.now - w.pulledAt == gap ==>
                                  Complete(Apply(w, Pull)))
            <==> gap <= CATCH_UP_INTERVAL
  {
    if gap <= CATCH_UP_INTERVAL {
      forall w: World | Sound(w) && Complete(w) && Covered(w) && w.now - w.pulledAt == gap
        ensures Complete(Apply(w, Pull))
      {
        PullCompleteIffCovered(w);
      }
    } else {
      var w := DroppedThenOvertaken(gap);
      assert !Complete(Apply(w, Pull));
    }
  }

  /** Before anything is posted. */
  const START := World({}, {}, 0, 1)

  /** Right after a pull a mention is posted and its delivery dropped; a later one is delivered just
      before the next pull. */
  function Overtaking(gap: nat): seq<Event>
    requires gap >= 1
  {
    [Pull, Post(2 * SHIFT), Tick(gap - 1), Post((gap + 1) * SHIFT), Deliver((gap + 1) * SHIFT)]
  }

  lemma OvertakingRuns(gap: nat)
    requires gap > CATCH_UP_INTERVAL
    ensures Possible(START, Overtaking(gap))
    ensures Run(START, Overtaking(gap)) == World({2 * SHIFT, (gap + 1) * SHIFT}, {(gap + 1) * SHIFT}, 1, gap + 1)
  {
    var dropped, delivered := 2 * SHIFT, (gap + 1) * SHIFT;
    var events := Overtaking(gap);
    assert PostedAt(dropped) == 2 && PostedAt(delivered) == gap + 1;
    assert Newer({}, None) == {} == Fetched({}, None);
    var w1 := World({}, {}, 1, 2);
    assert SinceId({}) == None && Apply(START, Pull) == w1;
    var w2 := World({dropped}, {}, 1, 2);
    var w3 := World({dropped}, {}, 1, gap + 1);
    var w4 := World({dropped, delivered}, {}, 1, gap + 1);
    assert Apply(w1, Post(dropped)) == w2 && Apply(w2, Tick(gap - 1)) == w3;
    assert delivered != dropped && Apply(w3, Post(delivered)) == w4;
    assert Apply(w4, Deliver(delivered)) == w4.(table := {delivered});
    RunCons(w4, Deliver(delivered), []);
    assert [Deliver(delivered)] + [] == [Deliver(delivered)];
    var posted := [Post(delivered)] + [Deliver(delivered)];
    RunCons(w3, Post(delivered), [Deliver(delivered)]);
    RunCons(w2, Tick(gap - 1), posted);
    RunCons(w1, Post(dropped), [Tick(gap - 1)] + posted);
    RunCons(START, Pull, [Post(dropped)] + ([Tick(gap - 1)] + posted));
    assert events == [Pull] + ([Post(dropped)] + ([Tick(gap - 1)] + posted));
  }

  lemma RunCons(w: World, e: Event, rest: seq<Event>)
    ensures Possible(w, [e] + rest) <==> Enabled(w, e) && Possible(Apply(w, e), rest)
    ensures Run(w, [e] + rest) == Run(Apply(w, e), rest)
  {
  }

  /** The failing run: from the start, the world `Overtaking` reaches is complete, yet its next pull
      leaves the dropped mention behind the cursor. */
  lemma DroppedThenOvertaken(gap: int) returns (w: World)
    requires gap > CATCH_UP_INTERVAL
    ensures Possible(START, Overtaking(gap)) && w == Run(START, Overtaking(gap))
    ensures Sound(w) && Complete(w) && Covered(w) && w.now - w.pulledAt == gap
    ensures Apply(w, Pull).table != {}
    ensures exists dropped :: dropped in w.timeline && dropped !in Apply(w, Pull).table && 1 < dropped
                              && Max(Apply(w, Pull).table) - SINCE_ID_OVERLAP >= dropped
  {
    var dropped, delivered := 2 * SHIFT, (gap + 1) * SHIFT;
    OvertakingRuns(gap);
    w := World({dropped, delivered}, {delivered}, 1, gap + 1);
    assert PostedAt(dropped) == 2 && PostedAt(delivered) == gap + 1;
    assert delivered - SINCE_ID_OVERLAP >= dropped;
    assert Max(w.table) == delivered;
    var since := SinceId(w.table);
    assert Newer(w.timeline, since) <= {delivered};
    SubsetSize(Newer(w.timeline, since), {delivered});
    FetchedAll(w.timeline, since);
    assert Apply(w, Pull).table == {delivered};
  }

  // ---- The worker's schedule

  /** The worker's loop decides at each pass whether a pull is due, and plans the next one an interval
      after deciding. */
  class Schedule {
    var nextCatchUp: int
    /** The clock readings at which a pull was found due, oldest first. */
    ghost var dues: seq<int>

    ghost predicate Valid()
      reads this
    {
      && (dues == [] || Last(dues) + CATCH_UP_INTERVAL <= nextCatchUp)
      && forall i :: 0 < i < |dues| ==> dues[i - 1] + CATCH_UP_INTERVAL <= dues[i]
    }

    constructor (now: int)
      ensures Valid() && dues == [] && nextCatchUp == now
    {
      nextCatchUp := now;
      dues := [];
    }

    /** One pass: `now` and `after` are the two clock readings. Within one process, pulls are found due at
        least one interval apart; each runs some time after it was found due. */
    method Pass(now: int, after: int) returns (due: bool)
      requires Valid() && now <= after
      modifies this
      ensures Valid() && (due <==> now >= old(nextCatchUp))
      ensures nextCatchUp == if due then after + CATCH_UP_INTERVAL else old(nextCatchUp)
      ensures dues == if due then old(dues) + [now] else old(dues)
    {
      due := now >= nextCatchUp;
      if due {
        nextCatchUp := after + CATCH_UP_INTERVAL;
        dues := dues + [now];
      }
    }
  }
}
