/** The billed-reply budget: an in-memory spend tracker re-seeded from the ledger on every pass, and
    the ceilings it enforces on the replies actually posted, over any run of passes and crashes. */
module ReplyBudget {
  import opened Basics

  const GESTURE_WINDOW := 60 * 60 * 1000

  datatype Caps = Caps(hourly: nat, perAuthor: nat)

  /** A mention row as the ledger reads it: `reply` is the id of the recorded reply. */
  datatype LedgerRow = LedgerRow(author: string, done: bool, reply: Option<nat>, processedAt: int)

  type RowId = nat

  datatype Budget = Budget(total: nat, byAuthor: map<string, nat>)

  /** The hourly ceiling, or the ceiling of one author. */
  type Scope = Option<string>

  predicate Covers(scope: Scope, author: string) {
    scope == None || scope == Some(author)
  }

  function Cap(caps: Caps, scope: Scope): nat {
    if scope.None? then caps.hourly else caps.perAuthor
  }

  function Spent(b: Budget, scope: Scope): nat {
    match scope
    case None => b.total
    case Some(author) => if author in b.byAuthor then b.byAuthor[author] else 0
  }

  predicate ReplyAllowed(b: Budget, author: string, caps: Caps) {
    Spent(b, None) < caps.hourly && Spent(b, Some(author)) < caps.perAuthor
  }

  function NoteReply(b: Budget, author: string): (noted: Budget)
    ensures forall scope :: Spent(noted, scope) == Spent(b, scope) + if Covers(scope, author) then 1 else 0
  {
    Budget(b.total + 1, b.byAuthor[author := Spent(b, Some(author)) + 1])
  }

  /** The rows the ledger's trailing window counts. */
  function Counted(ledger: map<RowId, LedgerRow>, cutoff: int, scope: Scope): set<RowId> {
    set id | id in ledger && ledger[id].reply.Some? && ledger[id].processedAt >= cutoff
             && Covers(scope, ledger[id].author)
  }

  /** A row counts when it holds a reply, landed within the window and, for one author, is theirs. */
  lemma CountedRows(ledger: map<RowId, LedgerRow>, cutoff: int, author: string, id: RowId)
    ensures id in Counted(ledger, cutoff, None)
            <==> id in ledger && ledger[id].reply.Some? && cutoff <= ledger[id].processedAt
    ensures id in Counted(ledger, cutoff, Some(author))
            <==> id in Counted(ledger, cutoff, None) && ledger[id].author == author
  {
  }

  function Authors(ledger: map<RowId, LedgerRow>, cutoff: int): set<string> {
    set id | id in Counted(ledger, cutoff, None) :: ledger[id].author
  }

  /** The counted rows whose author is among `authors`. */
  function CountedFor(ledger: map<RowId, LedgerRow>, cutoff: int, authors: set<string>): set<RowId> {
    set id | id in Counted(ledger, cutoff, None) && ledger[id].author in authors
  }

  lemma OneMoreGroup(ledger: map<RowId, LedgerRow>, cutoff: int, authors: set<string>, author: string)
    requires author !in authors
    ensures |CountedFor(ledger, cutoff, authors + {author})|
            == |CountedFor(ledger, cutoff, authors)| + InWindow(ledger, cutoff, Some(author))
  {
    assert CountedFor(ledger, cutoff, authors + {author})
        == CountedFor(ledger, cutoff, authors) + Counted(ledger, cutoff, Some(author));
    assert CountedFor(ledger, cutoff, authors) !! Counted(ledger, cutoff, Some(author));
  }

  function InWindow(ledger: map<RowId, LedgerRow>, cutoff: int, scope: Scope): nat {
    |Counted(ledger, cutoff, scope)|
  }

  ghost predicate Seeded(b: Budget, ledger: map<RowId, LedgerRow>, cutoff: int) {
    forall scope :: Spent(b, scope) == InWindow(ledger, cutoff, scope)
  }

  /** A row that gains a reply inside the window adds itself to its author's scopes, and to no other. */
  lemma CountsReply(ledger: map<RowId, LedgerRow>, id: RowId, row: LedgerRow, cutoff: int, scope: Scope)
    requires id in ledger ==> ledger[id].reply.None?
    requires row.reply.Some? && row.processedAt >= cutoff
    ensures InWindow(ledger[id := row], cutoff, scope)
            == InWindow(ledger, cutoff, scope) + if Covers(scope, row.author) then 1 else 0
  {
    var mine := if Covers(scope, row.author) then {id} else {};
    assert Counted(ledger[id := row], cutoff, scope) == Counted(ledger, cutoff, scope) + mine;
  }

  /** Once every author has its group, the tracker is seeded. */
  lemma AllGroups(b: Budget, ledger: map<RowId, LedgerRow>, cutoff: int)
    requires b.byAuthor.Keys == Authors(ledger, cutoff)
    requires b.total == |CountedFor(ledger, cutoff, Authors(ledger, cutoff))|
    requires forall a :: a in b.byAuthor ==> b.byAuthor[a] == InWindow(ledger, cutoff, Some(a))
    ensures Seeded(b, ledger, cutoff)
  {
    assert CountedFor(ledger, cutoff, Authors(ledger, cutoff)) == Counted(ledger, cutoff, None);
    forall author | author !in Authors(ledger, cutoff) ensures InWindow(ledger, cutoff, Some(author)) == 0 {
      assert Counted(ledger, cutoff, Some(author)) == {};
    }
    forall scope ensures Spent(b, scope) == InWindow(ledger, cutoff, scope) {
    }
  }

  /** The ledger query, one group at a time. */
  method ByAuthor(ledger: map<RowId, LedgerRow>, cutoff: int) returns (total: nat, groups: map<string, nat>)
    ensures Seeded(Budget(total, groups), ledger, cutoff)
  {
    var authors := Authors(ledger, cutoff);
    var seen: set<string> := {};
    total, groups := 0, map[];
    while seen != authors
      invariant seen <= authors
      invariant total == |CountedFor(ledger, cutoff, seen)|
      invariant groups.Keys == seen
      invariant forall a :: a in groups ==> groups[a] == InWindow(ledger, cutoff, Some(a))
      decreases authors - seen
    {
      var author :| author in authors && author !in seen;
      OneMoreGroup(ledger, cutoff, seen, author);
      var count := InWindow(ledger, cutoff, Some(author));
      total, groups, seen := total + count, groups[author := count], seen + {author};
    }
    AllGroups(Budget(total, groups), ledger, cutoff);
  }

  class GestureBudget {
    var repliesPosted: nat
    var repliesByAuthor: map<string, nat>
    const caps: Caps

    function View(): Budget
      reads this
    {
      Budget(repliesPosted, repliesByAuthor)
    }

    /** A budget pre-charged with the trailing window's ledgered replies, author by author. */
    constructor FromLedger(ledger: map<RowId, LedgerRow>, now: int, caps: Caps)
      ensures Seeded(View(), ledger, now - GESTURE_WINDOW) && this.caps == caps
    {
      var total, groups := ByAuthor(ledger, now - GESTURE_WINDOW);
      repliesPosted, repliesByAuthor := total, groups;
      this.caps := caps;
    }

    predicate Allows(author: string)
      reads this
    {
      ReplyAllowed(View(), author, caps)
    }

    method Note(author: string)
      modifies this`repliesPosted, this`repliesByAuthor
      ensures View() == NoteReply(old(View()), author)
    {
      repliesPosted := repliesPosted + 1;
      var spent := if author in repliesByAuthor then repliesByAuthor[author] else 0;
      repliesByAuthor := repliesByAuthor[author := spent + 1];
    }
  }

  // ---- One drainer, over any run

  /** A reply that reached the platform; its position in the log is its id. */
  datatype Posted = Posted(row: RowId, author: string, at: int)

  datatype Attempt = Attempt(row: RowId, posted: Option<nat>)

  /** `budget` is set during a pass, seeded at `seededAt`; `posts` is what the platform has seen. */
  datatype Bot = Bot(ledger: map<RowId, LedgerRow>, budget: Option<Budget>, seededAt: int,
                     attempt: Option<Attempt>, posts: seq<Posted>, now: int)

  datatype Event =
    | Arrive(id: RowId, author: string)
    | StartPass(seed: Budget)
    | Begin(id: RowId)
    | Post
    | Finish(reported: bool)
    | Interrupt
    | EndPass
    | Tick(dt: nat)

  ghost predicate Enabled(s: Bot, e: Event, caps: Caps) {
    match e
    case Arrive(id, _) => id !in s.ledger
    case StartPass(seed) => s.budget.None? && Seeded(seed, s.ledger, s.now - GESTURE_WINDOW)
    case Begin(id) => s.budget.Some? && s.attempt.None? && id in s.ledger && !s.ledger[id].done
    case Post =>
      && s.budget.Some? && s.attempt.Some? && s.attempt.value.posted.None? && s.attempt.value.row in s.ledger
      && ReplyAllowed(s.budget.value, s.ledger[s.attempt.value.row].author, caps)
    case Finish(_) => s.budget.Some? && s.attempt.Some? && s.attempt.value.row in s.ledger
    case Interrupt => s.budget.Some?
    case EndPass => s.budget.Some? && s.attempt.None?
    case Tick(_) => true
  }

  /** An interrupt is a crash or an error that re-queues the row: the pass ends and nothing is noted. A
      finish whose post went unreported records no reply. */
  ghost function Apply(s: Bot, e: Event, caps: Caps): Bot
    requires Enabled(s, e, caps)
  {
    match e
    case Arrive(id, author) => s.(ledger := s.ledger[id := LedgerRow(author, false, None, s.now)])
    case StartPass(seed) => s.(budget := Some(seed), seededAt := s.now, attempt := None)
    case Begin(id) =>
      s.(ledger := s.ledger[id := s.ledger[id].(processedAt := s.now)], attempt := Some(Attempt(id, None)))
    case Post =>
      var id := s.attempt.value.row;
      s.(posts := s.posts + [Posted(id, s.ledger[id].author, s.now)], attempt := Some(Attempt(id, Some(|s.posts|))))
    case Finish(reported) =>
      var id := s.attempt.value.row;
      var reply := if reported then s.attempt.value.posted else None;
      s.(ledger := s.ledger[id := LedgerRow(s.ledger[id].author, true, reply, s.now)],
         budget := if reply.Some? then Some(NoteReply(s.budget.value, s.ledger[id].author)) else s.budget,
         attempt := None)
    case Interrupt => s.(budget := None, attempt := None)
    case EndPass => s.(budget := None)
    case Tick(dt) => s.(now := s.now + dt)
  }

  predicate Recorded(s: Bot, k: nat)
    requires k < |s.posts|
  {
    s.posts[k].row in s.ledger && s.ledger[s.posts[k].row].reply == Some(k)
  }

  /** The replies posted in a stretch of time, and those of them the ledger records. */
  function PostsIn(s: Bot, scope: Scope, from: int, to: int): set<nat> {
    set k | 0 <= k < |s.posts| && Covers(scope, s.posts[k].author) && from <= s.posts[k].at <= to
  }

  function RecordedIn(s: Bot, scope: Scope, from: int, to: int): set<nat> {
    set k | k in PostsIn(s, scope, from, to) && Recorded(s, k)
  }

  function Recordings(s: Bot, scope: Scope, from: int, to: int): nat {
    |RecordedIn(s, scope, from, to)|
  }

  /** The replies recorded of the hour up to `t`. */
  function HourOf(s: Bot, scope: Scope, t: int): nat {
    Recordings(s, scope, t - GESTURE_WINDOW, t)
  }

  /** The replies recorded, up to `to`, since the tracker's window began. */
  function PassRecords(s: Bot, scope: Scope, to: int): nat {
    Recordings(s, scope, s.seededAt - GESTURE_WINDOW, to)
  }

  ghost predicate LedgerSound(s: Bot) {
    && (forall id :: id in s.ledger && s.ledger[id].reply.Some? ==>
          var k := s.ledger[id].reply.value;
          && s.ledger[id].done && k < |s.posts| && s.posts[k].row == id && s.posts[k].author == s.ledger[id].author
          && s.posts[k].at <= s.ledger[id].processedAt)
    && (forall k :: 0 <= k < |s.posts| ==> s.posts[k].at <= s.now)
  }

  ghost predicate AttemptSound(s: Bot, caps: Caps) {
    s.attempt.Some? ==>
      var id := s.attempt.value.row;
      && s.budget.Some? && id in s.ledger && !s.ledger[id].done
      && (s.attempt.value.posted.Some? ==>
            var k := s.attempt.value.posted.value;
            && k < |s.posts| && s.posts[k].row == id && s.posts[k].author == s.ledger[id].author
            && s.posts[k].at >= s.seededAt
            && ReplyAllowed(s.budget.value, s.ledger[id].author, caps))
  }

  /** During a pass the tracker is never behind the replies recorded since its window began. */
  ghost predicate BudgetSound(s: Bot) {
    s.budget.Some? ==>
      s.seededAt <= s.now && forall scope, to :: PassRecords(s, scope, to) <= Spent(s.budget.value, scope)
  }

  ghost predicate WithinCaps(s: Bot, caps: Caps) {
    forall scope, t :: HourOf(s, scope, t) <= Cap(caps, scope)
  }

  ghost predicate Inv(s: Bot, caps: Caps) {
    LedgerSound(s) && AttemptSound(s, caps) && BudgetSound(s) && WithinCaps(s, caps)
  }

  /** Recorded replies are on distinct rows, so there are at most as many as counted rows. */
  lemma {:induction false} RecordedRows(s: Bot, ks: set<nat>, rows: set<RowId>)
    requires forall k :: k in ks ==> k < |s.posts| && Recorded(s, k) && s.posts[k].row in rows
    ensures |ks| <= |rows|
  {
    if k :| k in ks {
      forall j | j in ks - {k} ensures s.posts[j].row in rows - {s.posts[k].row} {
        assert Recorded(s, j) && Recorded(s, k);
      }
      RecordedRows(s, ks - {k}, rows - {s.posts[k].row});
    }
  }

  lemma SeedCovers(s: Bot, seed: Budget)
    requires LedgerSound(s) && s.seededAt == s.now && Seeded(seed, s.ledger, s.now - GESTURE_WINDOW)
    ensures forall scope, to :: PassRecords(s, scope, to) <= Spent(seed, scope)
  {
    forall scope, to ensures PassRecords(s, scope, to) <= Spent(seed, scope) {
      RecordedRows(s, RecordedIn(s, scope, s.now - GESTURE_WINDOW, to),
                   Counted(s.ledger, s.now - GESTURE_WINDOW, scope));
      assert Spent(seed, scope) == InWindow(s.ledger, s.now - GESTURE_WINDOW, scope);
    }
  }

  /** Nothing newly recorded. */
  ghost predicate NoNewRecord(s: Bot, t: Bot) {
    && |s.posts| <= |t.posts| && s.posts == t.posts[..|s.posts|]
    && forall k :: 0 <= k < |t.posts| && Recorded(t, k) ==> k < |s.posts| && Recorded(s, k)
  }

  lemma SameRecords(s: Bot, t: Bot, scope: Scope, from: int, to: int)
    requires NoNewRecord(s, t)
    ensures Recordings(t, scope, from, to) <= Recordings(s, scope, from, to)
  {
    assert RecordedIn(t, scope, from, to) <= RecordedIn(s, scope, from, to);
    SubsetSize(RecordedIn(t, scope, from, to), RecordedIn(s, scope, from, to));
  }

  /** Whether a finish puts the attempt's post on the ledger. */
  predicate Records(s: Bot, e: Event) {
    e == Finish(true) && s.attempt.Some? && s.attempt.value.posted.Some?
  }

  lemma LedgerKept(s: Bot, e: Event, caps: Caps)
    requires LedgerSound(s) && AttemptSound(s, caps) && Enabled(s, e, caps)
    ensures LedgerSound(Apply(s, e, caps))
  {
  }

  lemma NothingNew(s: Bot, e: Event, caps: Caps)
    requires LedgerSound(s) && AttemptSound(s, caps) && Enabled(s, e, caps) && !Records(s, e)
    ensures NoNewRecord(s, Apply(s, e, caps))
  {
  }

  lemma AttemptKept(s: Bot, e: Event, caps: Caps)
    requires Inv(s, caps) && Enabled(s, e, caps)
    ensures AttemptSound(Apply(s, e, caps), caps)
  {
  }

  /** A finish adds the attempt's post, and no other, to the windows that hold it. */
  lemma OneMoreRecord(s: Bot, caps: Caps, scope: Scope, from: int, to: int)
    requires LedgerSound(s) && AttemptSound(s, caps) && Records(s, Finish(true))
    ensures var k := s.attempt.value.posted.value;
            Recordings(Apply(s, Finish(true), caps), scope, from, to) <= Recordings(s, scope, from, to)
              + if Covers(scope, s.posts[k].author) && from <= s.posts[k].at <= to then 1 else 0
  {
    var t, k := Apply(s, Finish(true), caps), s.attempt.value.posted.value;
    forall j | 0 <= j < |s.posts| && Recorded(t, j) ensures j == k || Recorded(s, j) {
    }
    var added := if Covers(scope, s.posts[k].author) && from <= s.posts[k].at <= to then {k} else {};
    assert RecordedIn(t, scope, from, to) <= RecordedIn(s, scope, from, to) + added;
    SubsetSize(RecordedIn(t, scope, from, to), RecordedIn(s, scope, from, to) + added);
  }

  /** Any window that holds the attempt's post starts no earlier than the tracker's own, so the check
      made before posting covers the window's other replies. */
  lemma RoomForOneMore(s: Bot, caps: Caps, scope: Scope, to: int)
    requires Inv(s, caps) && Records(s, Finish(true))
    ensures HourOf(Apply(s, Finish(true), caps), scope, to) <= Cap(caps, scope)
  {
    var k := s.attempt.value.posted.value;
    OneMoreRecord(s, caps, scope, to - GESTURE_WINDOW, to);
    assert HourOf(s, scope, to) <= Cap(caps, scope);
    if Covers(scope, s.posts[k].author) && to - GESTURE_WINDOW <= s.posts[k].at <= to {
      var ours := RecordedIn(s, scope, to - GESTURE_WINDOW, to);
      var seeds := RecordedIn(s, scope, s.seededAt - GESTURE_WINDOW, to);
      assert ours <= seeds;
      SubsetSize(ours, seeds);
      assert PassRecords(s, scope, to) <= Spent(s.budget.value, scope) < Cap(caps, scope);
    }
  }

  lemma TrackerCountsRecord(s: Bot, caps: Caps, scope: Scope, to: int)
    requires LedgerSound(s) && AttemptSound(s, caps) && Records(s, Finish(true))
    requires PassRecords(s, scope, to) <= Spent(s.budget.value, scope)
    ensures var t := Apply(s, Finish(true), caps);
            t.budget.Some? && PassRecords(t, scope, to) <= Spent(t.budget.value, scope)
  {
    OneMoreRecord(s, caps, scope, s.seededAt - GESTURE_WINDOW, to);
  }

  lemma TrackerKeepsUp(s: Bot, e: Event, caps: Caps, scope: Scope, to: int)
    requires Inv(s, caps) && Enabled(s, e, caps) && !e.StartPass? && Apply(s, e, caps).budget.Some?
    ensures PassRecords(Apply(s, e, caps), scope, to) <= Spent(Apply(s, e, caps).budget.value, scope)
  {
    assert PassRecords(s, scope, to) <= Spent(s.budget.value, scope);
    if Records(s, e) {
      TrackerCountsRecord(s, caps, scope, to);
    } else {
      NothingNew(s, e, caps);
      SameRecords(s, Apply(s, e, caps), scope, s.seededAt - GESTURE_WINDOW, to);
    }
  }

  lemma BudgetKept(s: Bot, e: Event, caps: Caps)
    requires Inv(s, caps) && Enabled(s, e, caps)
    ensures BudgetSound(Apply(s, e, caps))
  {
    var t := Apply(s, e, caps);
    if e.StartPass? {
      LedgerKept(s, e, caps);
      SeedCovers(t, e.seed);
    } else if t.budget.Some? {
      forall scope, to ensures PassRecords(t, scope, to) <= Spent(t.budget.value, scope) {
        TrackerKeepsUp(s, e, caps, scope, to);
      }
    }
  }

  lemma StepKeepsInv(s: Bot, e: Event, caps: Caps)
    requires Inv(s, caps) && Enabled(s, e, caps)
    ensures Inv(Apply(s, e, caps), caps)
  {
    LedgerKept(s, e, caps);
    AttemptKept(s, e, caps);
    BudgetKept(s, e, caps);
    forall scope, to ensures HourOf(Apply(s, e, caps), scope, to) <= Cap(caps, scope) {
      if Records(s, e) {
        RoomForOneMore(s, caps, scope, to);
      } else {
        NothingNew(s, e, caps);
        SameRecords(s, Apply(s, e, caps), scope, to - GESTURE_WINDOW, to);
        assert HourOf(s, scope, to) <= Cap(caps, scope);
      }
    }
  }

  ghost predicate Possible(s: Bot, events: seq<Event>, caps: Caps)
    decreases events
  {
    events == [] || (Enabled(s, events[0], caps) && Possible(Apply(s, events[0], caps), events[1..], caps))
  }

  ghost function Run(s: Bot, events: seq<Event>, caps: Caps): Bot
    requires Possible(s, events, caps)
    decreases events
  {
    if events == [] then s else Run(Apply(s, events[0], caps), events[1..], caps)
  }

  lemma {:induction false} RunKeepsInv(s: Bot, events: seq<Event>, caps: Caps)
    requires Inv(s, caps) && Possible(s, events, caps)
    ensures Inv(Run(s, events, caps), caps)
    decreases events
  {
    if events != [] {
      StepKeepsInv(s, events[0], caps);
      RunKeepsInv(Apply(s, events[0], caps), events[1..], caps);
    }
  }

  lemma {:induction false} RunAppend(s: Bot, first: seq<Event>, later: seq<Event>, caps: Caps)
    requires Possible(s, first, caps) && Possible(Run(s, first, caps), later, caps)
    ensures Possible(s, first + later, caps) && Run(s, first + later, caps) == Run(Run(s, first, caps), later, caps)
    decreases first
  {
    if first == [] {
      assert first + later == later;
    } else {
      assert (first + later)[0] == first[0] && (first + later)[1..] == first[1..] + later;
      RunAppend(Apply(s, first[0], caps), first[1..], later, caps);
    }
  }

  lemma RunCons(s: Bot, e: Event, rest: seq<Event>, caps: Caps)
    requires Enabled(s, e, caps) && Possible(Apply(s, e, caps), rest, caps)
    ensures Possible(s, [e] + rest, caps) && Run(s, [e] + rest, caps) == Run(Apply(s, e, caps), rest, caps)
  {
    assert ([e] + rest)[1..] == rest;
  }

  // ---- One attempt, as a table of mentions sees it

  /** Two ledgers that count the same replies; the ids of the replies may differ. */
  ghost predicate Mirrors(s: map<RowId, LedgerRow>, t: map<RowId, LedgerRow>) {
    s.Keys == t.Keys && forall id :: id in s ==> Alike(s[id], t[id])
  }

  predicate Alike(a: LedgerRow, b: LedgerRow) {
    && a.author == b.author && a.done == b.done && a.reply.Some? == b.reply.Some?
    && (a.reply.Some? ==> a.processedAt == b.processedAt)
  }

  lemma MirrorsSeed(s: map<RowId, LedgerRow>, t: map<RowId, LedgerRow>, b: Budget, cutoff: int)
    requires Mirrors(s, t) && Seeded(b, t, cutoff)
    ensures Seeded(b, s, cutoff)
  {
    forall scope ensures Spent(b, scope) == InWindow(s, cutoff, scope) {
      assert Counted(s, cutoff, scope) == Counted(t, cutoff, scope);
      assert Spent(b, scope) == InWindow(t, cutoff, scope);
    }
  }

  /** What an attempt does after its claim: `replied` is a post it reports, `lost` one it does not. */
  datatype Effect = Landing(replied: bool, lost: bool) | Failing(lost: bool)

  predicate Posts(f: Effect) {
    f.lost || (f.Landing? && f.replied)
  }

  function Closing(f: Effect): Event {
    if f.Failing? then Interrupt else Finish(f.replied || !f.lost)
  }

  /** The tracker once the attempt ends; an error ends the pass. */
  function BudgetAfter(b: Budget, author: string, f: Effect): Option<Budget> {
    if f.Failing? then None else if f.replied then Some(NoteReply(b, author)) else Some(b)
  }

  /** From its claim to its end, an attempt is a run of the bot. */
  lemma AttemptRuns(s: Bot, id: RowId, claimedAt: int, landedAt: int, f: Effect, caps: Caps)
    returns (events: seq<Event>)
    requires s.budget.Some? && s.attempt.None? && id in s.ledger && !s.ledger[id].done
    requires s.now <= claimedAt <= landedAt && !(f.Landing? && f.replied && f.lost)
    requires Posts(f) ==> ReplyAllowed(s.budget.value, s.ledger[id].author, caps)
    ensures Possible(s, events, caps)
    ensures var t, row := Run(s, events, caps), s.ledger[id];
            && t.now == landedAt && t.attempt.None? && t.budget == BudgetAfter(s.budget.value, row.author, f)
            && t.ledger.Keys == s.ledger.Keys && (forall x :: x in s.ledger && x != id ==> t.ledger[x] == s.ledger[x])
            && t.ledger[id].author == row.author && (t.ledger[id].done <==> f.Landing?)
            && (f.Landing? ==> (t.ledger[id].reply.Some? <==> f.replied) && t.ledger[id].processedAt == landedAt)
            && (f.Failing? ==> t.ledger[id].reply == row.reply)
  {
    var begun := Apply(Apply(s, Tick(claimedAt - s.now), caps), Begin(id), caps);
    var end := Apply(begun, Tick(landedAt - claimedAt), caps);
    var closing := [Closing(f)];
    if Posts(f) {
      RunOne(Apply(end, Post, caps), Closing(f), caps);
      RunCons(end, Post, [Closing(f)], caps);
      closing := [Post] + closing;
    } else {
      RunOne(end, Closing(f), caps);
    }
    RunCons(begun, Tick(landedAt - claimedAt), closing, caps);
    RunCons(Apply(s, Tick(claimedAt - s.now), caps), Begin(id), [Tick(landedAt - claimedAt)] + closing, caps);
    events := [Tick(claimedAt - s.now)] + ([Begin(id)] + ([Tick(landedAt - claimedAt)] + closing));
    RunCons(s, Tick(claimedAt - s.now), [Begin(id)] + ([Tick(landedAt - claimedAt)] + closing), caps);
  }

  lemma RunOne(s: Bot, e: Event, caps: Caps)
    requires Enabled(s, e, caps)
    ensures Possible(s, [e], caps) && Run(s, [e], caps) == Apply(s, e, caps)
  {
    RunCons(s, e, [], caps);
    assert [e] + [] == [e];
  }

  // ---- Posts the ledger never records

  /** A scope over a stretch of time. */
  datatype Window = Window(scope: Scope, from: int, to: int)

  predicate Holds(v: Window, post: Posted) {
    Covers(v.scope, post.author) && v.from <= post.at <= v.to
  }

  /** The window's posts the ledger does not record. */
  function Unrecorded(s: Bot, v: Window): set<nat> {
    set k | k in PostsIn(s, v.scope, v.from, v.to) && !Recorded(s, k)
  }

  /** Whether the attempt under way has posted in the window. */
  function Pending(s: Bot, v: Window): nat {
    if s.attempt.Some? && s.attempt.value.posted.Some? && s.attempt.value.posted.value < |s.posts|
       && Holds(v, s.posts[s.attempt.value.posted.value]) then 1 else 0
  }

  /** Whether an event cuts an attempt off between its post in the window and the ledger: an interrupt
      before the finish commits, or a finish that was never told of the post. */
  function Cut(s: Bot, e: Event, v: Window): nat {
    if e.Interrupt? || e == Finish(false) then Pending(s, v) else 0
  }

  ghost function Cuts(s: Bot, events: seq<Event>, caps: Caps, v: Window): nat
    requires Possible(s, events, caps)
    decreases events
  {
    if events == [] then 0 else Cut(s, events[0], v) + Cuts(Apply(s, events[0], caps), events[1..], caps, v)
  }

  lemma RecordsStay(s: Bot, e: Event, caps: Caps, k: nat)
    requires LedgerSound(s) && AttemptSound(s, caps) && Enabled(s, e, caps) && k < |s.posts| && Recorded(s, k)
    ensures k < |Apply(s, e, caps).posts| && Recorded(Apply(s, e, caps), k)
  {
  }

  /** An event that neither posts nor records loses no post. */
  lemma QuietLosesNothing(s: Bot, e: Event, caps: Caps, v: Window)
    requires LedgerSound(s) && AttemptSound(s, caps) && Enabled(s, e, caps) && !e.Post?
    ensures |Unrecorded(Apply(s, e, caps), v)| <= |Unrecorded(s, v)|
  {
    forall k | k in Unrecorded(Apply(s, e, caps), v) ensures k in Unrecorded(s, v) {
      if Recorded(s, k) {
        RecordsStay(s, e, caps, k);
      }
    }
    SubsetSize(Unrecorded(Apply(s, e, caps), v), Unrecorded(s, v));
  }

  /** A post is unrecorded and pending at once. */
  lemma PostIsPending(s: Bot, caps: Caps, v: Window)
    requires Inv(s, caps) && Enabled(s, Post, caps)
    ensures |Unrecorded(Apply(s, Post, caps), v)| <= |Unrecorded(s, v)| + Pending(Apply(s, Post, caps), v)
            && Pending(s, v) == 0
  {
    var t := Apply(s, Post, caps);
    var mine := if Pending(t, v) == 1 then {|s.posts|} else {};
    forall k | k in Unrecorded(t, v) ensures k in Unrecorded(s, v) + mine {
      if k < |s.posts| && Recorded(s, k) {
        RecordsStay(s, Post, caps, k);
      }
    }
    SubsetSize(Unrecorded(t, v), Unrecorded(s, v) + mine);
  }

  /** A finish that records takes its post off the lost ones. */
  lemma RecordingFinds(s: Bot, caps: Caps, v: Window)
    requires Inv(s, caps) && Enabled(s, Finish(true), caps) && Records(s, Finish(true))
    ensures |Unrecorded(Apply(s, Finish(true), caps), v)| <= |Unrecorded(s, v)| - Pending(s, v)
  {
    var t, k := Apply(s, Finish(true), caps), s.attempt.value.posted.value;
    assert !Recorded(s, k) && Recorded(t, k);
    var mine := if Pending(s, v) == 1 then {k} else {};
    forall j | j in Unrecorded(t, v) ensures j in Unrecorded(s, v) - mine {
      if Recorded(s, j) {
        RecordsStay(s, Finish(true), caps, j);
      }
    }
    SubsetSize(Unrecorded(t, v), Unrecorded(s, v) - mine);
  }

  lemma UnrecordedOnlyByCuts(s: Bot, e: Event, caps: Caps, v: Window)
    requires Inv(s, caps) && Enabled(s, e, caps)
    ensures |Unrecorded(Apply(s, e, caps), v)| - Pending(Apply(s, e, caps), v)
            <= |Unrecorded(s, v)| - Pending(s, v) + Cut(s, e, v)
  {
    if Records(s, e) {
      RecordingFinds(s, caps, v);
    } else if e.Post? {
      PostIsPending(s, caps, v);
    } else {
      QuietLosesNothing(s, e, caps, v);
    }
  }

  lemma {:induction false} RunLosesOnlyByCuts(s: Bot, events: seq<Event>, caps: Caps, v: Window)
    requires Inv(s, caps) && Possible(s, events, caps)
    ensures var t := Run(s, events, caps);
            |Unrecorded(t, v)| - Pending(t, v) <= |Unrecorded(s, v)| - Pending(s, v) + Cuts(s, events, caps, v)
    decreases events
  {
    if events != [] {
      StepKeepsInv(s, events[0], caps);
      UnrecordedOnlyByCuts(s, events[0], caps, v);
      RunLosesOnlyByCuts(Apply(s, events[0], caps), events[1..], caps, v);
    }
  }

  function Idle(start: int): Bot {
    Bot(map[], None, start, None, [], start)
  }

  lemma IdleSound(start: int, caps: Caps, v: Window)
    ensures Inv(Idle(start), caps) && Unrecorded(Idle(start), v) == {}
  {
  }

  /** The sliding-window ceilings over any run of passes, crashes and re-queues: in every trailing hour
      the replies actually posted, overall and per author, are at most the cap plus the attempts whose
      post in that same hour and scope was cut off from the ledger, or is still under way. */
  lemma CeilingsHold(events: seq<Event>, caps: Caps, start: int, scope: Scope, t: int)
    requires Possible(Idle(start), events, caps)
    ensures var s, hour := Run(Idle(start), events, caps), Window(scope, t - GESTURE_WINDOW, t);
            |PostsIn(s, scope, t - GESTURE_WINDOW, t)|
            <= Cap(caps, scope) + Cuts(Idle(start), events, caps, hour) + Pending(s, hour)
  {
    var s, hour := Run(Idle(start), events, caps), Window(scope, t - GESTURE_WINDOW, t);
    IdleSound(start, caps, hour);
    RunKeepsInv(Idle(start), events, caps);
    RunLosesOnlyByCuts(Idle(start), events, caps, hour);
    assert HourOf(s, scope, t) <= Cap(caps, scope);
    assert PostsIn(s, scope, t - GESTURE_WINDOW, t)
        == RecordedIn(s, scope, t - GESTURE_WINDOW, t) + Unrecorded(s, hour);
  }
}
