/** Soft deletion and its undo: one timestamp on a row encodes both that an event was taken down on its
    own and that it went with its owner. */
module SoftDelete {
  import opened Basics

  type UserId = nat
  type EventId = nat

  datatype User = User(deletedAt: Option<int>, tokenVersion: nat, handle: Option<string>)

  datatype Credit = Credit(user: UserId, active: bool, joinedAt: int)

  datatype Event = Event(owner: UserId, deletedAt: Option<int>, credits: seq<Credit>)

  datatype Tables = Tables(users: map<UserId, User>, events: map<EventId, Event>)

  // ---- Heirs

  predicate Inherits(c: Credit, owner: UserId, gone: set<UserId>) {
    c.user != owner && c.active && c.user !in gone
  }

  /** Earlier to join, and on a tie the lower id. */
  predicate Precedes(c: Credit, d: Credit) {
    c.joinedAt < d.joinedAt || (c.joinedAt == d.joinedAt && c.user < d.user)
  }

  /** The co-analyst an owner's event passes to. */
  function Heir(credits: seq<Credit>, owner: UserId, gone: set<UserId>): Option<Credit> {
    if credits == [] then None
    else
      var c, best := Last(credits), Heir(Init(credits), owner, gone);
      if !Inherits(c, owner, gone) then best
      else if best.Some? && !Precedes(c, best.value) then best
      else Some(c)
  }

  lemma {:induction false} HeirIsEarliest(credits: seq<Credit>, owner: UserId, gone: set<UserId>)
    ensures Heir(credits, owner, gone).None? <==> forall c :: c in credits ==> !Inherits(c, owner, gone)
    ensures forall c :: c in credits ==> (Inherits(c, owner, gone) <==> c.active && c.user != owner && c.user !in gone)
    ensures forall c, d: Credit :: Precedes(c, d) <==>
              c.joinedAt < d.joinedAt || (c.joinedAt == d.joinedAt && c.user < d.user)
    ensures var heir := Heir(credits, owner, gone);
            heir.Some? ==> heir.value in credits && Inherits(heir.value, owner, gone)
                           && forall c :: c in credits && Inherits(c, owner, gone) ==> !Precedes(c, heir.value)
  {
    if credits != [] {
      HeirIsEarliest(Init(credits), owner, gone);
      assert credits == Init(credits) + [Last(credits)];
    }
  }

  // ---- The operations on the tables

  function Gone(users: map<UserId, User>): set<UserId> {
    set u | u in users && users[u].deletedAt.Some?
  }

  predicate LiveOf(e: Event, u: UserId) {
    e.owner == u && e.deletedAt.None?
  }

  function LiveEvents(t: Tables, u: UserId): set<EventId> {
    set id | id in t.events && LiveOf(t.events[id], u)
  }

  /** The owner's live events that pass to a co-analyst, and those that do not. */
  function HandedOver(t: Tables, u: UserId): set<EventId> {
    set id | id in t.events && LiveOf(t.events[id], u) && Heir(t.events[id].credits, u, Gone(t.users)).Some?
  }

  function Cascaded(t: Tables, u: UserId): set<EventId> {
    set id | id in t.events && LiveOf(t.events[id], u) && Heir(t.events[id].credits, u, Gone(t.users)).None?
  }

  function PassOn(e: Event, u: UserId, gone: set<UserId>): Event {
    if LiveOf(e, u) && Heir(e.credits, u, gone).Some? then e.(owner := Heir(e.credits, u, gone).value.user) else e
  }

  function Hide(e: Event, u: UserId, now: int): Event {
    if LiveOf(e, u) then e.(deletedAt := Some(now)) else e
  }

  function Unhide(e: Event, u: UserId, stamp: Option<int>): Event {
    if e.owner == u && e.deletedAt == stamp then e.(deletedAt := None) else e
  }

  function DeleteEvent(t: Tables, id: EventId, now: int): Tables {
    if id in t.events && t.events[id].deletedAt.None? then StampEvent(t, id, now) else t
  }

  function StampEvent(t: Tables, id: EventId, now: int): Tables
    requires id in t.events
  {
    t.(events := t.events[id := t.events[id].(deletedAt := Some(now))])
  }

  /** What a ban writes: hand the shared events over, then hide the rest under the user's own stamp. */
  function WriteBan(t: Tables, u: UserId, now: int): Tables
    requires u in t.users
  {
    Tables(t.users[u := User(Some(now), t.users[u].tokenVersion + 1, None)],
           map id | id in t.events :: Hide(PassOn(t.events[id], u, Gone(t.users)), u, now))
  }

  function DeleteUser(t: Tables, u: UserId, now: int): Tables {
    if u !in t.users || t.users[u].deletedAt.Some? then t else WriteBan(t, u, now)
  }

  function RestoreUser(t: Tables, u: UserId): Tables {
    if u !in t.users || t.users[u].deletedAt.None? then t
    else
      Tables(t.users[u := t.users[u].(deletedAt := None)],
             map id | id in t.events :: Unhide(t.events[id], u, t.users[u].deletedAt))
  }

  class Moderation {
    var users: map<UserId, User>
    var events: map<EventId, Event>

    function View(): Tables
      reads this
    {
      Tables(users, events)
    }

    method SoftDeleteEvent(id: EventId, now: int) returns (found: bool)
      modifies this
      ensures View() == DeleteEvent(old(View()), id, now) && (found <==> id in old(events))
    {
      if id !in events {
        return false;
      }
      if events[id].deletedAt.None? {
        events := events[id := events[id].(deletedAt := Some(now))];
      }
      return true;
    }

    /** Returns the events hidden with the user and the events handed over. */
    method SoftDeleteUser(u: UserId, now: int) returns (result: Option<(nat, nat)>)
      modifies this
      ensures View() == DeleteUser(old(View()), u, now)
      ensures result.None? <==> u !in old(users)
      ensures result.Some? ==>
                result.value == if old(users)[u].deletedAt.Some? then (0, 0)
                                else (|Cascaded(old(View()), u)|, |HandedOver(old(View()), u)|)
    {
      if u !in users {
        return None;
      }
      if users[u].deletedAt.Some? {
        return Some((0, 0));
      }
      var gone, transferred := Gone(users), HandedOver(View(), u);
      events := map id | id in events :: PassOn(events[id], u, gone);
      users := users[u := User(Some(now), users[u].tokenVersion + 1, None)];
      var cascaded := set id | id in events && LiveOf(events[id], u);
      HiddenAreCascaded(old(View()), u);
      assert cascaded == Cascaded(old(View()), u);
      events := map id | id in events :: Hide(events[id], u, now);
      return Some((|cascaded|, |transferred|));
    }

    /** Returns how many events came back. */
    method Restore(u: UserId) returns (result: Option<nat>)
      modifies this
      ensures View() == RestoreUser(old(View()), u)
      ensures result.None? <==> u !in old(users)
      ensures result.Some? ==>
                result.value == if old(users)[u].deletedAt.None? then 0 else |Restorable(old(View()), u)|
    {
      if u !in users {
        return None;
      }
      if users[u].deletedAt.None? {
        return Some(0);
      }
      var stamp := users[u].deletedAt;
      var restorable := set id | id in events && events[id].owner == u && events[id].deletedAt == stamp;
      assert restorable == Restorable(old(View()), u);
      events := map id | id in events :: Unhide(events[id], u, stamp);
      users := users[u := users[u].(deletedAt := None)];
      return Some(|restorable|);
    }
  }

  /** The events a restore brings back: the user's own that bear the user's stamp. */
  function Restorable(t: Tables, u: UserId): set<EventId>
    requires u in t.users
  {
    set id | id in t.events && t.events[id].owner == u && t.events[id].deletedAt == t.users[u].deletedAt
  }

  /** What is still the user's and live once the shared events are handed over is what cascades. */
  lemma HiddenAreCascaded(t: Tables, u: UserId)
    ensures (set id | id in t.events && LiveOf(PassOn(t.events[id], u, Gone(t.users)), u)) == Cascaded(t, u)
  {
    forall id | id in t.events ensures LiveOf(PassOn(t.events[id], u, Gone(t.users)), u) <==> id in Cascaded(t, u) {
      HeirIsEarliest(t.events[id].credits, u, Gone(t.users));
    }
  }

  /** Conservation: the user's live events are exactly those that cascade and those handed over. */
  lemma LiveSplit(t: Tables, u: UserId)
    ensures LiveEvents(t, u) == Cascaded(t, u) + HandedOver(t, u) && Cascaded(t, u) !! HandedOver(t, u)
    ensures |LiveEvents(t, u)| == |Cascaded(t, u)| + |HandedOver(t, u)|
  {
  }

  // ---- The two facts the stamp encodes

  /** An event with its two flags apart: taken down on its own, or hidden with its owner. */
  datatype Flagged = Flagged(owner: UserId, credits: seq<Credit>, removed: bool, under: bool)

  datatype Flags = Flags(gone: set<UserId>, events: map<EventId, Flagged>)

  /** A takedown and a ban read their row, unlocked, before they write it. A late one read it live, and writes
      it after another has marked it deleted. */
  datatype Step =
    | AddUser(u: UserId, handle: Option<string>)
    | AddEvent(id: EventId, owner: UserId)
    | Recredit(id: EventId, credits: seq<Credit>)
    | TakeDown(id: EventId, at: int)
    | LateTakeDown(id: EventId, at: int)
    | Ban(u: UserId, at: int)
    | LateBan(u: UserId, at: int)
    | Restore(u: UserId)

  /** New rows are new; a stamp is distinct from those of the owner and of the owned events. */
  predicate Enabled(t: Tables, s: Step) {
    match s
    case AddUser(u, _) => u !in t.users && forall id :: id in t.events ==> t.events[id].owner != u
    case AddEvent(id, _) => id !in t.events
    case Recredit(id, _) => id in t.events
    case TakeDown(id, at) =>
      id in t.events && t.events[id].owner in t.users ==> t.users[t.events[id].owner].deletedAt != Some(at)
    case LateTakeDown(id, at) =>
      && id in t.events && t.events[id].deletedAt.Some?
      && (t.events[id].owner in t.users ==> t.users[t.events[id].owner].deletedAt != Some(at))
    case Ban(u, at) => NewStamp(t, u, at)
    case LateBan(u, at) => u in t.users && t.users[u].deletedAt.Some? && NewStamp(t, u, at)
    case Restore(_) => true
  }

  predicate NewStamp(t: Tables, u: UserId, at: int) {
    forall id :: id in t.events && t.events[id].owner == u ==> t.events[id].deletedAt != Some(at)
  }

  function Apply(t: Tables, s: Step): Tables
    requires Enabled(t, s)
  {
    match s
    case AddUser(u, handle) => t.(users := t.users[u := User(None, 0, handle)])
    case AddEvent(id, owner) => t.(events := t.events[id := Event(owner, None, [])])
    case Recredit(id, credits) =>
      if id in t.events then t.(events := t.events[id := t.events[id].(credits := credits)]) else t
    case TakeDown(id, at) => DeleteEvent(t, id, at)
    case LateTakeDown(id, at) => StampEvent(t, id, at)
    case Ban(u, at) => DeleteUser(t, u, at)
    case LateBan(u, at) => WriteBan(t, u, at)
    case Restore(u) => RestoreUser(t, u)
  }

  /** The same steps on flags, no stamp in sight. */
  function Flag(f: Flags, known: set<UserId>, s: Step): Flags {
    match s
    case AddUser(_, _) => f
    case AddEvent(id, owner) => f.(events := f.events[id := Flagged(owner, [], false, false)])
    case Recredit(id, credits) =>
      if id in f.events then f.(events := f.events[id := f.events[id].(credits := credits)]) else f
    case TakeDown(id, _) =>
      if id in f.events && !f.events[id].under then f.(events := f.events[id := f.events[id].(removed := true)]) else f
    case LateTakeDown(id, _) =>
      if id in f.events then f.(events := f.events[id := f.events[id].(removed := true, under := false)]) else f
    case Ban(u, _) => if u !in known || u in f.gone then f else Banned(f, u)
    case LateBan(u, _) => Banned(f, u)
    case Restore(u) =>
      if u !in f.gone then f
      else Flags(f.gone - {u}, map id | id in f.events :: if f.events[id].owner == u then f.events[id].(under := false)
                                                         else f.events[id])
  }

  function Banned(f: Flags, u: UserId): Flags {
    Flags(f.gone + {u}, map id | id in f.events :: Cascade(f.events[id], u, f.gone))
  }

  function Cascade(e: Flagged, u: UserId, gone: set<UserId>): Flagged {
    if e.owner != u || e.removed || e.under then e
    else
      var heir := Heir(e.credits, u, gone);
      if heir.Some? then e.(owner := heir.value.user) else e.(under := true)
  }

  /** The row's stamp says what the flags say. */
  predicate Matches(users: map<UserId, User>, e: Event, f: Flagged) {
    && e.owner == f.owner && e.credits == f.credits && !(f.removed && f.under)
    && (e.deletedAt.Some? <==> f.removed || f.under)
    && (f.under <==> e.owner in users && e.deletedAt.Some? && users[e.owner].deletedAt == e.deletedAt)
  }

  ghost predicate Refines(t: Tables, f: Flags) {
    && f.gone == Gone(t.users) && t.events.Keys == f.events.Keys
    && forall id :: id in t.events ==> Matches(t.users, t.events[id], f.events[id])
  }

  /** A late ban finds nothing a restore of the user would bring back. */
  predicate InTurn(t: Tables, s: Step)
    requires Enabled(t, s)
  {
    s.LateBan? ==> Restorable(t, s.u) == {}
  }

  lemma StepRefines(t: Tables, f: Flags, s: Step)
    requires Refines(t, f) && Enabled(t, s) && InTurn(t, s)
    ensures Refines(Apply(t, s), Flag(f, t.users.Keys, s))
  {
    var next, flags := Apply(t, s), Flag(f, t.users.Keys, s);
    StepMovesGone(t, f, s);
    forall id | id in next.events ensures Matches(next.users, next.events[id], flags.events[id]) {
      if id in t.events {
        StepMatches(t, f, s, id);
      }
    }
  }

  lemma StepMovesGone(t: Tables, f: Flags, s: Step)
    requires Refines(t, f) && Enabled(t, s)
    ensures Flag(f, t.users.Keys, s).gone == Gone(Apply(t, s).users)
    ensures Apply(t, s).events.Keys == Flag(f, t.users.Keys, s).events.Keys
  {
  }

  lemma StepMatches(t: Tables, f: Flags, s: Step, id: EventId)
    requires Refines(t, f) && Enabled(t, s) && InTurn(t, s) && id in t.events
    ensures id in Apply(t, s).events && id in Flag(f, t.users.Keys, s).events
    ensures Matches(Apply(t, s).users, Apply(t, s).events[id], Flag(f, t.users.Keys, s).events[id])
  {
    assert Matches(t.users, t.events[id], f.events[id]);
    if s.LateBan? || (s.Ban? && s.u in t.users && t.users[s.u].deletedAt.None?) {
      assert s.LateBan? ==> id !in Restorable(t, s.u);
      BanMatches(t, f, s.u, s.at, id);
    }
  }

  /** A written ban leaves every event matched but those that were under an earlier one. */
  lemma BanMatches(t: Tables, f: Flags, u: UserId, now: int, id: EventId)
    requires Refines(t, f) && u in t.users && NewStamp(t, u, now) && id in t.events
    ensures Matches(WriteBan(t, u, now).users, WriteBan(t, u, now).events[id], Banned(f, u).events[id])
            <==> !(t.events[id].owner == u && f.events[id].under)
  {
    assert Matches(t.users, t.events[id], f.events[id]);
    HeirIsEarliest(t.events[id].credits, u, Gone(t.users));
  }

  /** Of two overlapping bans of a user, the one written late keeps the stamps in step with the flags if and
      only if a restore, just before, would bring nothing back: it stamps the user anew, and not the events. */
  lemma LateBanExact(t: Tables, f: Flags, u: UserId, at: int)
    requires Refines(t, f) && Enabled(t, LateBan(u, at))
    ensures Refines(Apply(t, LateBan(u, at)), Flag(f, t.users.Keys, LateBan(u, at))) <==> Restorable(t, u) == {}
    ensures Restorable(t, u) !! Restorable(Apply(t, LateBan(u, at)), u)
  {
    var s := LateBan(u, at);
    if Restorable(t, u) == {} {
      StepRefines(t, f, s);
    } else {
      var id :| id in Restorable(t, u);
      assert Matches(t.users, t.events[id], f.events[id]);
      BanMatches(t, f, u, at, id);
    }
  }

  ghost predicate Possible(t: Tables, steps: seq<Step>)
    decreases steps
  {
    steps == [] || (Enabled(t, steps[0]) && Possible(Apply(t, steps[0]), steps[1..]))
  }

  function Run(t: Tables, steps: seq<Step>): Tables
    requires Possible(t, steps)
    decreases steps
  {
    if steps == [] then t else Run(Apply(t, steps[0]), steps[1..])
  }

  /** Every late ban of the run finds nothing a restore would bring back. */
  ghost predicate Orderly(t: Tables, steps: seq<Step>)
    requires Possible(t, steps)
    decreases steps
  {
    steps == [] || (InTurn(t, steps[0]) && Orderly(Apply(t, steps[0]), steps[1..]))
  }

  function FlagRun(f: Flags, t: Tables, steps: seq<Step>): Flags
    requires Possible(t, steps)
    decreases steps
  {
    if steps == [] then f else FlagRun(Flag(f, t.users.Keys, steps[0]), Apply(t, steps[0]), steps[1..])
  }

  /** Over any run of deletions, bans and restores with distinct stamps, overlapping ones included as long as no
      late ban strands what an earlier one hid, the stamps encode the flags: an event is hidden exactly when
      it was taken down while live or is under its owner's ban. */
  lemma {:induction false} StampsEncodeFlags(t: Tables, f: Flags, steps: seq<Step>)
    requires Refines(t, f) && Possible(t, steps) && Orderly(t, steps)
    ensures Refines(Run(t, steps), FlagRun(f, t, steps))
    decreases steps
  {
    if steps != [] {
      StepRefines(t, f, steps[0]);
      StampsEncodeFlags(Apply(t, steps[0]), Flag(f, t.users.Keys, steps[0]), steps[1..]);
    }
  }

  /** A restore brings back exactly the events its ban hid, and touches no other. */
  lemma RestoreReturnsTheCascade(t: Tables, f: Flags, u: UserId)
    requires Refines(t, f) && u in f.gone
    ensures Restorable(t, u) == set id | id in f.events && f.events[id].owner == u && f.events[id].under
    ensures RestoreUser(t, u).events == map id | id in t.events ::
              if id in Restorable(t, u) then t.events[id].(deletedAt := None) else t.events[id]
  {
  }

  /** A ban and its undo leave the events as the hand-over did, and the user live, if and only if no event
      of the user's already deleted on its own bears the ban's stamp: that one would come back too. */
  lemma BanUndone(t: Tables, u: UserId, now: int)
    requires u in t.users && t.users[u].deletedAt.None?
    ensures RestoreUser(DeleteUser(t, u, now), u).events
            == (map id | id in t.events :: PassOn(t.events[id], u, Gone(t.users)))
            <==> forall id :: id in t.events && t.events[id].owner == u ==> t.events[id].deletedAt != Some(now)
    ensures RestoreUser(DeleteUser(t, u, now), u).users
            == t.users[u := User(None, t.users[u].tokenVersion + 1, None)]
  {
    var passed := map id | id in t.events :: PassOn(t.events[id], u, Gone(t.users));
    var back := RestoreUser(DeleteUser(t, u, now), u).events;
    forall id | id in t.events
      ensures back[id] == passed[id] <==> t.events[id].owner == u ==> t.events[id].deletedAt != Some(now)
    {
      HeirIsEarliest(t.events[id].credits, u, Gone(t.users));
    }
    if back != passed {
      var id :| id in t.events && back[id] != passed[id];
    }
  }
}
