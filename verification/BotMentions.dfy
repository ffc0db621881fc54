/** The mention queue and ledger of the bot: two producers insert, a worker claims, answers and lands.
    The clock, X, the engine and the database's failures are the environment. */
module BotMentions {
  import opened Basics
  import opened ClaimQueue
  import Budgets = ReplyBudget
  import Cursor = CatchUp

  const STALE_RUNNING_AFTER := 60 * 60 * 1000
  const MAX_ATTEMPTS := 3
  const PARAMS := Params(STALE_RUNNING_AFTER, MAX_ATTEMPTS)

  datatype Mention = Mention(postId: Id, authorId: string, author: string, text: string, replyToUser: Option<string>,
                             replyToPost: Option<string>)

  /** A value of the stored payload; `Other` is an absent key, null, or a value of another type. */
  datatype Field = Text(value: string) | Post(id: Id) | Other

  datatype Payload = Payload(tweetId: Field, authorId: Field, author: Field, text: Field, replyToUser: Field,
                             replyToPost: Field)

  datatype Outcome = Created | Updated | Requested | Inherited | NoDetection | NoAccount | Skipped | Self | Raised

  datatype Entry = Entry(author: string, payload: Option<Payload>, outcome: Option<Outcome>, created: nat,
                         reply: Option<nat>)

  // ---- The stored payload

  function OptionalField(value: Option<string>): Field {
    if value.Some? then Text(value.value) else Other
  }

  function OptionalText(field: Field): Option<string> {
    if field.Text? then Some(field.value) else None
  }

  function AsPayload(m: Mention): Payload {
    Payload(Post(m.postId), Text(m.authorId), Text(m.author), Text(m.text), OptionalField(m.replyToUser),
            OptionalField(m.replyToPost))
  }

  function FromPayload(payload: Option<Payload>): Option<Mention> {
    match payload
    case None => None
    case Some(p) =>
      if !p.tweetId.Post? || !p.authorId.Text? || !p.author.Text? then None
      else Some(Mention(p.tweetId.id, p.authorId.value, p.author.value, if p.text.Text? then p.text.value else "",
                        OptionalText(p.replyToUser), OptionalText(p.replyToPost)))
  }

  // ---- Inserting

  function NewRow(m: Mention, now: int): Row<Entry> {
    Row(Queued, 0, 0, now, Entry(m.author, Some(AsPayload(m)), None, 0, None))
  }

  /** Insert each mention, in order, unless its post is already in the table. */
  function Inserted(rows: map<Id, Row<Entry>>, mentions: seq<Mention>, times: seq<int>): map<Id, Row<Entry>>
    requires |mentions| == |times|
  {
    if mentions == [] then rows
    else
      var before := Inserted(rows, Init(mentions), Init(times));
      var m := Last(mentions);
      if m.postId in before then before else before[m.postId := NewRow(m, Last(times))]
  }

  lemma InsertOne(rows: map<Id, Row<Entry>>, mentions: seq<Mention>, times: seq<int>, i: nat, now: int)
    requires i < |mentions| && |times| == i
    ensures var before := Inserted(rows, mentions[..i], times);
            Inserted(rows, mentions[..i + 1], times + [now])
            == if mentions[i].postId in before then before else before[mentions[i].postId := NewRow(mentions[i], now)]
  {
    assert Init(mentions[..i + 1]) == mentions[..i] && Init(times + [now]) == times;
  }

  function Ids(mentions: seq<Mention>): set<Id> {
    set i | 0 <= i < |mentions| :: mentions[i].postId
  }

  /** The mentions of a batch whose post is among `ids`. */
  function Select(mentions: seq<Mention>, ids: set<Id>): seq<Mention> {
    if mentions == [] then []
    else Select(Init(mentions), ids) + if Last(mentions).postId in ids then [Last(mentions)] else []
  }

  lemma IdsSplit(mentions: seq<Mention>)
    requires mentions != []
    ensures Ids(mentions) == Ids(Init(mentions)) + {Last(mentions).postId}
  {
  }

  /** The queued ids are the old ones and the batch's, whatever the batch's order and repeats; no row
      that was there moves, and a new one is queued for a mention of the batch. */
  lemma {:induction false} InsertedRows(rows: map<Id, Row<Entry>>, mentions: seq<Mention>, times: seq<int>)
    requires |mentions| == |times|
    ensures Inserted(rows, mentions, times).Keys == rows.Keys + Ids(mentions)
    ensures forall id :: id in rows ==> Inserted(rows, mentions, times)[id] == rows[id]
    ensures forall id :: id in Inserted(rows, mentions, times) && id !in rows ==>
              IsNew(id, Inserted(rows, mentions, times)[id], mentions, times)
  {
    if mentions != [] {
      var before, after := Inserted(rows, Init(mentions), Init(times)), Inserted(rows, mentions, times);
      InsertedRows(rows, Init(mentions), Init(times));
      IdsSplit(mentions);
      forall id | id in after && id !in rows ensures IsNew(id, after[id], mentions, times) {
        if id in before {
          var i :| 0 <= i < |mentions| - 1 && Init(mentions)[i].postId == id
                   && before[id] == NewRow(Init(mentions)[i], Init(times)[i]);
          assert mentions[i].postId == id && after[id] == NewRow(mentions[i], times[i]);
        }
      }
    }
  }

  /** `row` is the queued row of one of the mentions. */
  ghost predicate IsNew(id: Id, row: Row<Entry>, mentions: seq<Mention>, times: seq<int>)
    requires |mentions| == |times|
  {
    exists i :: 0 <= i < |mentions| && mentions[i].postId == id && row == NewRow(mentions[i], times[i])
  }

  /** A batch all of whose posts are in the table is a no-op. */
  lemma {:induction false} RedeliveryIsNoOp(rows: map<Id, Row<Entry>>, mentions: seq<Mention>, times: seq<int>)
    requires |mentions| == |times| && Ids(mentions) <= rows.Keys
    ensures Inserted(rows, mentions, times) == rows
  {
    if mentions != [] {
      IdsSplit(mentions);
      RedeliveryIsNoOp(rows, Init(mentions), Init(times));
    }
  }

  /** Idempotent, and order-independent on the queued ids: delivering two batches in either order, any
      number of times, queues the same posts, each once. */
  lemma DeliveriesCommute(rows: map<Id, Row<Entry>>, a: seq<Mention>, b: seq<Mention>, at: seq<int>, bt: seq<int>,
                          again: seq<int>)
    requires |a| == |at| == |again| && |b| == |bt|
    ensures Inserted(Inserted(rows, a, at), b, bt).Keys == Inserted(Inserted(rows, b, bt), a, at).Keys
    ensures Inserted(Inserted(Inserted(rows, a, at), b, bt), a, again) == Inserted(Inserted(rows, a, at), b, bt)
  {
    InsertedRows(rows, a, at);
    InsertedRows(rows, b, bt);
    InsertedRows(Inserted(rows, a, at), b, bt);
    InsertedRows(Inserted(rows, b, bt), a, at);
    RedeliveryIsNoOp(Inserted(Inserted(rows, a, at), b, bt), a, again);
  }

  /** What is queued is read back as it was delivered. */
  lemma PayloadRoundTrip(m: Mention, now: int)
    ensures FromPayload(NewRow(m, now).data.payload) == Some(m)
  {
  }

  /** A new row waits, untried, with its mention and nothing else. */
  lemma NewRowWaits(m: Mention, now: int)
    ensures var row := NewRow(m, now);
            && row.status.Queued? && row.attempts == 0 && row.created == now
            && row.data.author == m.author && row.data.outcome.None? && row.data.created == 0 && row.data.reply.None?
  {
  }

  /** A payload is malformed exactly when it lacks its post's id or its author's id or handle; a missing text is
      empty, and a missing reference none. */
  lemma PayloadReads(p: Payload)
    ensures FromPayload(Some(p)).None? <==> !p.tweetId.Post? || !p.authorId.Text? || !p.author.Text?
    ensures FromPayload(Some(p)).Some? ==>
              var m := FromPayload(Some(p)).value;
              && m.postId == p.tweetId.id && m.authorId == p.authorId.value && m.author == p.author.value
              && m.text == (if p.text.Text? then p.text.value else "")
              && m.replyToUser == (if p.replyToUser.Text? then Some(p.replyToUser.value) else None)
              && m.replyToPost == (if p.replyToPost.Text? then Some(p.replyToPost.value) else None)
    ensures FromPayload(None).None?
  {
  }

  /** What is selected of a batch is what is selected of its parts in turn. */
  lemma {:induction false} SelectJoins(a: seq<Mention>, b: seq<Mention>, ids: set<Id>)
    ensures Select(a + b, ids) == Select(a, ids) + Select(b, ids)
  {
    if b == [] {
      assert a + b == a;
    } else {
      var before, tail := Select(Init(b), ids), if Last(b).postId in ids then [Last(b)] else [];
      SelectJoins(a, Init(b), ids);
      assert Init(a + b) == a + Init(b) && Last(a + b) == Last(b);
      Regroup(Select(a, ids), before, tail);
    }
  }

  /** And of one mention, itself exactly when its post is among `ids`. */
  lemma SelectOne(m: Mention, ids: set<Id>)
    ensures Select([], ids) == [] && Select([m], ids) == if m.postId in ids then [m] else []
  {
    assert Init([m]) == [];
  }

  // ---- The pipeline's verdict

  type Code = string
  const COORDS_MISSING: Code := "coords_missing"
  const POST_UNREADABLE: Code := "post_unreadable"

  /** What the engine read of the thread, wrote of its detections, and did with its request draft. */
  datatype Reading = Unreadable | Read(detections: nat, requests: nat, reason: Option<Code>,
                                       requestReason: Option<Code>)
  datatype Written = Written(created: nat, updated: nat, failed: nat, reason: Option<Code>)
  datatype Draft = Unopened | Draft(created: bool, existing: bool, refusal: Option<Code>)

  /** One attempt's environment; `raises` is an exception of the engine. */
  datatype World = World(ownPost: bool, inherited: bool, linked: bool, toBot: bool, raises: bool, reading: Reading,
                         written: Written, draft: Draft)

  /** A verdict, the detections created, whether the success reply goes out, and the refusal's code. */
  datatype Verdict = Verdict(outcome: Outcome, created: nat, succeeds: bool, reason: Option<Code>)

  function Processed(w: World): Verdict {
    match w.reading
    case Unreadable => Verdict(NoDetection, 0, false, Some(POST_UNREADABLE))
    case Read(detections, requests, reason, requestReason) =>
      if !w.linked then
        if detections > 0 || requests > 0 then Verdict(NoAccount, 0, false, None)
        else Verdict(NoDetection, 0, false, reason)
      else if w.written.reason == Some(COORDS_MISSING) && requests > 0 && w.draft.Draft? && w.draft.created then
        Verdict(Requested, 0, true, None)
      else if w.written.reason == Some(COORDS_MISSING) && requests > 0 && w.draft.Draft? && w.draft.existing then
        Verdict(Skipped, 0, false, None)
      else if w.written.reason == Some(COORDS_MISSING) && requests > 0 && w.draft.Draft? && w.draft.refusal.Some? then
        Verdict(NoDetection, 0, false, w.draft.refusal)
      else if w.written.reason == Some(COORDS_MISSING) && requestReason.Some? then
        Verdict(NoDetection, 0, false, requestReason)
      else if w.written.reason.Some? then Verdict(NoDetection, 0, false, w.written.reason)
      else if w.written.created == 0 && w.written.updated == 0 then
        Verdict(if w.written.failed > 0 then Raised else Skipped, 0, false, None)
      else Verdict(if w.written.created > 0 then Created else Updated, w.written.created, true, None)
  }

  /** Where a claimed mention lands. */
  function Landing(w: World): Verdict {
    if w.ownPost then Verdict(Self, 0, false, None)
    else if w.inherited then Verdict(Inherited, 0, false, None)
    else if w.raises then Verdict(Raised, 0, false, None)
    else Processed(w)
  }

  /** Whether the attempt posts a reply, the budget and the credentials allowing. */
  predicate Answered(w: World) {
    && !w.ownPost && !w.inherited && !w.raises
    && (Processed(w).succeeds
        || (w.linked && !w.toBot && (Processed(w).outcome.NoDetection? || Processed(w).outcome.Raised?)))
  }

  /** What a reply says: what was written, that a request was opened, or why nothing was. */
  datatype Saying = Success(updated: bool) | RequestOpened | Refusal(reason: Option<Code>)

  function SayingOf(v: Verdict): Saying {
    if v.outcome.Requested? then RequestOpened
    else if v.succeeds then Success(v.outcome.Updated?) else Refusal(v.reason)
  }

  // What an attempt meets, read off its environment: it reads the thread for a tag of the author's own;
  // the request draft is tried on a thread with footage, a source and no coordinate.

  predicate Reached(w: World) {
    !w.ownPost && !w.inherited && !w.raises
  }

  predicate Found(w: World) {
    w.reading.Read? && (w.reading.detections > 0 || w.reading.requests > 0)
  }

  predicate Wrote(w: World) {
    w.reading.Read? && w.linked
  }

  predicate DraftTried(w: World) {
    Wrote(w) && w.written.reason == Some("coords_missing") && w.reading.requests > 0 && w.draft.Draft?
  }

  predicate Opened(w: World) {
    DraftTried(w) && w.draft.created
  }

  predicate Held(w: World) {
    DraftTried(w) && !w.draft.created && w.draft.existing
  }

  predicate DraftRefused(w: World) {
    DraftTried(w) && !w.draft.created && !w.draft.existing && w.draft.refusal.Some?
  }

  /** Nothing detected for an author without an account, nothing readable, or what was read is refused. */
  predicate Refused(w: World) {
    || w.reading.Unreadable?
    || (!w.linked && !Found(w))
    || (Wrote(w) && w.written.reason.Some? && !Opened(w) && !Held(w))
  }

  /** The refusal the author is told: the draft's own, then the engine's on the draft, then the engine's. */
  function Why(w: World): Option<Code>
    requires Refused(w)
  {
    if w.reading.Unreadable? then Some("post_unreadable")
    else if !w.linked then w.reading.reason
    else if DraftRefused(w) then w.draft.refusal
    else if w.written.reason == Some("coords_missing") && w.reading.requestReason.Some? then w.reading.requestReason
    else w.written.reason
  }

  /** When each outcome lands. */
  lemma WhenEachLands(w: World)
    ensures var v := Landing(w);
            && (v.outcome.Self? <==> w.ownPost)
            && (v.outcome.Inherited? <==> !w.ownPost && w.inherited)
            && (v.outcome.NoAccount? <==> Reached(w) && !w.linked && Found(w))
            && (v.outcome.Requested? <==> Reached(w) && Opened(w))
            && (v.outcome.NoDetection? <==> Reached(w) && Refused(w))
            && (v.outcome.NoDetection? ==> v.reason == Why(w))
  {
  }

  /** What was written of the detections, when nothing refused them. */
  lemma WhenWritten(w: World)
    ensures var v, kept := Landing(w), Reached(w) && Wrote(w) && w.written.reason.None?;
            && (v.outcome.Created? <==> kept && w.written.created > 0)
            && (v.outcome.Updated? <==> kept && w.written.created == 0 && w.written.updated > 0)
            && (v.outcome.Skipped? <==>
                  || (Reached(w) && Held(w))
                  || (kept && w.written.created == 0 && w.written.updated == 0 && w.written.failed == 0))
            && (v.outcome.Raised? <==>
                  || (!w.ownPost && !w.inherited && w.raises)
                  || (kept && w.written.created == 0 && w.written.updated == 0 && w.written.failed > 0))
            && (v.succeeds <==> v.outcome in {Created, Updated, Requested})
            && v.created == if v.outcome.Created? then w.written.created else 0
  {
  }

  /** Who is answered, and with what: a linked author whose detections were written or whose request was opened;
      and, unless the tag answers the bot, one refused or whose every write failed. Nobody else. */
  lemma WhoIsAnswered(w: World)
    ensures var kept := Wrote(w) && w.written.reason.None?;
            Answered(w) <==>
              && Reached(w) && w.linked
              && (|| Opened(w)
                  || (kept && (w.written.created > 0 || w.written.updated > 0))
                  || (!w.toBot && (Refused(w) || (kept && w.written.failed > 0))))
    ensures Answered(w) && Refused(w) ==> SayingOf(Landing(w)) == Refusal(Why(w))
    ensures Answered(w) && Opened(w) ==> SayingOf(Landing(w)) == RequestOpened
    ensures Answered(w) && Wrote(w) && w.written.reason.None? ==>
              SayingOf(Landing(w)) == if w.written.created > 0 then Success(false)
                                      else if w.written.updated > 0 then Success(true) else Refusal(None)
  {
  }

  // ---- The queue

  /** The ledger's row rule: done exactly when an outcome is set, and then the payload is gone; nothing
      is answered before, and a payload that parses names the row's own author. */
  predicate RowOk(row: Row<Entry>) {
    && (row.status.Done? <==> row.data.outcome.Some?)
    && (row.status.Done? ==> row.data.payload.None?)
    && (row.data.reply.Some? ==> row.status.Done?)
    && (FromPayload(row.data.payload).Some? ==> FromPayload(row.data.payload).value.author == row.data.author)
  }

  ghost predicate RowsOk(rows: map<Id, Row<Entry>>) {
    forall id :: id in rows ==> RowOk(rows[id]) && rows[id].attempts <= MAX_ATTEMPTS
  }

  /** The table as the ledger the budget reads. */
  function Ledger(rows: map<Id, Row<Entry>>): map<Budgets.RowId, Budgets.LedgerRow> {
    map id | id in rows :: Budgets.LedgerRow(rows[id].data.author, rows[id].status.Done?, rows[id].data.reply,
                                             rows[id].stamp)
  }

  /** A burial stamps the row and leaves its payload; it has no outcome. */
  ghost predicate SweptMentions(was: map<Id, Row<Entry>>, rows: map<Id, Row<Entry>>, since: int, now: int) {
    && Swept(was, rows, now, PARAMS)
    && forall id :: id in rows ==>
         rows[id].data == was[id].data && (rows[id] == was[id] || since <= rows[id].stamp <= now)
  }

  lemma SweptLater(was: map<Id, Row<Entry>>, rows: map<Id, Row<Entry>>, since: int, now: int, later: int)
    requires SweptMentions(was, rows, since, now) && now <= later
    ensures SweptMentions(was, rows, since, later)
  {
  }

  /** One more burial of the sweep. */
  lemma BuryMention(was: map<Id, Row<Entry>>, rows: map<Id, Row<Entry>>, id: Id, since: int, now: int)
    requires RowsOk(rows) && SweptMentions(was, rows, since, now) && since <= now
    requires id in rows && Claimable(rows[id], now, PARAMS) && rows[id].attempts >= MAX_ATTEMPTS
    ensures var buried := rows[id := rows[id].(status := Failed, stamp := now)];
            RowsOk(buried) && SweptMentions(was, buried, since, now)
            && TotalLeft(buried, PARAMS) == TotalLeft(rows, PARAMS) - 1
  {
    SweepMore(was, rows, id, rows[id].(status := Failed, stamp := now), now, PARAMS);
  }

  function Finished(row: Row<Entry>, v: Verdict, reply: Option<nat>, now: int): Row<Entry> {
    row.(status := Done, stamp := now, data := Entry(row.data.author, None, Some(v.outcome), v.created, reply))
  }

  /** What the ledger keeps of a landed mention. */
  lemma LandedRow(row: Row<Entry>, w: World, reply: Option<nat>, now: int)
    ensures var landed := Finished(row, Landing(w), reply, now);
            && landed.status.Done? && landed.stamp == now && landed.attempts == row.attempts
            && landed.created == row.created && landed.data.author == row.data.author && landed.data.payload.None?
            && landed.data.outcome == Some(Landing(w).outcome) && landed.data.reply == reply
            && landed.data.created == if landed.data.outcome == Some(Created) then w.written.created else 0
  {
  }

  // ---- The replies the ledger counts

  /** The rows stand, or had and have no reply. */
  ghost predicate SameReplies(was: map<Id, Row<Entry>>, rows: map<Id, Row<Entry>>) {
    && was.Keys == rows.Keys
    && forall id :: id in rows ==> rows[id] == was[id] || (rows[id].data.reply.None? && was[id].data.reply.None?)
  }

  lemma SameRepliesCount(was: map<Id, Row<Entry>>, rows: map<Id, Row<Entry>>, budget: Budgets.Budget, since: int)
    requires SameReplies(was, rows) && Budgets.Seeded(budget, Ledger(was), since)
    ensures Budgets.Seeded(budget, Ledger(rows), since)
  {
    forall scope ensures Budgets.Spent(budget, scope) == Budgets.InWindow(Ledger(rows), since, scope) {
      assert Budgets.Counted(Ledger(rows), since, scope) == Budgets.Counted(Ledger(was), since, scope);
      assert Budgets.Spent(budget, scope) == Budgets.InWindow(Ledger(was), since, scope);
    }
  }

  /** A row that gains a reply within the window is what the tracker notes. */
  lemma ReplyCounts(was: map<Id, Row<Entry>>, id: Id, row: Row<Entry>, budget: Budgets.Budget, since: int)
    requires id in was && was[id].data.reply.None? && row.data.reply.Some? && row.stamp >= since
    requires Budgets.Seeded(budget, Ledger(was), since)
    ensures Budgets.Seeded(Budgets.NoteReply(budget, row.data.author), Ledger(was[id := row]), since)
  {
    var noted := Budgets.NoteReply(budget, row.data.author);
    var entry := Budgets.LedgerRow(row.data.author, row.status.Done?, row.data.reply, row.stamp);
    assert Ledger(was[id := row]) == Ledger(was)[id := entry];
    forall scope ensures Budgets.Spent(noted, scope) == Budgets.InWindow(Ledger(was[id := row]), since, scope) {
      Budgets.CountsReply(Ledger(was), id, entry, since, scope);
      assert Budgets.Spent(budget, scope) == Budgets.InWindow(Ledger(was), since, scope);
    }
  }

  /** No scope has spent past what it had, or its cap. */
  ghost predicate Restrained(was: Budgets.Budget, budget: Budgets.Budget, caps: Budgets.Caps) {
    forall scope :: Budgets.Spent(budget, scope) <= Budgets.Spent(was, scope)
                    || Budgets.Spent(budget, scope) <= Budgets.Cap(caps, scope)
  }

  class MentionQueue {
    var rows: map<Id, Row<Entry>>
    var clock: int

    ghost predicate Valid()
      reads this
    {
      RowsOk(rows)
    }

    method ReadClock() returns (now: int)
      modifies this`clock
      ensures now == clock >= old(clock)
    {
      now :| now >= clock;
      clock := now;
    }

    /** The insert statement: `inserted` are the ids it returns. */
    method InsertNew(mentions: seq<Mention>) returns (inserted: set<Id>, ghost times: seq<int>)
      requires Valid()
      modifies this
      ensures Valid() && clock >= old(clock)
      ensures |times| == |mentions| && rows == Inserted(old(rows), mentions, times)
      ensures forall at :: at in times ==> old(clock) <= at <= clock
      ensures inserted == rows.Keys - old(rows).Keys
    {
      times := [];
      inserted := {};
      for i := 0 to |mentions|
        invariant Valid() && clock >= old(clock) && |times| == i
        invariant rows == Inserted(old(rows), mentions[..i], times)
        invariant forall at :: at in times ==> old(clock) <= at <= clock
        invariant inserted == rows.Keys - old(rows).Keys && old(rows).Keys <= rows.Keys
      {
        var now := ReadClock();
        InsertOne(old(rows), mentions, times, i, now);
        times := times + [now];
        if mentions[i].postId !in rows {
          rows := rows[mentions[i].postId := NewRow(mentions[i], now)];
          inserted := inserted + {mentions[i].postId};
        }
      }
      assert mentions[..|mentions|] == mentions;
    }

    /** Insert each mention as a queued row unless its post is already in the table; `added` are the
        mentions inserted. */
    method EnqueueMentions(mentions: seq<Mention>) returns (added: seq<Mention>, ghost times: seq<int>)
      requires Valid()
      modifies this
      ensures Valid() && clock >= old(clock)
      ensures |times| == |mentions| && rows == Inserted(old(rows), mentions, times)
      ensures forall at :: at in times ==> old(clock) <= at <= clock
      ensures added == Select(mentions, rows.Keys - old(rows).Keys)
    {
      var inserted;
      inserted, times := InsertNew(mentions);
      added := [];
      for i := 0 to |mentions|
        invariant added == Select(mentions[..i], inserted)
      {
        assert Init(mentions[..i + 1]) == mentions[..i];
        if mentions[i].postId in inserted {
          added := added + [mentions[i]];
        }
      }
      assert mentions[..|mentions|] == mentions;
    }

    /** Pull the timeline behind the cursor and queue what is new. While the webhook is live, each new
        mention of another account is a gap. */
    method CatchUp(fetched: seq<Mention>, ghost timeline: set<Id>, bot: string, webhook: bool) returns (gaps: seq<Id>)
      requires Valid() && Ids(fetched) == Cursor.Fetched(timeline, Cursor.SinceId(rows.Keys))
      modifies this
      ensures Valid() && clock >= old(clock)
      ensures rows.Keys == Cursor.Pulled(old(rows.Keys), timeline)
      ensures forall id :: id in old(rows) ==> rows[id] == old(rows)[id]
      ensures gaps == if webhook then Gaps(Select(fetched, rows.Keys - old(rows).Keys), bot) else []
    {
      var added, times := EnqueueMentions(fetched);
      InsertedRows(old(rows), fetched, times);
      gaps := [];
      if webhook {
        for i := 0 to |added|
          invariant gaps == Gaps(added[..i], bot)
        {
          assert Init(added[..i + 1]) == added[..i];
          if added[i].authorId != bot {
            gaps := gaps + [added[i].postId];
          }
        }
        assert added[..|added|] == added;
      }
    }

    /** Claim the oldest claimable mention, burying on the way every older one whose attempts are
        spent: `swept` is the table after the burials. */
    method Claim() returns (claimed: Option<Id>, ghost swept: map<Id, Row<Entry>>)
      requires Valid()
      modifies this
      ensures Valid() && clock >= old(clock) && SweptMentions(old(rows), swept, old(clock), clock)
      ensures claimed.None? ==> rows == swept && NoneClaimable(rows, clock, PARAMS)
      ensures claimed.Some? ==>
                && Oldest(swept, claimed.value, clock, PARAMS)
                && swept[claimed.value] == old(rows)[claimed.value] && swept[claimed.value].attempts < MAX_ATTEMPTS
                && rows == swept[claimed.value := Claimed(swept[claimed.value], clock)]
      ensures TotalLeft(swept, PARAMS) <= TotalLeft(old(rows), PARAMS)
    {
      while true
        invariant Valid() && clock >= old(clock) && SweptMentions(old(rows), rows, old(clock), clock)
        invariant TotalLeft(rows, PARAMS) <= TotalLeft(old(rows), PARAMS)
        decreases TotalLeft(rows, PARAMS)
      {
        TotalNonNegative(rows, PARAMS);
        swept := rows;
        ghost var before := clock;
        var now := ReadClock();
        SweptLater(old(rows), rows, old(clock), before, now);
        var found := FirstClaimable(rows, now, PARAMS);
        if found.None? {
          return None, swept;
        }
        var id := found.value;
        if rows[id].attempts < MAX_ATTEMPTS {
          rows := rows[id := Claimed(rows[id], now)];
          return Some(id), swept;
        }
        rows := rows[id := rows[id].(status := Failed, stamp := now)];
        BuryMention(old(rows), swept, id, old(clock), now);
      }
    }

    /** Answer on X, fail-soft: no reply without credentials, or when the post fails. */
    method PostReply(configured: bool) returns (reply: Option<nat>)
      ensures reply.Some? ==> configured
    {
      if !configured {
        return None;
      }
      var sent: Option<nat> := *;
      reply := sent;
    }

    /** Run one claimed mention through the pipeline, answer at most once, and land the row. */
    method ProcessClaimed(id: Id, author: string, w: World, budget: Budgets.GestureBudget, configured: bool)
      returns (reply: Option<nat>, said: Option<Saying>)
      requires Valid() && id in rows
      modifies this, budget`repliesPosted, budget`repliesByAuthor
      ensures Valid() && clock >= old(clock)
      ensures rows == old(rows)[id := Finished(old(rows)[id], Landing(w), reply, clock)]
      ensures said == if Answered(w) && Budgets.ReplyAllowed(old(budget.View()), author, budget.caps)
                      then Some(SayingOf(Landing(w))) else None
      ensures reply.Some? ==> said.Some?
      ensures reply.Some? ==> Answered(w) && configured && Budgets.ReplyAllowed(old(budget.View()), author, budget.caps)
      ensures budget.View() == if reply.Some? then Budgets.NoteReply(old(budget.View()), author) else old(budget.View())
    {
      var v := Landing(w);
      reply, said := None, None;
      if !w.ownPost && !w.inherited && !w.raises {
        if v.succeeds {
          if budget.Allows(author) {
            said := Some(if v.outcome.Requested? then RequestOpened else Success(v.outcome.Updated?));
            reply := PostReply(configured);
          }
        } else if (v.outcome.NoDetection? || v.outcome.Raised?) && w.linked && !w.toBot && budget.Allows(author) {
          said := Some(Refusal(v.reason));
          reply := PostReply(configured);
        }
      }
      var now := ReadClock();
      rows := rows[id := Finished(rows[id], v, reply, now)];
      if reply.Some? {
        budget.Note(author);
      }
    }

    /** A claimed mention: a malformed payload fails its row, an error outside the pipeline queues it
        again, and anything else lands it. */
    method Handle(id: Id, budget: Budgets.GestureBudget, configured: bool) returns (turn: Turn)
      requires Valid() && id in rows && !Terminal(rows[id].status)
      modifies this, budget`repliesPosted, budget`repliesByAuthor
      ensures Valid() && clock >= old(clock) && !turn.Empty? && turn.id == id
      ensures rows == old(rows)[id := After(old(rows)[id], turn, clock)]
      ensures turn.Malformed? <==> FromPayload(old(rows)[id].data.payload).None?
      ensures turn.Landed? && turn.reply.Some? ==>
                Answered(turn.world) && Budgets.ReplyAllowed(old(budget.View()), old(rows)[id].data.author, budget.caps)
      ensures budget.View() == if turn.Landed? && turn.reply.Some?
                               then Budgets.NoteReply(old(budget.View()), old(rows)[id].data.author)
                               else old(budget.View())
    {
      var mention := FromPayload(rows[id].data.payload);
      if mention.None? {
        rows := rows[id := rows[id].(status := Failed)];
        return Malformed(id);
      }
      var interrupted: bool := *;
      if interrupted {
        rows := rows[id := rows[id].(status := Queued)];
        return Error(id);
      }
      var w: World := *;
      var reply, _ := ProcessClaimed(id, mention.value.author, w, budget, configured);
      return Landed(id, w, reply);
    }

    /** One turn of the drain: `budget` tracks the ledger's replies since `since`; `swept` is the table after the
        burials, and `claimedAt` the time of the claim. */
    method DrainOne(budget: Budgets.GestureBudget, configured: bool, ghost since: int)
      returns (turn: Turn, ghost swept: map<Id, Row<Entry>>, ghost claimedAt: int)
      requires Valid() && since <= clock && Budgets.Seeded(budget.View(), Ledger(rows), since)
      modifies this, budget`repliesPosted, budget`repliesByAuthor
      ensures Valid() && clock >= old(clock)
      ensures turn.Empty? ==> NoneClaimable(rows, clock, PARAMS)
      ensures if turn.Error? then PutBack(old(rows), rows, turn.id) else Drained(old(rows), rows)
      ensures turn.Landed? ==> LandedAs(old(rows), rows, turn)
      ensures Budgets.Seeded(budget.View(), Ledger(rows), since)
      ensures Restrained(old(budget.View()), budget.View(), budget.caps)
      ensures TotalLeft(rows, PARAMS) + (if turn.Empty? then 0 else 1) <= TotalLeft(old(rows), PARAMS)
      ensures old(clock) <= claimedAt <= clock && SweptMentions(old(rows), swept, old(clock), claimedAt)
      ensures if turn.Empty? then rows == swept else TurnedInto(old(rows), swept, rows, turn, claimedAt, clock)
      ensures Replied(turn) ==> Budgets.ReplyAllowed(old(budget.View()), old(rows)[turn.id].data.author, budget.caps)
      ensures budget.View() == if Replied(turn)
                               then Budgets.NoteReply(old(budget.View()), old(rows)[turn.id].data.author)
                               else old(budget.View())
    {
      var claimed;
      claimed, swept := Claim();
      claimedAt := clock;
      if claimed.None? {
        SameRepliesCount(old(rows), rows, budget.View(), since);
        return Empty, swept, claimedAt;
      }
      turn := Handle(claimed.value, budget, configured);
      assert rows == swept[turn.id := After(Claimed(swept[turn.id], claimedAt), turn, clock)];
      TurnCounts(old(rows), swept, rows, turn, claimedAt, clock, old(budget.View()), budget.caps, since);
      TurnDrains(old(rows), swept, rows, turn, claimedAt, clock);
    }

    /** Process every claimable mention, oldest first; an error ends the pass. It ends either way: each
        claim spends one of the attempts left. The hour the pass was seeded from, and all it added, holds
        no more ledgered replies than it did or than the cap, overall and per author. The pass is a run of
        the ceilings' `bot`, whose ledger counts the same replies. */
    method DrainMentions(caps: Budgets.Caps, configured: bool, ghost bot: Budgets.Bot)
      returns (processed: nat, error: Option<Id>, ghost since: int, ghost events: seq<Budgets.Event>)
      requires Valid() && OffPass(bot, rows, clock)
      modifies this
      ensures Budgets.Possible(bot, events, caps) && OffPass(Budgets.Run(bot, events, caps), rows, clock)
      ensures Valid() && clock >= old(clock)
      ensures error.None? ==> NoneClaimable(rows, clock, PARAMS) && Drained(old(rows), rows)
      ensures error.None? ==>
                forall id :: id in rows && Claimable(old(rows)[id], old(clock), PARAMS) ==> Terminal(rows[id].status)
      ensures error.Some? ==> PutBack(old(rows), rows, error.value)
      ensures processed + TotalLeft(rows, PARAMS) <= TotalLeft(old(rows), PARAMS)
      ensures old(clock) <= since + Budgets.GESTURE_WINDOW <= clock
      ensures forall scope ::
                || Budgets.InWindow(Ledger(rows), since, scope) <= Budgets.InWindow(Ledger(old(rows)), since, scope)
                || Budgets.InWindow(Ledger(rows), since, scope) <= Budgets.Cap(caps, scope)
    {
      processed := 0;
      var now := ReadClock();
      since := now - Budgets.GESTURE_WINDOW;
      var budget := new Budgets.GestureBudget.FromLedger(Ledger(rows), now, caps);
      ghost var seed := budget.View();
      events := PassStarts(bot, rows, now, seed, caps);
      while true
        invariant Valid() && clock >= now && Drained(old(rows), rows) && budget.caps == caps
        invariant processed + TotalLeft(rows, PARAMS) <= TotalLeft(old(rows), PARAMS)
        invariant Budgets.Seeded(budget.View(), Ledger(rows), since) && Restrained(seed, budget.View(), caps)
        invariant Reaches(bot, events, caps, rows, Some(budget.View()), clock)
        decreases TotalLeft(rows, PARAMS)
      {
        TotalNonNegative(rows, PARAMS);
        ghost var was, at, b := rows, clock, budget.View();
        var turn, swept, claimedAt := DrainOne(budget, configured, since);
        Bounded(seed, budget.View(), caps, Ledger(old(rows)), Ledger(rows), since);
        match turn
        case Empty =>
          events := PassEnds(bot, events, was, rows, b, at, clock, caps);
          DrainBoth(old(rows), was, rows);
          AllTaken(old(rows), rows, old(clock), clock, PARAMS);
          return processed, None, since, events;
        case Error(id) =>
          events := PassGoesOn(bot, events, was, swept, rows, turn, b, at, claimedAt, clock, caps);
          PutBackLater(old(rows), was, rows, id);
          return processed + 1, Some(id), since, events;
        case _ =>
          events := PassGoesOn(bot, events, was, swept, rows, turn, b, at, claimedAt, clock, caps);
          DrainBoth(old(rows), was, rows);
          processed := processed + if turn.Landed? then 1 else 0;
      }
    }
  }

  // ---- A pass, as a run of the ceilings' bot

  predicate Replied(turn: Turn) {
    turn.Landed? && turn.reply.Some?
  }

  /** The bot counts the table's replies, with `budget` as its tracker if a pass is on, and no attempt under
      way. */
  ghost predicate InStep(s: Budgets.Bot, rows: map<Id, Row<Entry>>, budget: Option<Budgets.Budget>, now: int) {
    && Budgets.Mirrors(s.ledger, Ledger(rows)) && s.budget == budget && s.attempt.None? && s.now <= now
  }

  ghost predicate OffPass(s: Budgets.Bot, rows: map<Id, Row<Entry>>, now: int) {
    InStep(s, rows, None, now)
  }

  ghost predicate Reaches(s: Budgets.Bot, events: seq<Budgets.Event>, caps: Budgets.Caps, rows: map<Id, Row<Entry>>,
                          budget: Option<Budgets.Budget>, now: int)
  {
    Budgets.Possible(s, events, caps) && InStep(Budgets.Run(s, events, caps), rows, budget, now)
  }

  lemma PassStarts(s: Budgets.Bot, rows: map<Id, Row<Entry>>, now: int, seed: Budgets.Budget, caps: Budgets.Caps)
    returns (events: seq<Budgets.Event>)
    requires OffPass(s, rows, now) && Budgets.Seeded(seed, Ledger(rows), now - Budgets.GESTURE_WINDOW)
    ensures Reaches(s, events, caps, rows, Some(seed), now)
  {
    var ticked := Budgets.Apply(s, Budgets.Tick(now - s.now), caps);
    Budgets.MirrorsSeed(s.ledger, Ledger(rows), seed, now - Budgets.GESTURE_WINDOW);
    Budgets.RunOne(ticked, Budgets.StartPass(seed), caps);
    events := [Budgets.Tick(now - s.now)] + [Budgets.StartPass(seed)];
    Budgets.RunCons(s, Budgets.Tick(now - s.now), [Budgets.StartPass(seed)], caps);
  }

  /** A delivered batch, during a pass or not, is a run of the bot. */
  lemma {:induction false} InsertIsABotRun(s: Budgets.Bot, rows: map<Id, Row<Entry>>, mentions: seq<Mention>,
                                           times: seq<int>,
                                           budget: Option<Budgets.Budget>, now: int, caps: Budgets.Caps)
    returns (events: seq<Budgets.Event>)
    requires InStep(s, rows, budget, now) && |mentions| == |times|
    ensures Reaches(s, events, caps, Inserted(rows, mentions, times), budget, now)
  {
    if mentions == [] {
      events := [];
    } else {
      var m, at := Last(mentions), Last(times);
      var before := Inserted(rows, Init(mentions), Init(times));
      events := InsertIsABotRun(s, rows, Init(mentions), Init(times), budget, now, caps);
      if m.postId !in before {
        var t, e := Budgets.Run(s, events, caps), Budgets.Arrive(m.postId, m.author);
        Budgets.RunOne(t, e, caps);
        Budgets.RunAppend(s, events, [e], caps);
        events := events + [e];
        ArrivalMirrors(t.ledger, before, m, at, t.now);
      }
    }
  }

  lemma ArrivalMirrors(ledger: map<Budgets.RowId, Budgets.LedgerRow>, rows: map<Id, Row<Entry>>, m: Mention, at: int,
                       now: int)
    requires Budgets.Mirrors(ledger, Ledger(rows)) && m.postId !in rows
    ensures Budgets.Mirrors(ledger[m.postId := Budgets.LedgerRow(m.author, false, None, now)],
                            Ledger(rows[m.postId := NewRow(m, at)]))
  {
  }

  /** The burials touch no reply. */
  lemma SweptMirrors(ledger: map<Budgets.RowId, Budgets.LedgerRow>, was: map<Id, Row<Entry>>,
                     swept: map<Id, Row<Entry>>, since: int, now: int)
    requires Budgets.Mirrors(ledger, Ledger(was)) && RowsOk(was) && SweptMentions(was, swept, since, now)
    ensures Budgets.Mirrors(ledger, Ledger(swept))
  {
    forall id | id in swept ensures Budgets.Alike(ledger[id], Ledger(swept)[id]) {
      assert Budgets.Alike(ledger[id], Ledger(was)[id]);
    }
  }

  lemma PassEnds(s: Budgets.Bot, events: seq<Budgets.Event>, was: map<Id, Row<Entry>>, rows: map<Id, Row<Entry>>,
                 budget: Budgets.Budget, since: int, now: int, caps: Budgets.Caps)
    returns (longer: seq<Budgets.Event>)
    requires Reaches(s, events, caps, was, Some(budget), since) && since <= now
    requires RowsOk(was) && SweptMentions(was, rows, since, now)
    ensures Reaches(s, longer, caps, rows, None, now)
  {
    var t := Budgets.Run(s, events, caps);
    SweptMirrors(t.ledger, was, rows, since, now);
    Budgets.RunOne(t, Budgets.EndPass, caps);
    Budgets.RunAppend(s, events, [Budgets.EndPass], caps);
    longer := events + [Budgets.EndPass];
  }

  /** A whole turn, whether or not a post of it was lost, is a run of the bot. */
  lemma TurnIsABotRun(s: Budgets.Bot, was: map<Id, Row<Entry>>, swept: map<Id, Row<Entry>>, rows: map<Id, Row<Entry>>,
                      turn: Turn, lost: bool, budget: Budgets.Budget, since: int, claimedAt: int, landedAt: int,
                      caps: Budgets.Caps)
    returns (events: seq<Budgets.Event>)
    requires InStep(s, was, Some(budget), since) && since <= claimedAt <= landedAt
    requires RowsOk(was) && SweptMentions(was, swept, since, claimedAt)
    requires TurnedInto(was, swept, rows, turn, claimedAt, landedAt) && !(lost && (Replied(turn) || turn.Malformed?))
    requires Replied(turn) || lost ==> Budgets.ReplyAllowed(budget, was[turn.id].data.author, caps)
    ensures Reaches(s, events, caps, rows, TrackerAfter(budget, was[turn.id].data.author, turn), landedAt)
  {
    var id := turn.id;
    SweptMirrors(s.ledger, was, swept, since, claimedAt);
    assert Budgets.Alike(s.ledger[id], Ledger(was)[id]);
    if turn.Malformed? {
      Budgets.RunOne(s, Budgets.Tick(landedAt - s.now), caps);
      events := [Budgets.Tick(landedAt - s.now)];
    } else {
      var f := if turn.Error? then Budgets.Failing(lost) else Budgets.Effect.Landing(Replied(turn), lost);
      events := Budgets.AttemptRuns(s, id, claimedAt, landedAt, f, caps);
    }
    TurnMirrors(s.ledger, Budgets.Run(s, events, caps).ledger, swept, rows, turn, claimedAt, landedAt);
  }

  /** The turn's row is alike again, and no other moved. */
  lemma TurnMirrors(was: map<Budgets.RowId, Budgets.LedgerRow>, ledger: map<Budgets.RowId, Budgets.LedgerRow>,
                    swept: map<Id, Row<Entry>>, rows: map<Id, Row<Entry>>, turn: Turn, claimedAt: int, landedAt: int)
    requires Budgets.Mirrors(was, Ledger(swept)) && ledger.Keys == was.Keys && !turn.Empty? && turn.id in swept
    requires swept[turn.id].data.reply.None? && !swept[turn.id].status.Done?
    requires rows == swept[turn.id := After(Claimed(swept[turn.id], claimedAt), turn, landedAt)]
    requires forall x :: x in was && x != turn.id ==> ledger[x] == was[x]
    requires var row := ledger[turn.id];
             && row.author == was[turn.id].author && (row.done <==> turn.Landed?)
             && (row.reply.Some? <==> Replied(turn))
             && (turn.Landed? ==> row.processedAt == landedAt)
    ensures Budgets.Mirrors(ledger, Ledger(rows))
  {
    forall x | x in rows ensures Budgets.Alike(ledger[x], Ledger(rows)[x]) {
      assert Budgets.Alike(was[x], Ledger(swept)[x]);
    }
  }

  function TrackerAfter(budget: Budgets.Budget, author: string, turn: Turn): Option<Budgets.Budget> {
    if turn.Error? then None else Some(if Replied(turn) then Budgets.NoteReply(budget, author) else budget)
  }

  lemma PassGoesOn(s: Budgets.Bot, events: seq<Budgets.Event>, was: map<Id, Row<Entry>>, swept: map<Id, Row<Entry>>,
                   rows: map<Id, Row<Entry>>, turn: Turn, budget: Budgets.Budget, since: int, claimedAt: int,
                   landedAt: int, caps: Budgets.Caps)
    returns (longer: seq<Budgets.Event>)
    requires Reaches(s, events, caps, was, Some(budget), since) && since <= claimedAt <= landedAt
    requires RowsOk(was) && SweptMentions(was, swept, since, claimedAt)
    requires TurnedInto(was, swept, rows, turn, claimedAt, landedAt)
    requires Replied(turn) ==> Budgets.ReplyAllowed(budget, was[turn.id].data.author, caps)
    ensures Reaches(s, longer, caps, rows, TrackerAfter(budget, was[turn.id].data.author, turn), landedAt)
  {
    var t := Budgets.Run(s, events, caps);
    var more := TurnIsABotRun(t, was, swept, rows, turn, false, budget, since, claimedAt, landedAt, caps);
    Budgets.RunAppend(s, events, more, caps);
    longer := events + more;
  }

  /** The table a turn leaves, given the sweep before it. */
  ghost predicate TurnedInto(was: map<Id, Row<Entry>>, swept: map<Id, Row<Entry>>, rows: map<Id, Row<Entry>>,
                             turn: Turn, claimedAt: int, landedAt: int)
  {
    && !turn.Empty? && Swept(was, swept, claimedAt, PARAMS)
    && turn.id in swept && swept[turn.id] == was[turn.id]
    && Claimable(was[turn.id], claimedAt, PARAMS) && was[turn.id].attempts < MAX_ATTEMPTS
    && rows == swept[turn.id := After(Claimed(swept[turn.id], claimedAt), turn, landedAt)]
  }

  /** A turn keeps the tracker equal to the ledger's count, and spends within the caps. */
  lemma TurnCounts(was: map<Id, Row<Entry>>, swept: map<Id, Row<Entry>>, rows: map<Id, Row<Entry>>, turn: Turn,
                   claimedAt: int, landedAt: int, budget: Budgets.Budget, caps: Budgets.Caps, since: int)
    requires RowsOk(was) && TurnedInto(was, swept, rows, turn, claimedAt, landedAt) && since <= landedAt
    requires forall id :: id in swept ==> swept[id].data == was[id].data
    requires Budgets.Seeded(budget, Ledger(was), since)
    requires turn.Landed? && turn.reply.Some? ==> Budgets.ReplyAllowed(budget, was[turn.id].data.author, caps)
    ensures var spent := if Replied(turn) then Budgets.NoteReply(budget, was[turn.id].data.author) else budget;
            Budgets.Seeded(spent, Ledger(rows), since) && Restrained(budget, spent, caps)
  {
    var id := turn.id;
    if turn.Landed? && turn.reply.Some? {
      SameRepliesCount(was, swept, budget, since);
      ReplyCounts(swept, id, rows[id], budget, since);
    } else {
      assert SameReplies(was, rows);
      SameRepliesCount(was, rows, budget, since);
    }
  }

  lemma TurnDrains(was: map<Id, Row<Entry>>, swept: map<Id, Row<Entry>>, rows: map<Id, Row<Entry>>, turn: Turn,
                   claimedAt: int, landedAt: int)
    requires TurnedInto(was, swept, rows, turn, claimedAt, landedAt)
    ensures if turn.Error? then PutBack(was, rows, turn.id) else Drained(was, rows)
    ensures TotalLeft(rows, PARAMS) + 1 <= TotalLeft(swept, PARAMS)
  {
    if turn.Error? {
      Requeued(was, swept, rows, turn.id, claimedAt);
    } else {
      JobLanded(was, was, swept, turn.id, rows[turn.id], claimedAt, PARAMS);
    }
  }

  lemma Bounded(seed: Budgets.Budget, budget: Budgets.Budget, caps: Budgets.Caps,
                was: map<Budgets.RowId, Budgets.LedgerRow>, ledger: map<Budgets.RowId, Budgets.LedgerRow>, since: int)
    requires Budgets.Seeded(seed, was, since) && Budgets.Seeded(budget, ledger, since) && Restrained(seed, budget, caps)
    ensures forall scope :: Budgets.InWindow(ledger, since, scope) <= Budgets.InWindow(was, since, scope)
                            || Budgets.InWindow(ledger, since, scope) <= Budgets.Cap(caps, scope)
  {
  }

  datatype Turn = Empty | Malformed(id: Id) | Error(id: Id) | Landed(id: Id, world: World, reply: Option<nat>)

  function After(row: Row<Entry>, turn: Turn, now: int): Row<Entry> {
    match turn
    case Empty => row
    case Malformed(_) => row.(status := Failed)
    case Error(_) => row.(status := Queued)
    case Landed(_, w, reply) => Finished(row, Landing(w), reply, now)
  }

  ghost predicate LandedAs(was: map<Id, Row<Entry>>, rows: map<Id, Row<Entry>>, turn: Turn)
    requires turn.Landed?
  {
    && turn.id in was && turn.id in rows
    && rows[turn.id].data == Finished(was[turn.id], Landing(turn.world), turn.reply, 0).data
    && (turn.reply.Some? ==> Answered(turn.world))
  }

  /** The row is queued again with an attempt spent, and every other row stands drained. */
  ghost predicate PutBack(was: map<Id, Row<Entry>>, rows: map<Id, Row<Entry>>, id: Id) {
    && id in was && id in rows && !Terminal(was[id].status)
    && rows[id].status.Queued? && rows[id].attempts == was[id].attempts + 1 && rows[id].data == was[id].data
    && Drained(was, rows[id := was[id]])
  }

  lemma PutBackLater(first: map<Id, Row<Entry>>, was: map<Id, Row<Entry>>, rows: map<Id, Row<Entry>>, id: Id)
    requires Drained(first, was) && PutBack(was, rows, id)
    ensures PutBack(first, rows, id)
  {
  }

  /** The posts of the mentions another account wrote. */
  function Gaps(added: seq<Mention>, bot: string): seq<Id> {
    if added == [] then []
    else Gaps(Init(added), bot) + if Last(added).authorId != bot then [Last(added).postId] else []
  }

  /** The gaps of a batch are those of its parts in turn. */
  lemma {:induction false} GapsJoin(a: seq<Mention>, b: seq<Mention>, bot: string)
    ensures Gaps(a + b, bot) == Gaps(a, bot) + Gaps(b, bot)
  {
    if b == [] {
      assert a + b == a;
    } else {
      var before, tail := Gaps(Init(b), bot), if Last(b).authorId != bot then [Last(b).postId] else [];
      GapsJoin(a, Init(b), bot);
      assert Init(a + b) == a + Init(b) && Last(a + b) == Last(b);
      Regroup(Gaps(a, bot), before, tail);
    }
  }

  /** And of one mention, its post exactly when another account wrote it. */
  lemma GapOfOne(m: Mention, bot: string)
    ensures Gaps([], bot) == [] && Gaps([m], bot) == if m.authorId != bot then [m.postId] else []
  {
    assert Init([m]) == [];
  }

  lemma Requeued(was: map<Id, Row<Entry>>, swept: map<Id, Row<Entry>>, rows: map<Id, Row<Entry>>, id: Id, now: int)
    requires Swept(was, swept, now, PARAMS) && id in swept && swept[id] == was[id]
    requires !Terminal(was[id].status) && was[id].attempts < MAX_ATTEMPTS
    requires rows == swept[id := Claimed(swept[id], now).(status := Queued)]
    ensures PutBack(was, rows, id)
    ensures TotalLeft(rows, PARAMS) == TotalLeft(swept, PARAMS) - 2
  {
    DrainMore(was, was, swept, now, PARAMS);
    TotalUpdate(swept, PARAMS, id, rows[id]);
  }

  // ---- Every interleaving of webhook, catch-up and workers

  /** The payload, while the row is not done, is that of a mention of this post by this author. */
  predicate RowSound(id: Id, row: Row<Entry>) {
    && RowOk(row)
    && (!row.status.Done? ==>
          var m := FromPayload(row.data.payload);
          m.Some? && m.value.postId == id)
  }

  ghost predicate RowsSound(rows: map<Id, Row<Entry>>) {
    forall id :: id in rows ==> RowSound(id, rows[id])
  }

  /** What a turn does to the row it claimed, as an event of the protocol. */
  function TurnEvent(row: Row<Entry>, w: Worker, turn: Turn, now: int): Event<Entry>
    requires !turn.Empty?
  {
    match turn
    case Malformed(_) => Land(w, Failed, row.stamp, row.data)
    case Error(_) => Requeue(w)
    case Landed(_, _, _) => Land(w, Done, now, After(row, turn, now).data)
  }

  /** A turn fails its row as malformed exactly when the payload does not parse. */
  predicate Fits(row: Row<Entry>, turn: Turn) {
    !turn.Empty? && (turn.Malformed? <==> FromPayload(row.data.payload).None?)
  }

  /** The queue's own events: a producer inserts a mention's new row, a burial keeps the entry, and a
      landing is some turn's. */
  ghost predicate Ours(s: State<Entry>, e: Event<Entry>)
    requires Enabled(s, e, PARAMS)
  {
    match e
    case Enqueue(id, created, data) => exists m: Mention :: m.postId == id && data == NewRow(m, created).data
    case Bury(id, _, data) => data == s.rows[id].data
    case Land(w, _, _, _) =>
      exists turn, now :: Fits(s.rows[s.live[w]], turn) && e == TurnEvent(s.rows[s.live[w]], w, turn, now)
    case _ => true
  }

  ghost predicate OurRun(s: State<Entry>, events: seq<Event<Entry>>)
    requires Possible(s, events, PARAMS)
    decreases events
  {
    events == [] || (Ours(s, events[0]) && OurRun(Apply(s, events[0], PARAMS), events[1..]))
  }

  // ---- What the methods do is such a run

  /** A turn's effect on the table is one enabled event of the queue. */
  lemma TurnIsOurs(s: State<Entry>, w: Worker, turn: Turn, now: int)
    requires w in s.live && s.live[w] in s.rows && s.rows[s.live[w]].status.Running? && Fits(s.rows[s.live[w]], turn)
    ensures var id, e := s.live[w], TurnEvent(s.rows[s.live[w]], w, turn, now);
            && Enabled(s, e, PARAMS) && Ours(s, e)
            && Apply(s, e, PARAMS) == State(s.rows[id := After(s.rows[id], turn, now)], s.live - {w}, s.now)
  {
  }

  lemma {:induction false} OurRunExtends(s: State<Entry>, events: seq<Event<Entry>>, e: Event<Entry>)
    requires Admissible(s, events, PARAMS) && OurRun(s, events)
    requires var t := Run(s, events, PARAMS); Fresh(t, PARAMS) && Enabled(t, e, PARAMS) && Ours(t, e)
    ensures Admissible(s, events + [e], PARAMS) && OurRun(s, events + [e])
    ensures Run(s, events + [e], PARAMS) == Apply(Run(s, events, PARAMS), e, PARAMS)
    decreases events
  {
    if events == [] {
      assert events + [e] == [e] && [e][1..] == [];
    } else {
      assert (events + [e])[1..] == events[1..] + [e];
      OurRunExtends(Apply(s, events[0], PARAMS), events[1..], e);
    }
  }

  /** A delivered batch is a run of the queue's enqueues. */
  lemma {:induction false} InsertIsOurRun(s: State<Entry>, mentions: seq<Mention>, times: seq<int>)
    returns (events: seq<Event<Entry>>)
    requires Inv(s, PARAMS) && Fresh(s, PARAMS) && |mentions| == |times|
    ensures Admissible(s, events, PARAMS) && OurRun(s, events)
    ensures Run(s, events, PARAMS) == State(Inserted(s.rows, mentions, times), s.live, s.now)
  {
    if mentions == [] {
      events := [];
    } else {
      var m, at := Last(mentions), Last(times);
      events := InsertIsOurRun(s, Init(mentions), Init(times));
      InsertedRows(s.rows, Init(mentions), Init(times));
      if m.postId !in Inserted(s.rows, Init(mentions), Init(times)) {
        var e := Enqueue(m.postId, at, NewRow(m, at).data);
        OurRunExtends(s, events, e);
        events := events + [e];
      }
    }
  }

  /** The claim loop is a run of the queue's burials and its claim. */
  lemma {:induction false} ClaimIsOurRun(s: State<Entry>, swept: map<Id, Row<Entry>>, w: Worker, id: Id, since: int)
    returns (events: seq<Event<Entry>>)
    requires Inv(s, PARAMS) && Fresh(s, PARAMS) && SweptMentions(s.rows, swept, since, s.now) && w !in s.live
    requires Oldest(swept, id, s.now, PARAMS) && swept[id] == s.rows[id] && swept[id].attempts < MAX_ATTEMPTS
    ensures Admissible(s, events, PARAMS) && OurRun(s, events)
    ensures Run(s, events, PARAMS) == State(swept[id := Claimed(swept[id], s.now)], s.live[w := id], s.now)
    decreases |BuriedIds(s.rows, swept)|
  {
    if x :| x in BuriedIds(s.rows, swept) {
      var bury := BuryNext(s, swept, x, PARAMS);
      var rest := ClaimIsOurRun(Apply(s, bury, PARAMS), swept, w, id, since);
      events := [bury] + rest;
      assert events[1..] == rest;
    } else {
      forall y | y in swept ensures swept[y] == s.rows[y] {
        assert y !in BuriedIds(s.rows, swept);
      }
      assert swept == s.rows;
      events := [Claim(w, id)];
      assert events[1..] == [];
    }
  }

  /** A whole turn of the drain, from the claim at `s.now` to the landing at `landedAt`, is a run of the
      queue, as long as the attempt ends while every live run is fresh. */
  lemma DrainTurnIsOurRun(s: State<Entry>, swept: map<Id, Row<Entry>>, w: Worker, since: int, turn: Turn, landedAt: int)
    returns (events: seq<Event<Entry>>)
    requires Inv(s, PARAMS) && Fresh(s, PARAMS) && w !in s.live && s.now <= landedAt
    requires !turn.Empty? && SweptMentions(s.rows, swept, since, s.now) && Oldest(swept, turn.id, s.now, PARAMS)
    requires swept[turn.id] == s.rows[turn.id] && swept[turn.id].attempts < MAX_ATTEMPTS && Fits(swept[turn.id], turn)
    requires Fresh(State(swept[turn.id := Claimed(swept[turn.id], s.now)], s.live[w := turn.id], s.now), PARAMS)
    requires Fresh(State(swept[turn.id := Claimed(swept[turn.id], s.now)], s.live[w := turn.id], landedAt), PARAMS)
    ensures Admissible(s, events, PARAMS) && OurRun(s, events)
    ensures Run(s, events, PARAMS)
            == State(swept[turn.id := After(Claimed(swept[turn.id], s.now), turn, landedAt)], s.live, landedAt)
  {
    var id, row := turn.id, Claimed(swept[turn.id], s.now);
    events := ClaimIsOurRun(s, swept, w, id, since);
    var claimed := Run(s, events, PARAMS);
    OurRunExtends(s, events, Tick(landedAt - s.now));
    events := events + [Tick(landedAt - s.now)];
    var t := Run(s, events, PARAMS);
    assert t == State(swept[id := row], s.live[w := id], landedAt);
    TurnIsOurs(t, w, turn, landedAt);
    OurRunExtends(s, events, TurnEvent(row, w, turn, landedAt));
    events := events + [TurnEvent(row, w, turn, landedAt)];
    assert s.live[w := id] - {w} == s.live;
    assert swept[id := row][id := After(row, turn, landedAt)] == swept[id := After(row, turn, landedAt)];
  }

  /** In every interleaving of the producers and of workers whose attempts end within the stale
      window: a row is done exactly when its outcome is set and then holds no payload, a row not done
      still holds a mention of its own post, so no attempt ever finds a malformed one, and no two
      workers hold one row. */
  lemma {:induction false} MentionsStaySound(s: State<Entry>, events: seq<Event<Entry>>)
    requires Inv(s, PARAMS) && RowsSound(s.rows) && Admissible(s, events, PARAMS) && OurRun(s, events)
    ensures RowsSound(Run(s, events, PARAMS).rows) && Exclusive(Run(s, events, PARAMS))
    ensures forall w :: w in Run(s, events, PARAMS).live ==>
              var t := Run(s, events, PARAMS);
              t.live[w] in t.rows && FromPayload(t.rows[t.live[w]].data.payload).Some?
    decreases events
  {
    if events != [] {
      StepKeepsInv(s, events[0], PARAMS);
      MentionsStaySound(Apply(s, events[0], PARAMS), events[1..]);
    }
  }
}
