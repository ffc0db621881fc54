/** The lifetime of a staged object: uploads whose key check and insert other sessions may come between,
    over the archive queue. The enqueue takes no lock and no constraint makes keys unique. */
module StagedKeys {
  import opened Basics
  import opened ClaimQueue
  import opened ArchiveJobs

  type Req = nat

  /** `checked` are the requests that found their key free and have not inserted their row yet. */
  datatype World = World(queue: State<Job>, checked: map<Req, string>)

  datatype Step =
    | Check(req: Req, zipKey: string)
    | Insert(req: Req, id: Id, owner: UserId, now: int)
    | Work(event: Event<Job>)

  ghost predicate Can(w: World, e: Step) {
    match e
    case Check(req, _) => req !in w.checked
    case Insert(req, id, _, _) => req in w.checked && id !in w.queue.rows
    case Work(event) => !event.Enqueue? && Enabled(w.queue, event, PARAMS) && Honest(w.queue, event)
  }

  /** A check that finds the key held refuses the upload. */
  function Do(w: World, e: Step): World
    requires Can(w, e)
  {
    match e
    case Check(req, zipKey) => if KeyFree(w.queue.rows, zipKey) then w.(checked := w.checked[req := zipKey]) else w
    case Insert(req, id, owner, now) =>
      World(Apply(w.queue, ClaimQueue.Enqueue(id, now, NewJob(owner, w.checked[req], now).data), PARAMS),
            w.checked - {req})
    case Work(event) => w.(queue := Apply(w.queue, event, PARAMS))
  }

  /** Every step was possible, and no live run's stamp was stale, when it happened. */
  ghost predicate Allowed(w: World, steps: seq<Step>)
    decreases steps
  {
    steps == [] || (Fresh(w.queue, PARAMS) && Can(w, steps[0]) && Allowed(Do(w, steps[0]), steps[1..]))
  }

  ghost function After(w: World, steps: seq<Step>): World
    requires Allowed(w, steps)
    decreases steps
  {
    if steps == [] then w else After(Do(w, steps[0]), steps[1..])
  }

  /** Nobody else's request for the key is between its check and its insert. */
  predicate Alone(w: World, zipKey: string) {
    forall req :: req in w.checked ==> w.checked[req] != zipKey
  }

  predicate Lone(w: World, e: Step) {
    e.Check? && KeyFree(w.queue.rows, e.zipKey) ==> Alone(w, e.zipKey)
  }

  /** No check of the run found another request for its key under way. */
  ghost predicate LoneChecks(w: World, steps: seq<Step>)
    requires Allowed(w, steps)
    decreases steps
  {
    steps == [] || (Lone(w, steps[0]) && LoneChecks(Do(w, steps[0]), steps[1..]))
  }

  /** Every key is one job's or one request's. */
  ghost predicate OneHolderEach(w: World) {
    && OneKeyOneJob(w.queue.rows)
    && (forall req :: req in w.checked ==> KeyFree(w.queue.rows, w.checked[req]))
    && forall r, q :: r in w.checked && q in w.checked && r != q ==> w.checked[r] != w.checked[q]
  }

  ghost predicate Sound(w: World) {
    Inv(w.queue, PARAMS) && OneHolderEach(w)
  }

  /** Whatever the queue deletes next, no run live before and after works on the deleted object. */
  ghost predicate Protected(s: State<Job>) {
    forall e, w :: Enabled(s, e, PARAMS) && Honest(s, e) && w in s.live && w in Apply(s, e, PARAMS).live ==>
      s.live[w] in s.rows && s.rows[s.live[w]].data.zipKey !in Deleted(s, e)
  }

  /** What the workers do moves no key. */
  lemma WorkKeepsKeys(s: State<Job>, e: Event<Job>)
    requires !e.Enqueue? && Enabled(s, e, PARAMS) && Honest(s, e)
    ensures var rows := Apply(s, e, PARAMS).rows;
            rows.Keys == s.rows.Keys && forall id :: id in rows ==> rows[id].data.zipKey == s.rows[id].data.zipKey
  {
  }

  lemma InsertKeepsHolders(w: World, e: Step)
    requires OneHolderEach(w) && e.Insert? && Can(w, e)
    ensures OneHolderEach(Do(w, e))
  {
  }

  lemma StepKeepsSound(w: World, e: Step)
    requires Sound(w) && Fresh(w.queue, PARAMS) && Can(w, e) && Lone(w, e)
    ensures Sound(Do(w, e))
  {
    match e
    case Check(_, _) =>
    case Insert(req, id, owner, now) =>
      StepKeepsInv(w.queue, ClaimQueue.Enqueue(id, now, NewJob(owner, w.checked[req], now).data), PARAMS);
      InsertKeepsHolders(w, e);
    case Work(event) =>
      StepKeepsInv(w.queue, event, PARAMS);
      WorkKeepsKeys(w.queue, event);
  }

  /** One staged key backs at most one job, over every run of lone checks. */
  lemma {:induction false} KeysStayDistinct(w: World, steps: seq<Step>)
    requires Sound(w) && Allowed(w, steps) && LoneChecks(w, steps)
    ensures Sound(After(w, steps)) && OneKeyOneJob(After(w, steps).queue.rows)
    decreases steps
  {
    if steps != [] {
      StepKeepsSound(w, steps[0]);
      KeysStayDistinct(Do(w, steps[0]), steps[1..]);
    }
  }

  lemma DistinctKeysProtect(s: State<Job>)
    requires Inv(s, PARAMS) && Fresh(s, PARAMS) && OneKeyOneJob(s.rows)
    ensures Protected(s)
  {
  }

  /** After any run of lone checks, whatever the queue deletes next, no run that is still live works on the
      deleted object. */
  lemma NeverDeletedUnderALiveRun(w: World, steps: seq<Step>)
    requires Sound(w) && Allowed(w, steps) && LoneChecks(w, steps) && Fresh(After(w, steps).queue, PARAMS)
    ensures Protected(After(w, steps).queue)
  {
    KeysStayDistinct(w, steps);
    DistinctKeysProtect(After(w, steps).queue);
  }

  // ---- When a check is not alone

  lemma AfterCons(w: World, e: Step, rest: seq<Step>)
    requires Fresh(w.queue, PARAMS) && Can(w, e) && Allowed(Do(w, e), rest)
    ensures Allowed(w, [e] + rest) && After(w, [e] + rest) == After(Do(w, e), rest)
    ensures Lone(w, e) && LoneChecks(Do(w, e), rest) ==> LoneChecks(w, [e] + rest)
  {
    assert ([e] + rest)[1..] == rest;
  }

  /** Both requests insert their rows, and two workers claim them. */
  function BothWays(r: Req, q: Req, i: Id, j: Id, w: Worker, v: Worker, now: int): seq<Step> {
    [Insert(r, i, 0, now)] + ([Insert(q, j, 0, now)] + ([Work(Claim(w, i))] + [Work(Claim(v, j))]))
  }

  /** Two requests for one key between check and insert: a run of no further check on which a landing deletes
      the object under the other live run. */
  lemma SharedKeyRun(w: World, r: Req, q: Req) returns (steps: seq<Step>)
    requires Inv(w.queue, PARAMS) && Fresh(w.queue, PARAMS)
    requires r in w.checked && q in w.checked && r != q && w.checked[r] == w.checked[q]
    ensures Allowed(w, steps) && LoneChecks(w, steps) && Fresh(After(w, steps).queue, PARAMS)
    ensures !OneKeyOneJob(After(w, steps).queue.rows) && !Protected(After(w, steps).queue)
  {
    var s, key := w.queue, w.checked[r];
    var i := Unused(s.rows.Keys);
    var a := Unused(s.live.Keys);
    var j, b := i + 1, a + 1;
    var insertR, insertQ := Insert(r, i, 0, s.now), Insert(q, j, 0, s.now);
    var claimI, claimJ := Work(Claim(a, i)), Work(Claim(b, j));
    var w1 := Do(w, insertR);
    var w2 := Do(w1, insertQ);
    var w3 := Do(w2, claimI);
    var w4 := Do(w3, claimJ);
    AfterCons(w3, claimJ, []);
    assert [claimJ] + [] == [claimJ];
    AfterCons(w2, claimI, [claimJ]);
    AfterCons(w1, insertQ, [claimI] + [claimJ]);
    AfterCons(w, insertR, [insertQ] + ([claimI] + [claimJ]));
    steps := BothWays(r, q, i, j, a, b, s.now);
    SharedKeyUnprotected(w4.queue, a, b);
  }

  lemma SharedKeyUnprotected(s: State<Job>, a: Worker, b: Worker)
    requires a in s.live && b in s.live && a != b && s.live[a] in s.rows && s.live[b] in s.rows
    requires s.rows[s.live[a]].data.zipKey == s.rows[s.live[b]].data.zipKey
    ensures !Protected(s)
  {
    var e := LandingOf(a, s.rows[s.live[a]], None, NONE_YET, s.now);
    LandingIsHonest(s, a, None, NONE_YET, s.now);
    assert b in Apply(s, e, PARAMS).live && s.rows[s.live[b]].data.zipKey in Deleted(s, e);
  }

  /** The exact condition on a check that finds its key free: over every later run of lone checks one key backs
      one job, and no object is deleted under a live run, if and only if no other request for the key is
      between its check and its insert. */
  lemma CheckExact(w: World, req: Req, zipKey: string)
    requires Sound(w) && Fresh(w.queue, PARAMS) && req !in w.checked && KeyFree(w.queue.rows, zipKey)
    ensures var t := Do(w, Check(req, zipKey));
            && (Alone(w, zipKey) <==> forall steps :: Allowed(t, steps) && LoneChecks(t, steps) ==>
                                        OneKeyOneJob(After(t, steps).queue.rows))
            && (Alone(w, zipKey) <==> forall steps :: Allowed(t, steps) && LoneChecks(t, steps)
                                                      && Fresh(After(t, steps).queue, PARAMS) ==>
                                        Protected(After(t, steps).queue))
  {
    var t := Do(w, Check(req, zipKey));
    if Alone(w, zipKey) {
      StepKeepsSound(w, Check(req, zipKey));
      forall steps | Allowed(t, steps) && LoneChecks(t, steps) ensures OneKeyOneJob(After(t, steps).queue.rows) {
        KeysStayDistinct(t, steps);
      }
      forall steps | Allowed(t, steps) && LoneChecks(t, steps) && Fresh(After(t, steps).queue, PARAMS)
        ensures Protected(After(t, steps).queue)
      {
        NeverDeletedUnderALiveRun(t, steps);
      }
    } else {
      var other :| other in w.checked && w.checked[other] == zipKey;
      var steps := SharedKeyRun(t, req, other);
    }
  }

  /** The failing run, from empty tables: two uploads of one key both find it free, and the first job to land
      deletes the object the second is still reading. */
  lemma TwoJobsOneObject(zipKey: string, now: int) returns (steps: seq<Step>)
    ensures var start := World(State(map[], map[], now), map[]);
            && Sound(start) && Allowed(start, steps) && Fresh(After(start, steps).queue, PARAMS)
            && !OneKeyOneJob(After(start, steps).queue.rows) && !Protected(After(start, steps).queue)
  {
    var start := World(State(map[], map[], now), map[]);
    var w1 := Do(start, Check(0, zipKey));
    var w2 := Do(w1, Check(1, zipKey));
    var rest := SharedKeyRun(w2, 0, 1);
    AfterCons(w1, Check(1, zipKey), rest);
    AfterCons(start, Check(0, zipKey), [Check(1, zipKey)] + rest);
    steps := [Check(0, zipKey)] + ([Check(1, zipKey)] + rest);
  }

  /** The in-place enqueue, uninterrupted, is a check and its insert. */
  lemma EnqueueIsCheckAndInsert(w: World, req: Req, id: Id, owner: UserId, zipKey: string, now: int)
    requires Fresh(w.queue, PARAMS) && req !in w.checked && id !in w.queue.rows && KeyFree(w.queue.rows, zipKey)
    ensures var steps := [Check(req, zipKey)] + [Insert(req, id, owner, now)];
            && Allowed(w, steps)
            && After(w, steps) == w.(queue := w.queue.(rows := w.queue.rows[id := NewJob(owner, zipKey, now)]))
  {
    var check, insert := Check(req, zipKey), Insert(req, id, owner, now);
    AfterCons(Do(w, check), insert, []);
    assert [insert] + [] == [insert];
    AfterCons(w, check, [insert]);
    assert w.checked[req := zipKey] - {req} == w.checked;
  }
}
