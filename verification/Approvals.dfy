/** Approvals and the requests for them: one state machine over events, versions, credit, approvals and
    requests. Membership, audience and publication are other services' facts, given to each step. */
module Approvals {
  import opened Basics

  type UserId = nat
  type OrgId = nat
  type EventId = nat

  const DECLINE_COOLDOWN := 7 * 24 * 60 * 60 * 1000
  const DAY := 24 * 60 * 60 * 1000

  datatype Target = Analyst(user: UserId) | Organization(org: OrgId)

  datatype Approval = Approval(event: EventId, version: nat, reviewer: UserId, organization: Option<OrgId>)

  datatype Status = Open | Approved | Declined | Withdrawn

  datatype Request = Request(event: EventId, version: nat, requester: UserId, target: Target, status: Status,
                             createdAt: int, resolvedAt: Option<int>)

  const MAX_EVENT_GEOLOCATORS := 10

  /** An event's credited analysts, its owner among them; those invited to join them; and all who ever
      held credit, the departed too. */
  datatype Credits = Credits(owner: UserId, active: set<UserId>, invited: set<UserId>, ever: set<UserId>)

  /** `live` is each event's live version, and `erased` the accounts that are no more; `log` remembers every
      request ever created, the deleted ones too, and a request's id is its place in it. */
  datatype State = State(live: map<EventId, nat>, credits: map<EventId, Credits>, erased: set<UserId>,
                         approvals: map<nat, Approval>, requests: map<nat, Request>, log: seq<Request>, now: int)

  /** Whose an approval is: the organization's, or the reviewer's own. */
  function Attester(a: Approval): Target {
    if a.organization.Some? then Organization(a.organization.value) else Analyst(a.reviewer)
  }

  predicate Current(s: State, a: Approval) {
    a.event in s.live && a.version == s.live[a.event]
  }

  predicate Reviewed(s: State, event: EventId, version: nat, target: Target) {
    exists id :: id in s.approvals && s.approvals[id].event == event && s.approvals[id].version == version
                 && Attester(s.approvals[id]) == target
  }

  predicate Matches(r: Request, event: EventId, requester: UserId, target: Target) {
    r.event == event && r.requester == requester && r.target == target
  }

  predicate Asked(s: State, event: EventId, requester: UserId, target: Target) {
    exists id :: id in s.requests && Matches(s.requests[id], event, requester, target) && s.requests[id].status.Open?
  }

  predicate DeclinedRecently(s: State, event: EventId, requester: UserId, target: Target, now: int) {
    exists id :: id in s.requests && Matches(s.requests[id], event, requester, target)
        && s.requests[id].status.Declined?
                 && s.requests[id].resolvedAt.Some? && s.requests[id].resolvedAt.value >= now - DECLINE_COOLDOWN
  }

  /** What the daily cap counts: the rows the requester created in the trailing day. */
  function Sent(requests: map<nat, Request>, requester: UserId, now: int): set<nat> {
    set id | id in requests && requests[id].requester == requester && requests[id].createdAt >= now - DAY
  }

  // ---- Asking

  datatype RequestError =
    | InvalidState | NotAGeolocator | TargetNotFound | TargetIsGeolocator | RequestsNotAccepted | AlreadyApproved
    | AlreadyRequested | RecentlyDeclined | DailyCapReached

  /** The facts of a request the rows here do not hold: the event is published, the requester is
      credited on it, the target exists, can review it, and its audience admits the requester. */
  datatype Facts = Facts(published: bool, credited: bool, found: bool, independent: bool, admits: bool)

  function TargetRefusal(s: State, event: EventId, requester: UserId, target: Target, facts: Facts, checkAudience: bool,
                         now: int): Option<RequestError>
    requires event in s.live
  {
    if !facts.found then Some(TargetNotFound)
    else if !facts.independent then Some(TargetIsGeolocator)
    else if checkAudience && !facts.admits then Some(RequestsNotAccepted)
    else if Reviewed(s, event, s.live[event], target) then Some(AlreadyApproved)
    else if Asked(s, event, requester, target) then Some(AlreadyRequested)
    else if DeclinedRecently(s, event, requester, target, now) then Some(RecentlyDeclined)
    else None
  }

  function Refusal(s: State, event: EventId, requester: UserId, target: Target, facts: Facts, cap: nat, now: int)
    : Option<RequestError>
    requires event in s.live
  {
    if !facts.published then Some(InvalidState)
    else if !facts.credited then Some(NotAGeolocator)
    else if TargetRefusal(s, event, requester, target, facts, true, now).Some? then
      TargetRefusal(s, event, requester, target, facts, true, now)
    else if |Sent(s.requests, requester, now)| >= cap then Some(DailyCapReached)
    else None
  }

  // ---- Approving and declining

  datatype ApproveError = NotApprovable | NotAMember | GeolocatorCannotApprove | VersionMismatch | AlreadyReviewed

  datatype Standing = Standing(published: bool, member: bool, everCredited: bool)

  function ApproveRefusal(s: State, event: EventId, version: nat, target: Target,
                          standing: Standing): Option<ApproveError>
    requires event in s.live
  {
    if !standing.published then Some(NotApprovable)
    else if target.Organization? && !standing.member then Some(NotAMember)
    else if standing.everCredited then Some(GeolocatorCannotApprove)
    else if version != s.live[event] then Some(VersionMismatch)
    else if Reviewed(s, event, version, target) then Some(AlreadyReviewed)
    else None
  }

  /** Every open request the target received for the event is answered. */
  function Answered(requests: map<nat, Request>, event: EventId, target: Target, now: int): map<nat, Request> {
    map id | id in requests ::
      if requests[id].event == event && requests[id].target == target && requests[id].status.Open?
      then requests[id].(status := Approved, resolvedAt := Some(now)) else requests[id]
  }

  datatype DeclineError = NotFound | AlreadyResolved

  function DeclineRefusal(s: State, id: nat, event: EventId, answerable: bool): Option<DeclineError> {
    if id !in s.requests || s.requests[id].event != event || !answerable then Some(NotFound)
    else if !s.requests[id].status.Open? then Some(AlreadyResolved)
    else None
  }

  // ---- The steps

  /** `at` is when a row is written; a request is checked at an earlier reading of the clock. `Erase` is the
      cascade of events, accounts (`users`) or organizations erased with their rows. */
  datatype Step =
    | Publish(event: EventId, owner: UserId)
    | Bump(event: EventId)
    | Ask(event: EventId, requester: UserId, target: Target, facts: Facts, check: int, at: int)
    | Approve(id: nat, event: EventId, version: nat, reviewer: UserId, organization: Option<OrgId>, standing: Standing,
              at: int)
    | Decline(id: nat, event: EventId, answerable: bool, at: int)
    | AdminDelete(id: nat)
    | Invite(event: EventId, user: UserId)
    | Uninvite(event: EventId, user: UserId)
    | Join(event: EventId, user: UserId, at: int)
    | Leave(event: EventId, user: UserId, at: int)
    | Erase(users: set<UserId>, requests: set<nat>, approvals: set<nat>, at: int)

  predicate Credited(s: State, event: EventId, user: UserId) {
    event in s.credits && user in s.credits[event].active
  }

  predicate Invited(s: State, event: EventId, user: UserId) {
    event in s.credits && user in s.credits[event].invited
  }

  predicate EverCredited(s: State, event: EventId, user: UserId) {
    event in s.credits && user in s.credits[event].ever
  }

  /** The facts given to a step agree with the credit held, now and ever, and with the accounts erased. */
  predicate Agree(s: State, event: EventId, requester: UserId, target: Target, facts: Facts) {
    && (facts.credited <==> Credited(s, event, requester))
    && (target.Analyst? && EverCredited(s, event, target.user) ==> !facts.independent)
    && (target.Analyst? && target.user in s.erased ==> !facts.found)
  }

  /** New rows take new ids, the clock never goes back, an erased account does nothing, and a join answers an
      invitation. */
  predicate Enabled(s: State, e: Step) {
    match e
    case Publish(event, owner) => event !in s.live && owner !in s.erased
    case Bump(event) => event in s.live
    case Ask(event, requester, target, facts, check, at) =>
      && event in s.live && requester !in s.erased && Agree(s, event, requester, target, facts)
      && s.now <= check <= at
    case Approve(id, event, _, reviewer, _, standing, at) =>
      && id !in s.approvals && event in s.live && (EverCredited(s, event, reviewer) ==> standing.everCredited)
      && s.now <= at
    case Decline(_, _, _, at) => s.now <= at
    case AdminDelete(_) => true
    case Invite(event, user) => event in s.credits && !Credited(s, event, user) && !Invited(s, event, user)
    case Uninvite(event, user) => Invited(s, event, user)
    case Join(event, user, at) => Invited(s, event, user) && s.now <= at
    case Leave(event, user, at) => Credited(s, event, user) && s.credits[event].owner != user && s.now <= at
    case Erase(_, _, _, at) => s.now <= at
  }

  function Apply(s: State, e: Step, cap: nat): State
    requires Enabled(s, e)
  {
    match e
    case Publish(event, owner) =>
      s.(live := s.live[event := 1], credits := s.credits[event := Credits(owner, {owner}, {}, {owner})])
    case Bump(event) => s.(live := s.live[event := s.live[event] + 1])
    case Ask(event, requester, target, facts, check, at) =>
      if Refusal(s, event, requester, target, facts, cap, check).Some? then s
      else Filed(s, Request(event, s.live[event], requester, target, Open, at, None))
    case Approve(id, event, version, reviewer, organization, standing, at) =>
      var a := Approval(event, version, reviewer, organization);
      if ApproveRefusal(s, event, version, Attester(a), standing).Some? then s
      else s.(approvals := s.approvals[id := a], requests := Answered(s.requests, event, Attester(a), at), now := at)
    case Decline(id, event, answerable, at) =>
      if DeclineRefusal(s, id, event, answerable).Some? then s
      else s.(requests := s.requests[id := s.requests[id].(status := Declined, resolvedAt := Some(at))], now := at)
    case AdminDelete(id) => s.(approvals := s.approvals - {id})
    case Invite(event, user) => s.(credits := s.credits[event := Inviting(s.credits[event], user)])
    case Uninvite(event, user) => s.(credits := s.credits[event := Uninviting(s.credits[event], user)])
    case Join(event, user, at) =>
      s.(credits := s.credits[event := Joining(s.credits[event], user)],
         approvals := Unattested(s.approvals, event, user),
         requests := Unasked(s.requests, event, user), now := at)
    case Leave(event, user, at) =>
      s.(credits := s.credits[event := Leaving(s.credits[event], user)],
         requests := Retracted(s.requests, event, user, at),
         now := at)
    case Erase(users, requests, approvals, at) =>
      s.(erased := s.erased + users, requests := s.requests - requests, approvals := s.approvals - approvals, now := at)
  }

  function Inviting(c: Credits, user: UserId): Credits {
    c.(invited := c.invited + {user})
  }

  function Uninviting(c: Credits, user: UserId): Credits {
    c.(invited := c.invited - {user})
  }

  function Joining(c: Credits, user: UserId): Credits {
    c.(active := c.active + {user}, invited := c.invited - {user}, ever := c.ever + {user})
  }

  function Leaving(c: Credits, user: UserId): Credits {
    c.(active := c.active - {user})
  }

  function Filed(s: State, r: Request): State {
    s.(requests := s.requests[|s.log| := r], log := s.log + [r], now := r.createdAt)
  }

  /** An analyst credited on the event loses the approvals they placed there, an organization's too, and
      the open requests that ask them. */
  function Unattested(approvals: map<nat, Approval>, event: EventId, user: UserId): map<nat, Approval> {
    map id | id in approvals && !(approvals[id].event == event && approvals[id].reviewer == user) :: approvals[id]
  }

  predicate AsksOf(r: Request, event: EventId, user: UserId) {
    r.event == event && r.target == Analyst(user) && r.status.Open?
  }

  function Unasked(requests: map<nat, Request>, event: EventId, user: UserId): map<nat, Request> {
    map id | id in requests && !AsksOf(requests[id], event, user) :: requests[id]
  }

  /** An analyst who lost their credit has their open requests withdrawn. */
  function Retracted(requests: map<nat, Request>, event: EventId, user: UserId, now: int): map<nat, Request> {
    map id | id in requests ::
      if requests[id].event == event && requests[id].requester == user && requests[id].status.Open?
      then requests[id].(status := Withdrawn, resolvedAt := Some(now)) else requests[id]
  }

  ghost predicate Possible(s: State, steps: seq<Step>, cap: nat)
    decreases steps
  {
    steps == [] || (Enabled(s, steps[0]) && Possible(Apply(s, steps[0], cap), steps[1..], cap))
  }

  function Run(s: State, steps: seq<Step>, cap: nat): State
    requires Possible(s, steps, cap)
    decreases steps
  {
    if steps == [] then s else Run(Apply(s, steps[0], cap), steps[1..], cap)
  }

  // ---- When each step is accepted, in the facts and the rows alone

  /** An approval of the version under the same name: the organization's, or the reviewer's own. */
  predicate Attested(s: State, event: EventId, version: nat, reviewer: UserId, organization: Option<OrgId>) {
    exists i :: i in s.approvals && s.approvals[i].event == event && s.approvals[i].version == version
                && s.approvals[i].organization == organization
                && (organization.None? ==> s.approvals[i].reviewer == reviewer)
  }

  lemma AttestedIsReviewed(s: State, event: EventId, version: nat, reviewer: UserId, organization: Option<OrgId>)
    ensures Attested(s, event, version, reviewer, organization)
            <==> Reviewed(s, event, version, Attester(Approval(event, version, reviewer, organization)))
  {
  }

  /** The refusals of an approval, each on its own guard, the first counting. */
  lemma WhyApprovalsFail(s: State, event: EventId, version: nat, reviewer: UserId, organization: Option<OrgId>,
                         standing: Standing)
    requires event in s.live
    ensures var name := Attester(Approval(event, version, reviewer, organization));
            var error := ApproveRefusal(s, event, version, name, standing);
            var outsider := organization.Some? && !standing.member;
            && (error == Some(NotApprovable) <==> !standing.published)
            && (error == Some(NotAMember) <==> standing.published && outsider)
            && (error == Some(GeolocatorCannotApprove) <==> standing.published && !outsider && standing.everCredited)
            && (error == Some(VersionMismatch) <==>
                  standing.published && !outsider && !standing.everCredited && version != s.live[event])
            && (error == Some(AlreadyReviewed) <==>
                  && standing.published && !outsider && !standing.everCredited && version == s.live[event]
                  && Attested(s, event, version, reviewer, organization))
  {
    AttestedIsReviewed(s, event, version, reviewer, organization);
  }

  /** The facts an approval is stored on. */
  predicate MayApprove(s: State, e: Step)
    requires e.Approve?
  {
    && e.event in s.live && e.standing.published && (e.organization.Some? ==> e.standing.member)
    && !e.standing.everCredited && e.version == s.live[e.event]
    && !Attested(s, e.event, e.version, e.reviewer, e.organization)
  }

  /** An approval is stored exactly on those facts, and answers exactly the open requests its name received for
      the event; otherwise nothing moves. */
  lemma ApprovesExactly(s: State, e: Step, cap: nat)
    requires e.Approve? && Enabled(s, e)
    ensures var t := Apply(s, e, cap);
            if !MayApprove(s, e) then t == s
            else
              && t.live == s.live && t.credits == s.credits && t.erased == s.erased && t.log == s.log && t.now == e.at
              && t.approvals == s.approvals[e.id := Approval(e.event, e.version, e.reviewer, e.organization)]
              && t.requests.Keys == s.requests.Keys
              && forall id :: id in s.requests ==>
                   t.requests[id] == if Receives(s.requests[id], e) && s.requests[id].status.Open?
                                     then s.requests[id].(status := Approved, resolvedAt := Some(e.at))
                                     else s.requests[id]
  {
    WhyApprovalsFail(s, e.event, e.version, e.reviewer, e.organization, e.standing);
  }

  predicate Receives(r: Request, e: Step)
    requires e.Approve?
  {
    && r.event == e.event
    && r.target == if e.organization.Some? then Organization(e.organization.value) else Analyst(e.reviewer)
  }

  // What stands against a request of a target.

  predicate TargetApproved(s: State, event: EventId, target: Target) {
    && event in s.live
    && exists i :: i in s.approvals && s.approvals[i].event == event && s.approvals[i].version == s.live[event]
                   && match target
                      case Organization(org) => s.approvals[i].organization == Some(org)
                      case Analyst(user) => s.approvals[i].organization.None? && s.approvals[i].reviewer == user
  }

  predicate OpenFor(s: State, event: EventId, requester: UserId, target: Target) {
    exists i :: i in s.requests && s.requests[i].event == event && s.requests[i].requester == requester
                && s.requests[i].target == target && s.requests[i].status == Open
  }

  /** Declined no more than a week before. */
  predicate DeclinedSince(s: State, event: EventId, requester: UserId, target: Target, now: int) {
    exists i :: i in s.requests && s.requests[i].event == event && s.requests[i].requester == requester
                && s.requests[i].target == target && s.requests[i].status == Declined
                && s.requests[i].resolvedAt.Some? && now - 7 * 86400000 <= s.requests[i].resolvedAt.value
  }

  function SentSince(s: State, requester: UserId, now: int): set<nat> {
    set i | i in s.requests && s.requests[i].requester == requester && now - 86400000 <= s.requests[i].createdAt
  }

  lemma TargetRowsAgree(s: State, event: EventId, requester: UserId, target: Target, now: int)
    requires event in s.live
    ensures Reviewed(s, event, s.live[event], target) <==> TargetApproved(s, event, target)
    ensures Asked(s, event, requester, target) <==> OpenFor(s, event, requester, target)
    ensures DeclinedRecently(s, event, requester, target, now) <==> DeclinedSince(s, event, requester, target, now)
    ensures Sent(s.requests, requester, now) == SentSince(s, requester, now)
  {
  }

  /** The refusals of a request's target, each on its own guard, the first counting. */
  lemma WhyTargetsFail(s: State, event: EventId, requester: UserId, target: Target, facts: Facts, checkAudience: bool,
                       now: int)
    requires event in s.live
    ensures var error := TargetRefusal(s, event, requester, target, facts, checkAudience, now);
            var reachable := facts.found && facts.independent && (checkAudience ==> facts.admits);
            var fits := reachable && !TargetApproved(s, event, target);
            && (error == Some(TargetNotFound) <==> !facts.found)
            && (error == Some(TargetIsGeolocator) <==> facts.found && !facts.independent)
            && (error == Some(RequestsNotAccepted) <==>
                  facts.found && facts.independent && checkAudience && !facts.admits)
            && (error == Some(AlreadyApproved) <==> reachable && TargetApproved(s, event, target))
            && (error == Some(AlreadyRequested) <==> fits && OpenFor(s, event, requester, target))
            && (error == Some(RecentlyDeclined) <==>
                  fits && !OpenFor(s, event, requester, target) && DeclinedSince(s, event, requester, target, now))
            && (error.None? <==>
                  fits && !OpenFor(s, event, requester, target) && !DeclinedSince(s, event, requester, target, now))
  {
    TargetRowsAgree(s, event, requester, target, now);
  }

  /** The facts a request is filed on. */
  predicate MayAsk(s: State, e: Step, cap: nat)
    requires e.Ask?
  {
    && e.event in s.live && e.facts.published && e.facts.credited
    && e.facts.found && e.facts.independent && e.facts.admits
    && !TargetApproved(s, e.event, e.target) && !OpenFor(s, e.event, e.requester, e.target)
    && !DeclinedSince(s, e.event, e.requester, e.target, e.check)
    && |SentSince(s, e.requester, e.check)| < cap
  }

  /** The refusals around the target's: what is checked before it, and the cap after it. */
  lemma WhyRequestsFail(s: State, event: EventId, requester: UserId, target: Target, facts: Facts, cap: nat, now: int)
    requires event in s.live
    ensures var error := Refusal(s, event, requester, target, facts, cap, now);
            var before := TargetRefusal(s, event, requester, target, facts, true, now);
            && (error == Some(InvalidState) <==> !facts.published)
            && (error == Some(NotAGeolocator) <==> facts.published && !facts.credited)
            && (facts.published && facts.credited && before.Some? ==> error == before)
            && (error == Some(DailyCapReached) <==>
                  facts.published && facts.credited && before.None? && |SentSince(s, requester, now)| >= cap)
            && (error.None? <==>
                  facts.published && facts.credited && before.None? && |SentSince(s, requester, now)| < cap)
  {
    TargetRowsAgree(s, event, requester, target, now);
  }

  /** A request is filed exactly on those facts, as one new open row of the live version; otherwise nothing
      moves. */
  lemma AsksExactly(s: State, e: Step, cap: nat)
    requires e.Ask? && Enabled(s, e)
    ensures var t := Apply(s, e, cap);
            if !MayAsk(s, e, cap) then t == s
            else
              var row := Request(e.event, s.live[e.event], e.requester, e.target, Open, e.at, None);
              t == s.(requests := s.requests[|s.log| := row], log := s.log + [row], now := e.at)
  {
    WhyTargetsFail(s, e.event, e.requester, e.target, e.facts, true, e.check);
    WhyRequestsFail(s, e.event, e.requester, e.target, e.facts, cap, e.check);
  }

  predicate MayDecline(s: State, e: Step)
    requires e.Decline?
  {
    e.id in s.requests && s.requests[e.id].event == e.event && e.answerable && s.requests[e.id].status == Open
  }

  /** A request is declined exactly when it is an open one of the event that the caller may answer, and nothing
      else moves. */
  lemma DeclinesExactly(s: State, e: Step, cap: nat)
    requires e.Decline? && Enabled(s, e)
    ensures Apply(s, e, cap)
            == if !MayDecline(s, e) then s
               else
                 var r := s.requests[e.id];
                 s.(requests := s.requests[e.id := r.(status := Declined, resolvedAt := Some(e.at))], now := e.at)
    ensures DeclineRefusal(s, e.id, e.event, e.answerable)
            == if e.id !in s.requests || s.requests[e.id].event != e.event || !e.answerable then Some(NotFound)
               else if s.requests[e.id].status != Open then Some(AlreadyResolved) else None
  {
  }

  /** An analyst who joins loses the approvals they placed on the event and the open requests that ask them;
      one who leaves has their own open requests withdrawn. Nothing else moves but their credit. */
  lemma JoinsExactly(s: State, e: Step, cap: nat)
    requires e.Join? && Enabled(s, e)
    ensures var t, c := Apply(s, e, cap), s.credits[e.event];
            && t.live == s.live && t.erased == s.erased && t.log == s.log && t.now == e.at
            && t.credits == s.credits[e.event := Credits(c.owner, c.active + {e.user}, c.invited - {e.user},
                                                         c.ever + {e.user})]
            && (forall i :: i in t.approvals <==>
                  i in s.approvals && !(s.approvals[i].event == e.event && s.approvals[i].reviewer == e.user))
            && (forall i :: i in t.approvals ==> t.approvals[i] == s.approvals[i])
            && (forall i :: i in t.requests <==>
                  i in s.requests && !(s.requests[i].event == e.event && s.requests[i].target == Analyst(e.user)
                                       && s.requests[i].status == Open))
            && (forall i :: i in t.requests ==> t.requests[i] == s.requests[i])
  {
  }

  lemma LeavesExactly(s: State, e: Step, cap: nat)
    requires e.Leave? && Enabled(s, e)
    ensures var t, c := Apply(s, e, cap), s.credits[e.event];
            && t.live == s.live && t.erased == s.erased && t.log == s.log && t.now == e.at
            && t.credits == s.credits[e.event := Credits(c.owner, c.active - {e.user}, c.invited, c.ever)]
            && t.approvals == s.approvals && t.requests.Keys == s.requests.Keys
            && forall i :: i in s.requests ==>
                 t.requests[i] == if s.requests[i].event == e.event && s.requests[i].requester == e.user
                                     && s.requests[i].status == Open
                                  then s.requests[i].(status := Withdrawn, resolvedAt := Some(e.at)) else s.requests[i]
  {
  }

  /** An event is published at its first version with its owner's credit, and each correction counts one more. */
  lemma VersionsExactly(s: State, event: EventId, owner: UserId, cap: nat)
    ensures Enabled(s, Publish(event, owner)) ==>
              Apply(s, Publish(event, owner), cap)
              == s.(live := s.live[event := 1], credits := s.credits[event := Credits(owner, {owner}, {}, {owner})])
    ensures Enabled(s, Bump(event)) ==>
              Apply(s, Bump(event), cap) == s.(live := s.live[event := s.live[event] + 1])
  {
  }

  /** An invitation moves nothing but the invited, a deletion nothing but its approval, and an erasure nothing but
      the rows it names. */
  lemma QuietStepsExactly(s: State, e: Step, cap: nat)
    requires Enabled(s, e)
    ensures e.Invite? ==>
              var c := s.credits[e.event];
              Apply(s, e, cap)
              == s.(credits := s.credits[e.event := Credits(c.owner, c.active, c.invited + {e.user}, c.ever)])
    ensures e.Uninvite? ==>
              var c := s.credits[e.event];
              Apply(s, e, cap)
              == s.(credits := s.credits[e.event := Credits(c.owner, c.active, c.invited - {e.user}, c.ever)])
    ensures e.AdminDelete? ==> Apply(s, e, cap) == s.(approvals := s.approvals - {e.id})
    ensures e.Erase? ==>
              Apply(s, e, cap) == s.(erased := s.erased + e.users, requests := s.requests - e.requests,
                                     approvals := s.approvals - e.approvals, now := e.at)
  {
  }

  // ---- Every row was earned

  /** The state before a run's step. */
  function StateAt(s: State, steps: seq<Step>, i: nat, cap: nat): State
    requires Possible(s, steps, cap) && i < |steps|
    decreases steps
  {
    if i == 0 then s else StateAt(Apply(s, steps[0], cap), steps[1..], i - 1, cap)
  }

  predicate PlacedBy(s: State, e: Step, id: nat, a: Approval) {
    e.Approve? && e.id == id && MayApprove(s, e) && a == Approval(e.event, e.version, e.reviewer, e.organization)
  }

  predicate FiledBy(s: State, e: Step, cap: nat, r: Request) {
    && e.Ask? && MayAsk(s, e, cap)
    && r.event == e.event && r.version == s.live[e.event] && r.requester == e.requester && r.target == e.target
    && r.createdAt == e.at
  }

  /** Who answered a request as it now stands. */
  predicate AnsweredBy(s: State, e: Step, id: nat, r: Request) {
    && r.resolvedAt.Some?
    && match r.status
       case Open => false
       case Approved => e.Approve? && MayApprove(s, e) && Receives(r, e) && r.resolvedAt.value == e.at
       case Declined => e.Decline? && e.id == id && MayDecline(s, e) && r.resolvedAt.value == e.at
       case Withdrawn => e.Leave? && e.event == r.event && e.user == r.requester && r.resolvedAt.value == e.at
  }

  lemma StepEarns(s: State, e: Step, cap: nat, id: nat)
    requires Enabled(s, e) && |s.log| !in s.requests
    ensures var t := Apply(s, e, cap);
            && (id in t.approvals && !(id in s.approvals && s.approvals[id] == t.approvals[id]) ==>
                  PlacedBy(s, e, id, t.approvals[id]))
            && (id in t.requests && id !in s.requests ==>
                  FiledBy(s, e, cap, t.requests[id]) && id < |t.log|)
            && (id in t.requests && id in s.requests && t.requests[id] != s.requests[id] ==>
                  AnsweredBy(s, e, id, t.requests[id]) && s.requests[id].status.Open?)
  {
    match e
    case Ask(_, _, _, _, _, _) => AsksExactly(s, e, cap);
    case Approve(_, _, _, _, _, _, _) => ApprovesExactly(s, e, cap);
    case Decline(_, _, _, _) => DeclinesExactly(s, e, cap);
    case Leave(_, _, _) => LeavesExactly(s, e, cap);
    case Join(_, _, _) => JoinsExactly(s, e, cap);
    case _ =>
  }

  /** Over any run, each approval that stands was placed by a step on those facts: of a published event's version
      then live, by a member when for an organization, never by anyone ever credited. */
  lemma {:induction false} ApprovalsWereEarned(s: State, steps: seq<Step>, cap: nat, id: nat) returns (i: nat)
    requires Inv(s) && Possible(s, steps, cap)
    requires id in Run(s, steps, cap).approvals
    requires !(id in s.approvals && s.approvals[id] == Run(s, steps, cap).approvals[id])
    ensures i < |steps| && PlacedBy(StateAt(s, steps, i, cap), steps[i], id, Run(s, steps, cap).approvals[id])
    decreases steps
  {
    var t, a := Apply(s, steps[0], cap), Run(s, steps, cap).approvals[id];
    StepEarns(s, steps[0], cap, id);
    if id in t.approvals && t.approvals[id] == a {
      i := 0;
    } else {
      StepKeepsInv(s, steps[0], cap);
      var j := ApprovalsWereEarned(t, steps[1..], cap, id);
      i := j + 1;
    }
  }

  /** Each request was filed by a step on the facts of a request, and each answer given by a step that may give
      it: an approval by its own target, a decline of an open request by someone who may answer it, or the
      requester's departure. */
  lemma {:induction false} RequestsWereEarned(s: State, steps: seq<Step>, cap: nat, id: nat) returns (i: nat)
    requires Inv(s) && Possible(s, steps, cap) && id in Run(s, steps, cap).requests && id !in s.requests
    ensures i < |steps| && FiledBy(StateAt(s, steps, i, cap), steps[i], cap, Run(s, steps, cap).requests[id])
    decreases steps
  {
    var t := Apply(s, steps[0], cap);
    StepEarns(s, steps[0], cap, id);
    StepKeepsInv(s, steps[0], cap);
    if id in t.requests {
      RowsKeepTheirAsk(t, steps[1..], cap, id);
      FiledAsks(s, steps[0], cap, t.requests[id], Run(t, steps[1..], cap).requests[id]);
      i := 0;
    } else {
      var j := RequestsWereEarned(t, steps[1..], cap, id);
      i := j + 1;
    }
  }

  lemma {:induction false} AnswersWereEarned(s: State, steps: seq<Step>, cap: nat, id: nat) returns (i: nat)
    requires Inv(s) && Possible(s, steps, cap) && id in Run(s, steps, cap).requests
    requires !Run(s, steps, cap).requests[id].status.Open? && (id in s.requests ==> s.requests[id].status.Open?)
    ensures i < |steps| && AnsweredBy(StateAt(s, steps, i, cap), steps[i], id, Run(s, steps, cap).requests[id])
    decreases steps
  {
    var t := Apply(s, steps[0], cap);
    StepEarns(s, steps[0], cap, id);
    StepKeepsInv(s, steps[0], cap);
    if id in t.requests && !t.requests[id].status.Open? {
      ResolvedStaysForGood(t, steps[1..], cap, id);
      i := 0;
    } else {
      var j := AnswersWereEarned(t, steps[1..], cap, id);
      i := j + 1;
    }
  }

  /** The same request, however answered. */
  predicate Asks(was: Request, r: Request) {
    r == was.(status := r.status, resolvedAt := r.resolvedAt)
  }

  lemma FiledAsks(s: State, e: Step, cap: nat, was: Request, r: Request)
    requires FiledBy(s, e, cap, was) && Asks(was, r)
    ensures FiledBy(s, e, cap, r)
  {
  }

  lemma {:induction false} RowsKeepTheirAsk(s: State, steps: seq<Step>, cap: nat, id: nat)
    requires Possible(s, steps, cap) && id < |s.log|
    ensures id in Run(s, steps, cap).requests ==>
              id in s.requests && Asks(s.requests[id], Run(s, steps, cap).requests[id])
    decreases steps
  {
    if steps != [] {
      StepKeepsAsk(s, steps[0], cap, id);
      RowsKeepTheirAsk(Apply(s, steps[0], cap), steps[1..], cap, id);
    }
  }

  lemma StepKeepsAsk(s: State, e: Step, cap: nat, id: nat)
    requires Enabled(s, e) && id < |s.log|
    ensures id < |Apply(s, e, cap).log|
    ensures id in Apply(s, e, cap).requests ==>
              id in s.requests && Asks(s.requests[id], Apply(s, e, cap).requests[id])
  {
  }

  // ---- What every step keeps

  /** At most one approval per event, version and attester, none ahead of the live version. */
  ghost predicate ApprovalsSound(s: State) {
    && (forall i :: i in s.approvals ==>
        s.approvals[i].event in s.live && s.approvals[i].version <= s.live[s.approvals[i].event])
    && forall i, j :: i in s.approvals && j in s.approvals && i != j ==> !SameReview(s.approvals[i], s.approvals[j])
  }

  predicate SameReview(a: Approval, b: Approval) {
    a.event == b.event && a.version == b.version && Attester(a) == Attester(b)
  }

  /** A request is the log's, resolved exactly when it is no longer open, and nothing is from the future. */
  ghost predicate Logged(requests: map<nat, Request>, log: seq<Request>, now: int) {
    && (forall id :: id in requests ==> id < |log| && OfLog(requests[id], log[id], now))
    && forall k :: 0 <= k < |log| ==> log[k].createdAt <= now
  }

  predicate OfLog(r: Request, sent: Request, now: int) {
    && r == sent.(status := r.status, resolvedAt := r.resolvedAt)
    && (r.status.Open? <==> r.resolvedAt.None?) && (r.resolvedAt.Some? ==> r.resolvedAt.value <= now)
  }

  predicate SameAsk(r: Request, q: Request) {
    Matches(q, r.event, r.requester, r.target)
  }

  /** While a request is open, no later one asks the same. */
  ghost predicate OpenIsLatest(requests: map<nat, Request>, log: seq<Request>) {
    forall id, k :: id in requests && id < k < |log| ==> Latest(requests[id], log[k])
  }

  predicate Latest(r: Request, later: Request) {
    r.status.Open? ==> !SameAsk(r, later)
  }

  predicate CooledAfter(r: Request, later: Request) {
    r.status.Declined? && SameAsk(r, later) ==>
      r.resolvedAt.Some? && later.createdAt > r.resolvedAt.value + DECLINE_COOLDOWN
  }

  /** No request follows the decline of the same one within the cooldown. */
  ghost predicate Cooled(requests: map<nat, Request>, log: seq<Request>) {
    forall id, k :: id in requests && id < k < |log| ==> CooledAfter(requests[id], log[k])
  }

  ghost predicate RequestsSound(requests: map<nat, Request>, log: seq<Request>, now: int) {
    Logged(requests, log, now) && OpenIsLatest(requests, log) && Cooled(requests, log)
  }

  /** No open request asks a target that approved the live version. */
  ghost predicate Apart(s: State) {
    forall id, a :: id in s.requests && a in s.approvals && s.requests[id].status.Open? ==>
      !Settles(s, s.approvals[a], s.requests[id])
  }

  predicate Settles(s: State, a: Approval, r: Request) {
    Current(s, a) && a.event == r.event && Attester(a) == r.target
  }

  ghost predicate Inv(s: State) {
    && ApprovalsSound(s) && RequestsSound(s.requests, s.log, s.now) && Apart(s)
    && forall id :: id in s.requests ==> s.requests[id].event in s.live
  }

  /** A row that stands, or that was open and is resolved at `at`. */
  predicate Moved(was: Request, r: Request, at: int) {
    r == was || (was.status.Open? && !r.status.Open? && r == was.(status := r.status, resolvedAt := Some(at)))
  }

  /** Deleting rows and resolving open ones keeps the requests sound. */
  lemma ResolvingKeeps(was: map<nat, Request>, requests: map<nat, Request>, log: seq<Request>, now: int, at: int)
    requires RequestsSound(was, log, now) && now <= at
    requires forall id :: id in requests ==> id in was && Moved(was[id], requests[id], at)
    ensures RequestsSound(requests, log, at)
  {
  }

  lemma ResolvingKeepsApart(s: State, t: State)
    requires Apart(s) && t.live == s.live
    requires forall id :: id in t.requests && t.requests[id].status.Open? ==>
             id in s.requests && s.requests[id] == t.requests[id]
    requires forall a :: a in t.approvals ==> a in s.approvals && t.approvals[a] == s.approvals[a]
    ensures Apart(t)
  {
  }

  /** A new row that no open row and no recent decline forbids. */
  lemma FilingKeeps(s: State, r: Request)
    requires RequestsSound(s.requests, s.log, s.now) && s.now <= r.createdAt && r.status.Open? && r.resolvedAt.None?
    requires forall id :: id in s.requests ==> Latest(s.requests[id], r) && CooledAfter(s.requests[id], r)
    ensures RequestsSound(Filed(s, r).requests, Filed(s, r).log, Filed(s, r).now)
  {
  }

  lemma AskAllowed(s: State, e: Step, cap: nat, r: Request, id: nat)
    requires e.Ask? && Enabled(s, e) && Refusal(s, e.event, e.requester, e.target, e.facts, cap, e.check).None?
    requires Matches(r, e.event, e.requester, e.target) && e.check <= r.createdAt && id in s.requests
    requires s.requests[id].status.Open? <==> s.requests[id].resolvedAt.None?
    ensures Latest(s.requests[id], r) && CooledAfter(s.requests[id], r)
  {
  }

  lemma AskKeeps(s: State, e: Step, cap: nat)
    requires Inv(s) && e.Ask? && Enabled(s, e)
    ensures Inv(Apply(s, e, cap))
  {
    if Refusal(s, e.event, e.requester, e.target, e.facts, cap, e.check).None? {
      var r := Request(e.event, s.live[e.event], e.requester, e.target, Open, e.at, None);
      forall id | id in s.requests ensures Latest(s.requests[id], r) && CooledAfter(s.requests[id], r) {
        assert OfLog(s.requests[id], s.log[id], s.now);
        AskAllowed(s, e, cap, r, id);
      }
      FilingKeeps(s, r);
      forall a | a in s.approvals ensures !Settles(s, s.approvals[a], r) {
        assert !Reviewed(s, e.event, s.live[e.event], e.target);
      }
    }
  }

  lemma ApproveKeeps(s: State, e: Step, cap: nat)
    requires Inv(s) && e.Approve? && Enabled(s, e)
    ensures Inv(Apply(s, e, cap))
  {
    var a := Approval(e.event, e.version, e.reviewer, e.organization);
    if ApproveRefusal(s, e.event, e.version, Attester(a), e.standing).None? {
      forall i | i in s.approvals ensures !SameReview(s.approvals[i], a) {
        assert !Reviewed(s, e.event, e.version, Attester(a));
      }
      ResolvingKeeps(s.requests, Apply(s, e, cap).requests, s.log, s.now, e.at);
    }
  }

  lemma DeclineKeeps(s: State, e: Step, cap: nat)
    requires Inv(s) && (e.Decline? || e.Leave?) && Enabled(s, e)
    ensures Inv(Apply(s, e, cap))
  {
    var t := Apply(s, e, cap);
    ResolvingKeeps(s.requests, t.requests, s.log, s.now, t.now);
    ResolvingKeepsApart(s, t);
  }

  lemma DeletingKeeps(s: State, e: Step, cap: nat)
    requires Inv(s) && (e.Join? || e.AdminDelete? || e.Erase?) && Enabled(s, e)
    ensures Inv(Apply(s, e, cap))
  {
    var t := Apply(s, e, cap);
    ResolvingKeeps(s.requests, t.requests, s.log, s.now, t.now);
    ResolvingKeepsApart(s, t);
  }

  lemma BumpKeeps(s: State, e: Step, cap: nat)
    requires Inv(s) && (e.Bump? || e.Publish?) && Enabled(s, e)
    ensures Inv(Apply(s, e, cap))
  {
  }

  lemma StepKeepsInv(s: State, e: Step, cap: nat)
    requires Inv(s) && Enabled(s, e)
    ensures Inv(Apply(s, e, cap))
  {
    match e
    case Ask(_, _, _, _, _, _) => AskKeeps(s, e, cap);
    case Approve(_, _, _, _, _, _, _) => ApproveKeeps(s, e, cap);
    case Decline(_, _, _, _) => DeclineKeeps(s, e, cap);
    case Leave(_, _, _) => DeclineKeeps(s, e, cap);
    case AdminDelete(_) => DeletingKeeps(s, e, cap);
    case Join(_, _, _) => DeletingKeeps(s, e, cap);
    case Erase(_, _, _, _) => DeletingKeeps(s, e, cap);
    case Publish(_, _) => BumpKeeps(s, e, cap);
    case Bump(_) => BumpKeeps(s, e, cap);
    case Invite(_, _) => assert Apply(s, e, cap) == s.(credits := Apply(s, e, cap).credits);
    case Uninvite(_, _) => assert Apply(s, e, cap) == s.(credits := Apply(s, e, cap).credits);
  }

  /** A resolved request never reopens and its answer never changes; only an erasure takes it away, and its
      id never comes back. */
  lemma ResolvedStays(s: State, e: Step, cap: nat, id: nat)
    requires Inv(s) && Enabled(s, e) && id < |s.log|
    requires id in s.requests ==> !s.requests[id].status.Open?
    ensures var t := Apply(s, e, cap);
            && id < |t.log| && (id in t.requests ==> id in s.requests && t.requests[id] == s.requests[id])
            && (id in s.requests && !(e.Erase? && id in e.requests) ==> id in t.requests)
  {
  }

  lemma {:induction false} RunKeepsInv(s: State, steps: seq<Step>, cap: nat)
    requires Inv(s) && Possible(s, steps, cap)
    ensures Inv(Run(s, steps, cap))
    decreases steps
  {
    if steps != [] {
      StepKeepsInv(s, steps[0], cap);
      RunKeepsInv(Apply(s, steps[0], cap), steps[1..], cap);
    }
  }

  lemma {:induction false} ResolvedStaysForGood(s: State, steps: seq<Step>, cap: nat, id: nat)
    requires Inv(s) && Possible(s, steps, cap) && id < |s.log|
    requires id in s.requests ==> !s.requests[id].status.Open?
    ensures var t := Run(s, steps, cap);
            && (id in t.requests ==> id in s.requests && t.requests[id] == s.requests[id])
            && (id in s.requests && (forall e :: e in steps && e.Erase? ==> id !in e.requests) ==> id in t.requests)
    decreases steps
  {
    if steps != [] {
      StepKeepsInv(s, steps[0], cap);
      ResolvedStays(s, steps[0], cap, id);
      assert steps[0] in steps && forall e :: e in steps[1..] ==> e in steps;
      ResolvedStaysForGood(Apply(s, steps[0], cap), steps[1..], cap, id);
    }
  }

  function Start(now: int): State {
    State(map[], map[], {}, map[], map[], [], now)
  }

  predicate BothOpen(r: Request, q: Request) {
    r.status.Open? && q.status.Open? && SameAsk(r, q)
  }

  ghost predicate OneOpenEach(s: State) {
    forall i, j :: i in s.requests && j in s.requests && BothOpen(s.requests[i], s.requests[j]) ==> i == j
  }

  ghost predicate OneReviewEach(s: State) {
    forall i, j :: i in s.approvals && j in s.approvals && SameReview(s.approvals[i], s.approvals[j]) ==> i == j
  }

  ghost predicate Consistent(s: State) {
    Apart(s) && OneReviewEach(s) && OneOpenEach(s) && Cooled(s.requests, s.log)
  }

  lemma InvConsistent(s: State)
    requires Inv(s)
    ensures Consistent(s)
  {
  }

  /** Over any run of requests, approvals, declines, version bumps, deletions, invitations, joins, departures
      and erasures: no open request coexists with its target's approval of the live version, a target
      approves a version at most once, a requester holds at most one open request per event and target,
      and no request follows a decline of the same one within the cooldown. */
  lemma NothingContradicts(steps: seq<Step>, cap: nat, start: int)
    requires Possible(Start(start), steps, cap)
    ensures Consistent(Run(Start(start), steps, cap))
  {
    RunKeepsInv(Start(start), steps, cap);
    InvConsistent(Run(Start(start), steps, cap));
  }

  // ---- Credit and review

  /** Nobody who holds or held credit on an event reviews it, or is asked to. */
  ghost predicate Impartial(s: State) {
    && (forall event :: event in s.credits ==> s.credits[event].active <= s.credits[event].ever)
    && (forall a :: a in s.approvals ==> !EverCredited(s, s.approvals[a].event, s.approvals[a].reviewer))
    && (forall id :: id in s.requests && s.requests[id].status.Open? && s.requests[id].target.Analyst? ==>
          !EverCredited(s, s.requests[id].event, s.requests[id].target.user))
    && (forall a :: a in s.approvals ==> s.approvals[a].event in s.live)
    && (forall id :: id in s.requests ==> s.requests[id].event in s.live)
  }

  lemma JoinKeepsImpartial(s: State, e: Step, cap: nat)
    requires Impartial(s) && e.Join? && Enabled(s, e)
    ensures Impartial(Apply(s, e, cap))
  {
  }

  lemma ReviewKeepsImpartial(s: State, e: Step, cap: nat)
    requires Impartial(s) && (e.Ask? || e.Approve?) && Enabled(s, e)
    ensures Impartial(Apply(s, e, cap))
  {
  }

  lemma StepKeepsImpartial(s: State, e: Step, cap: nat)
    requires Impartial(s) && Enabled(s, e)
    ensures Impartial(Apply(s, e, cap))
  {
    if e.Join? {
      JoinKeepsImpartial(s, e, cap);
    } else if e.Ask? || e.Approve? {
      ReviewKeepsImpartial(s, e, cap);
    }
  }

  /** Over any run, nobody who is or was a geolocator of an event holds an approval of it, for themselves or an
      organization, or an open request to approve it. */
  lemma {:induction false} GeolocatorsNeverReview(s: State, steps: seq<Step>, cap: nat)
    requires Impartial(s) && Possible(s, steps, cap)
    ensures Impartial(Run(s, steps, cap))
    decreases steps
  {
    if steps != [] {
      StepKeepsImpartial(s, steps[0], cap);
      GeolocatorsNeverReview(Apply(s, steps[0], cap), steps[1..], cap);
    }
  }

  // ---- The daily cap

  /** The requests a requester created in the day up to `t`; those whose rows are still there; and those
      whose rows are gone. */
  function Created(s: State, requester: UserId, t: int): set<nat> {
    set k | 0 <= k < |s.log| && s.log[k].requester == requester && t - DAY <= s.log[k].createdAt <= t
  }

  function Kept(s: State, requester: UserId, t: int): set<nat> {
    set k | k in Created(s, requester, t) && k in s.requests
  }

  function Deleted(s: State, requester: UserId, t: int): set<nat> {
    set k | k in Created(s, requester, t) && k !in s.requests
  }

  function KeptCount(s: State, requester: UserId, t: int): nat {
    |Kept(s, requester, t)|
  }

  ghost predicate Capped(s: State, cap: nat) {
    forall requester, t :: KeptCount(s, requester, t) <= cap
  }

  /** The window that ends no earlier than a request holds, besides it, only rows its check counted. */
  lemma AskKeepsCap(s: State, e: Step, cap: nat, t: int)
    requires Inv(s) && e.Ask? && Enabled(s, e) && Capped(s, cap)
    ensures KeptCount(Apply(s, e, cap), e.requester, t) <= cap
  {
    assert KeptCount(s, e.requester, t) <= cap;
    if Refusal(s, e.event, e.requester, e.target, e.facts, cap, e.check).None? {
      var next, k := Apply(s, e, cap), |s.log|;
      if t - DAY <= e.at <= t {
        forall id | id in Kept(next, e.requester, t) - {k} ensures id in Sent(s.requests, e.requester, e.check) {
          assert OfLog(s.requests[id], s.log[id], s.now);
        }
        SubsetSize(Kept(next, e.requester, t) - {k}, Sent(s.requests, e.requester, e.check));
      } else {
        SubsetSize(Kept(next, e.requester, t), Kept(s, e.requester, t));
      }
    }
  }

  lemma StepKeepsCap(s: State, e: Step, cap: nat)
    requires Inv(s) && Enabled(s, e) && Capped(s, cap)
    ensures Capped(Apply(s, e, cap), cap)
  {
    forall requester, t ensures KeptCount(Apply(s, e, cap), requester, t) <= cap {
      assert KeptCount(s, requester, t) <= cap;
      if e.Ask? && e.requester == requester {
        AskKeepsCap(s, e, cap, t);
      } else {
        SubsetSize(Kept(Apply(s, e, cap), requester, t), Kept(s, requester, t));
      }
    }
  }

  lemma {:induction false} RunKeepsCap(s: State, steps: seq<Step>, cap: nat)
    requires Inv(s) && Capped(s, cap) && Possible(s, steps, cap)
    ensures Capped(Run(s, steps, cap), cap)
    decreases steps
  {
    if steps != [] {
      StepKeepsInv(s, steps[0], cap);
      StepKeepsCap(s, steps[0], cap);
      RunKeepsCap(Apply(s, steps[0], cap), steps[1..], cap);
    }
  }

  /** The daily cap over any run: in every trailing day a requester creates at most the cap, plus the
      requests whose rows a join or an erasure has deleted, which the cap no longer counts. */
  lemma DailyCapHolds(steps: seq<Step>, cap: nat, start: int, requester: UserId, t: int)
    requires Possible(Start(start), steps, cap)
    ensures var s := Run(Start(start), steps, cap);
            |Created(s, requester, t)| <= cap + |Deleted(s, requester, t)|
  {
    StartsCapped(cap, start);
    RunKeepsCap(Start(start), steps, cap);
    var s := Run(Start(start), steps, cap);
    assert KeptCount(s, requester, t) <= cap;
    assert Created(s, requester, t) == Kept(s, requester, t) + Deleted(s, requester, t);
  }

  lemma StartsCapped(cap: nat, now: int)
    ensures Inv(Start(now)) && Capped(Start(now), cap)
  {
  }

  // ---- When the documented cap holds

  ghost predicate CappedCreations(s: State, cap: nat) {
    forall requester, t :: CreatedCount(s, requester, t) <= cap
  }

  function CreatedCount(s: State, requester: UserId, t: int): nat {
    |Created(s, requester, t)|
  }

  /** The rows gone are more than a day old, or of an account that is gone too. */
  ghost predicate OldGone(s: State) {
    forall k :: 0 <= k < |s.log| && k !in s.requests ==>
        s.log[k].createdAt < s.now - DAY || s.log[k].requester in s.erased
  }

  /** The rows a step deletes: the open requests that ask an analyst who joins, and an erasure's. */
  function Gone(s: State, e: Step): set<nat> {
    match e
    case Join(event, user, _) => set id | id in s.requests && AsksOf(s.requests[id], event, user)
    case Erase(_, requests, _, _) => requests * s.requests.Keys
    case _ => {}
  }

  /** No row it deletes was created in the day before by a requester who is still there. For a join: its
      delete matches no such open request to the analyst. */
  predicate Spares(s: State, e: Step) {
    (e.Join? || e.Erase?) ==> forall id :: id in Gone(s, e) && id in s.requests ==> Spent(s, e, s.requests[id])
  }

  predicate Spent(s: State, e: Step, r: Request)
    requires e.Join? || e.Erase?
  {
    r.createdAt < e.at - DAY || r.requester in s.erased || (e.Erase? && r.requester in e.users)
  }

  ghost predicate SparingRun(s: State, steps: seq<Step>, cap: nat)
    requires Possible(s, steps, cap)
    decreases steps
  {
    steps == [] || (Spares(s, steps[0]) && SparingRun(Apply(s, steps[0], cap), steps[1..], cap))
  }

  /** The check counts every row of any window that holds the new request, since none of them is gone. */
  lemma AskStaysCapped(s: State, e: Step, cap: nat, t: int)
    requires Inv(s) && e.Ask? && Enabled(s, e) && CappedCreations(s, cap) && OldGone(s)
    ensures CreatedCount(Apply(s, e, cap), e.requester, t) <= cap
  {
    assert CreatedCount(s, e.requester, t) <= cap;
    if Refusal(s, e.event, e.requester, e.target, e.facts, cap, e.check).None? {
      var next, k := Apply(s, e, cap), |s.log|;
      if t - DAY <= e.at <= t {
        forall id | id in Created(next, e.requester, t) - {k} ensures id in Sent(s.requests, e.requester, e.check) {
          assert s.log[id].createdAt >= s.now - DAY;
          assert OfLog(s.requests[id], s.log[id], s.now);
        }
        SubsetSize(Created(next, e.requester, t) - {k}, Sent(s.requests, e.requester, e.check));
      } else {
        SubsetSize(Created(next, e.requester, t), Created(s, e.requester, t));
      }
    }
  }

  lemma SparingStep(s: State, e: Step, cap: nat)
    requires Inv(s) && Enabled(s, e) && CappedCreations(s, cap) && OldGone(s) && Spares(s, e)
    ensures CappedCreations(Apply(s, e, cap), cap) && OldGone(Apply(s, e, cap))
  {
    var t := Apply(s, e, cap);
    forall requester, u ensures CreatedCount(t, requester, u) <= cap {
      assert CreatedCount(s, requester, u) <= cap;
      if e.Ask? && e.requester == requester {
        AskStaysCapped(s, e, cap, u);
      } else {
        SubsetSize(Created(t, requester, u), Created(s, requester, u));
      }
    }
    forall k | 0 <= k < |t.log| && k !in t.requests
      ensures t.log[k].createdAt < t.now - DAY || t.log[k].requester in t.erased
    {
      if k in s.requests {
        assert OfLog(s.requests[k], s.log[k], s.now);
        assert k in Gone(s, e);
      }
    }
  }

  lemma {:induction false} SparingRunsStayCapped(s: State, steps: seq<Step>, cap: nat)
    requires Inv(s) && CappedCreations(s, cap) && OldGone(s) && Possible(s, steps, cap) && SparingRun(s, steps, cap)
    ensures Inv(Run(s, steps, cap)) && CappedCreations(Run(s, steps, cap), cap) && OldGone(Run(s, steps, cap))
    decreases steps
  {
    if steps != [] {
      StepKeepsInv(s, steps[0], cap);
      SparingStep(s, steps[0], cap);
      SparingRunsStayCapped(Apply(s, steps[0], cap), steps[1..], cap);
    }
  }

  /** The documented cap, over any run that spares the last day's rows: in every trailing day a requester
      creates at most the cap. */
  lemma DocumentedCapHolds(steps: seq<Step>, cap: nat, start: int, requester: UserId, t: int)
    requires Possible(Start(start), steps, cap) && SparingRun(Start(start), steps, cap)
    ensures |Created(Run(Start(start), steps, cap), requester, t)| <= cap
  {
    forall r, u ensures CreatedCount(Start(start), r, u) <= cap {
      assert Created(Start(start), r, u) == {};
    }
    SparingRunsStayCapped(Start(start), steps, cap);
    assert CreatedCount(Run(Start(start), steps, cap), requester, t) <= cap;
  }

  const WELCOME := Facts(true, true, true, true, true)

  /** An event of the requester's own; analysts from `next` on were never asked about it and exist. */
  ghost predicate Room(s: State, requester: UserId, event: EventId, next: UserId) {
    && event in s.live && event in s.credits && s.credits[event] == Credits(requester, {requester}, {}, {requester})
    && requester < next && requester !in s.erased && (forall u :: u in s.erased ==> u < next)
    && (forall a :: a in s.approvals ==> s.approvals[a].event != event)
    && (forall id :: id in s.requests && s.requests[id].event == event && s.requests[id].target.Analyst? ==>
          s.requests[id].target.user < next)
  }

  function NextAsk(s: State, requester: UserId, event: EventId, next: UserId): Step {
    Ask(event, requester, Analyst(next), WELCOME, s.now, s.now)
  }

  /** The log only grew, at the same instant, and no id gone came back. */
  ghost predicate Grew(s: State, t: State) {
    t.now == s.now && s.log <= t.log && forall k :: 0 <= k < |s.log| && k !in s.requests ==> k !in t.requests
  }

  lemma AskAccepted(s: State, requester: UserId, event: EventId, next: UserId, cap: nat)
    requires Room(s, requester, event, next) && |Sent(s.requests, requester, s.now)| < cap
    ensures Enabled(s, NextAsk(s, requester, event, next))
    ensures Apply(s, NextAsk(s, requester, event, next), cap)
            == Filed(s, Request(event, s.live[event], requester, Analyst(next), Open, s.now, None))
  {
  }

  lemma SentOneMore(requests: map<nat, Request>, id: nat, r: Request, now: int)
    requires id !in requests && r.createdAt >= now - DAY
    ensures |Sent(requests[id := r], r.requester, now)| == |Sent(requests, r.requester, now)| + 1
  {
    assert Sent(requests[id := r], r.requester, now) == Sent(requests, r.requester, now) + {id};
  }

  lemma NextIdIsNew(s: State)
    requires Inv(s)
    ensures |s.log| !in s.requests
  {
  }

  lemma FiledLeavesRoom(s: State, requester: UserId, event: EventId, next: UserId, r: Request)
    requires |s.log| !in s.requests && Room(s, requester, event, next)
    requires r.event == event && r.target == Analyst(next) && r.createdAt == s.now
    ensures Room(Filed(s, r), requester, event, next + 1) && Grew(s, Filed(s, r))
  {
  }

  lemma OneAsk(s: State, requester: UserId, event: EventId, next: UserId, cap: nat)
    requires Inv(s) && Room(s, requester, event, next) && |Sent(s.requests, requester, s.now)| < cap
    ensures Enabled(s, NextAsk(s, requester, event, next))
    ensures var t := Apply(s, NextAsk(s, requester, event, next), cap);
            && Inv(t) && Room(t, requester, event, next + 1) && Grew(s, t)
            && |Sent(t.requests, requester, t.now)| == |Sent(s.requests, requester, s.now)| + 1
  {
    AskAccepted(s, requester, event, next, cap);
    StepKeepsInv(s, NextAsk(s, requester, event, next), cap);
    NextIdIsNew(s);
    var r := Request(event, s.live[event], requester, Analyst(next), Open, s.now, None);
    FiledLeavesRoom(s, requester, event, next, r);
    SentOneMore(s.requests, |s.log|, r, s.now);
  }

  lemma GrewTwice(s: State, t: State, u: State)
    requires Grew(s, t) && Grew(t, u)
    ensures Grew(s, u)
  {
  }

  /** With room below the cap, that many asks go through. */
  lemma {:induction false} ManyAsks(s: State, requester: UserId, event: EventId, next: UserId, cap: nat, n: nat)
    returns (steps: seq<Step>)
    requires Inv(s) && Room(s, requester, event, next) && |Sent(s.requests, requester, s.now)| + n <= cap
    ensures Possible(s, steps, cap) && SparingRun(s, steps, cap)
    ensures var t := Run(s, steps, cap);
            Inv(t) && Grew(s, t) && |Sent(t.requests, requester, t.now)| == |Sent(s.requests, requester, s.now)| + n
    decreases n
  {
    if n == 0 {
      steps := [];
    } else {
      OneAsk(s, requester, event, next, cap);
      var t := Apply(s, NextAsk(s, requester, event, next), cap);
      var rest := ManyAsks(t, requester, event, next + 1, cap, n - 1);
      steps := [NextAsk(s, requester, event, next)] + rest;
      assert steps[1..] == rest;
      GrewTwice(s, t, Run(t, rest, cap));
    }
  }

  /** A row of the last day that is gone leaves its requester, still there, room for one more than the cap. */
  lemma GoneRowOverruns(s: State, k: nat, cap: nat) returns (steps: seq<Step>)
    requires Inv(s) && CappedCreations(s, cap) && k < |s.log| && k !in s.requests
    requires s.log[k].createdAt >= s.now - DAY && s.log[k].requester !in s.erased
    ensures Possible(s, steps, cap) && SparingRun(s, steps, cap) && !CappedCreations(Run(s, steps, cap), cap)
  {
    var requester := s.log[k].requester;
    var event := Unused(s.live.Keys);
    var publish := Publish(event, requester);
    var t := Apply(s, publish, cap);
    StepKeepsInv(s, publish, cap);
    assert CreatedCount(s, requester, s.now) <= cap;
    SentIsCreated(s, requester, k);
    var next := Unused(s.erased + {requester});
    var asks := ManyAsks(t, requester, event, next, cap, cap - |Sent(t.requests, requester, t.now)|);
    steps := [publish] + asks;
    assert steps[1..] == asks;
    var end := Run(t, asks, cap);
    assert end.log[k] == s.log[k];
    SentIsCreated(end, requester, k);
    assert CreatedCount(end, requester, end.now) > cap;
  }

  /** The rows the check counts were all created in the day before, and so was the one gone. */
  lemma SentIsCreated(s: State, requester: UserId, k: nat)
    requires Inv(s) && k < |s.log| && k !in s.requests && s.log[k].requester == requester
             && s.log[k].createdAt >= s.now - DAY
    ensures |Sent(s.requests, requester, s.now)| < CreatedCount(s, requester, s.now)
  {
    forall id | id in Sent(s.requests, requester, s.now) ensures id in Created(s, requester, s.now) {
      assert OfLog(s.requests[id], s.log[id], s.now);
    }
    assert k in Created(s, requester, s.now);
    SubsetSize(Sent(s.requests, requester, s.now) + {k}, Created(s, requester, s.now));
  }

  /** The exact condition on a join, or an erasure: the documented cap survives every later run that spares
      the last day's rows of the requesters still there if and only if this step spares them too. For a
      join: its delete matches no open request of theirs, less than a day old, that asks the analyst. */
  lemma CapExact(s: State, e: Step, cap: nat)
    requires Inv(s) && CappedCreations(s, cap) && OldGone(s) && Enabled(s, e) && (e.Join? || e.Erase?)
    ensures Spares(s, e) <==>
            forall steps :: Possible(Apply(s, e, cap), steps, cap) && SparingRun(Apply(s, e, cap), steps, cap) ==>
                              CappedCreations(Run(Apply(s, e, cap), steps, cap), cap)
  {
    var t := Apply(s, e, cap);
    StepKeepsInv(s, e, cap);
    if Spares(s, e) {
      SparingStep(s, e, cap);
      forall steps | Possible(t, steps, cap) && SparingRun(t, steps, cap)
        ensures CappedCreations(Run(t, steps, cap), cap)
      {
        SparingRunsStayCapped(t, steps, cap);
      }
    } else {
      var k :| k in Gone(s, e) && k in s.requests && !Spent(s, e, s.requests[k]);
      assert OfLog(s.requests[k], s.log[k], s.now);
      forall requester, u ensures CreatedCount(t, requester, u) <= cap {
        assert Created(t, requester, u) == Created(s, requester, u) && CreatedCount(s, requester, u) <= cap;
      }
      var steps := GoneRowOverruns(t, k, cap);
    }
  }

  // ---- The services

  /** Each method is one step on the tables; what every step keeps holds of the class with it. */
  class Reviews {
    var live: map<EventId, nat>
    var credits: map<EventId, Credits>
    var erased: set<UserId>
    var approvals: map<nat, Approval>
    var requests: map<nat, Request>
    var nextId: nat
    var clock: int
    const cap: nat
    ghost var log: seq<Request>

    ghost function View(): State
      reads this
    {
      State(live, credits, erased, approvals, requests, log, clock)
    }

    /** The next request's id is its place in the log. */
    ghost predicate Valid()
      reads this
    {
      nextId == |log|
    }

    constructor (cap: nat, now: int)
      ensures Valid() && View() == Start(now) && this.cap == cap
    {
      live, credits, erased, approvals, requests, nextId, clock := map[], map[], {}, map[], map[], 0, now;
      this.cap := cap;
      log := [];
    }

    method ReadClock(since: int) returns (now: int)
      ensures now >= since
    {
      now :| now >= since;
    }

    /** Ask a target to approve the live version; the rules refuse in order, and the cap comes last. */
    method RequestApproval(event: EventId, requester: UserId, target: Target, facts: Facts)
      returns (error: Option<RequestError>, ghost check: int, ghost at: int)
      requires Valid() && event in live && requester !in erased && Agree(View(), event, requester, target, facts)
      modifies this
      ensures Valid() && Enabled(old(View()), Ask(event, requester, target, facts, check, at))
      ensures View() == Apply(old(View()), Ask(event, requester, target, facts, check, at), cap)
      ensures error == Refusal(old(View()), event, requester, target, facts, cap, check)
    {
      var now := ReadClock(clock);
      check, at := now, now;
      error := CheckTarget(event, requester, target, facts, true, now);
      if !facts.published {
        error := Some(InvalidState);
      } else if !facts.credited {
        error := Some(NotAGeolocator);
      } else if error.None? && |Sent(requests, requester, now)| >= cap {
        error := Some(DailyCapReached);
      }
      if error.None? {
        var filed := ReadClock(now);
        at := filed;
        var row := Request(event, live[event], requester, target, Open, filed, None);
        requests := requests[nextId := row];
        nextId, clock, log := nextId + 1, filed, log + [row];
      }
    }

    /** The target's checks, which the picker's refusal shares without the audience. */
    method CheckTarget(event: EventId, requester: UserId, target: Target, facts: Facts, checkAudience: bool, now: int)
      returns (error: Option<RequestError>)
      requires event in live
      ensures error == TargetRefusal(View(), event, requester, target, facts, checkAudience, now)
    {
      if !facts.found {
        return Some(TargetNotFound);
      }
      if !facts.independent {
        return Some(TargetIsGeolocator);
      }
      if checkAudience && !facts.admits {
        return Some(RequestsNotAccepted);
      }
      if exists id :: id in approvals && approvals[id].event == event && approvals[id].version == live[event]
                      && Attester(approvals[id]) == target {
        return Some(AlreadyApproved);
      }
      if exists id :: id in requests && Matches(requests[id], event, requester, target) && requests[id].status.Open? {
        return Some(AlreadyRequested);
      }
      if exists id :: id in requests && Matches(requests[id], event, requester, target) && requests[id].status.Declined?
                      && requests[id].resolvedAt.Some? && requests[id].resolvedAt.value >= now - DECLINE_COOLDOWN {
        return Some(RecentlyDeclined);
      }
      return None;
    }

    /** Decline a request addressed to the user or to an organization of theirs. */
    method DeclineRequest(id: nat, event: EventId, answerable: bool)
      returns (error: Option<DeclineError>, ghost at: int)
      requires Valid()
      modifies this
      ensures Valid() && at >= old(clock) && View() == Apply(old(View()), Decline(id, event, answerable, at), cap)
      ensures error == DeclineRefusal(old(View()), id, event, answerable)
    {
      at := clock;
      if id !in requests || requests[id].event != event || !answerable {
        return Some(NotFound), at;
      }
      if !requests[id].status.Open? {
        return Some(AlreadyResolved), at;
      }
      var now := ReadClock(clock);
      requests := requests[id := requests[id].(status := Declined, resolvedAt := Some(now))];
      clock := now;
      return None, now;
    }

    /** Approve the live version, for the reviewer or an organization, and answer the requests the target
        received for the event. */
    method ApproveVersion(id: nat, event: EventId, version: nat, reviewer: UserId, organization: Option<OrgId>,
                          standing: Standing)
      returns (error: Option<ApproveError>, ghost at: int)
      requires Valid() && event in live && id !in approvals
      requires EverCredited(View(), event, reviewer) ==> standing.everCredited
      modifies this
      ensures Valid() && at >= old(clock)
      ensures View() == Apply(old(View()), Approve(id, event, version, reviewer, organization, standing, at), cap)
      ensures error == ApproveRefusal(old(View()), event, version,
                                      Attester(Approval(event, version, reviewer, organization)), standing)
    {
      var a := Approval(event, version, reviewer, organization);
      at := clock;
      if !standing.published {
        return Some(NotApprovable), at;
      }
      if organization.Some? && !standing.member {
        return Some(NotAMember), at;
      }
      if standing.everCredited {
        return Some(GeolocatorCannotApprove), at;
      }
      if version != live[event] {
        return Some(VersionMismatch), at;
      }
      if exists i :: i in approvals && approvals[i].event == event && approvals[i].version == version
                     && Attester(approvals[i]) == Attester(a) {
        return Some(AlreadyReviewed), at;
      }
      var now := ReadClock(clock);
      approvals := approvals[id := a];
      requests := Answered(requests, event, Attester(a), now);
      clock := now;
      return None, now;
    }

    /** Delete one approval; false when there is none. */
    method DeleteAsAdmin(id: nat) returns (found: bool)
      requires Valid()
      modifies this
      ensures Valid() && View() == Apply(old(View()), AdminDelete(id), cap) && (found <==> id in old(approvals))
    {
      found := id in approvals;
      approvals := approvals - {id};
    }
  }

  // ---- A run on which the documented cap does not hold

  /** On an event of their own, ask an analyst, invite them, and see them join; then the next event. */
  function Burst(first: EventId, n: nat): seq<Step>
    decreases n
  {
    if n == 0 then [] else OneEvent(first) + Burst(first + 1, n - 1)
  }

  function OneEvent(event: EventId): seq<Step> {
    [Publish(event, 0)] + ([Ask(event, 0, Analyst(event + 1), WELCOME, 0, 0)]
                           + ([Invite(event, event + 1)] + [Join(event, event + 1, 0)]))
  }

  ghost predicate Quiet(s: State, first: EventId) {
    && (forall event :: event in s.live ==> event < first)
    && s.erased == {} && s.approvals == map[] && s.requests == map[] && s.now == 0
    && forall k :: 0 <= k < |s.log| ==> s.log[k].requester == 0 && s.log[k].createdAt == 0
  }

  /** Each invitation finds fewer than ten geolocators and invitations on its event. */
  ghost predicate WithinTen(s: State, steps: seq<Step>, cap: nat)
    requires Possible(s, steps, cap)
    decreases steps
  {
    steps == [] || (TenHold(s, steps[0]) && WithinTen(Apply(s, steps[0], cap), steps[1..], cap))
  }

  predicate TenHold(s: State, e: Step) {
    e.Invite? && e.event in s.credits ==>
      |s.credits[e.event].active + s.credits[e.event].invited| < MAX_EVENT_GEOLOCATORS
  }

  ghost predicate Reaches(s: State, steps: seq<Step>, cap: nat, t: State) {
    Possible(s, steps, cap) && WithinTen(s, steps, cap) && Run(s, steps, cap) == t
  }

  lemma ReachesCons(s: State, e: Step, rest: seq<Step>, cap: nat, end: State)
    requires Enabled(s, e) && TenHold(s, e) && Reaches(Apply(s, e, cap), rest, cap, end)
    ensures Reaches(s, [e] + rest, cap, end)
  {
  }

  lemma ReachesOne(s: State, e: Step, cap: nat)
    requires Enabled(s, e) && TenHold(s, e)
    ensures Reaches(s, [e], cap, Apply(s, e, cap))
  {
  }

  /** The analyst asked joins the event, and the request's row goes. */
  lemma AskedAndJoined(s: State, event: EventId, cap: nat) returns (end: State)
    requires event in s.live && event in s.credits && s.credits[event] == Credits(0, {0}, {}, {0})
    requires s.erased == {} && s.approvals == map[] && s.now == 0 && s.requests.Keys == {|s.log| - 1}
    requires s.log != [] && s.requests[|s.log| - 1]
             == Request(event, s.live[event], 0, Analyst(event + 1), Open, 0, None)
    ensures Reaches(s, [Invite(event, event + 1)] + [Join(event, event + 1, 0)], cap, end)
    ensures end == s.(credits := end.credits, requests := map[])
  {
    var invite, join := Invite(event, event + 1), Join(event, event + 1, 0);
    assert s.credits[event].active + s.credits[event].invited == {0};
    var invited := Apply(s, invite, cap);
    end := Apply(invited, join, cap);
    ReachesOne(invited, join, cap);
    ReachesCons(s, invite, [join], cap, end);
  }

  /** One event's worth of the burst: a request created and its row gone. */
  lemma BurstStep(s: State, event: EventId, cap: nat) returns (end: State)
    requires Quiet(s, event) && cap >= 1
    ensures Reaches(s, OneEvent(event), cap, end) && Quiet(end, event + 1) && |end.log| == |s.log| + 1
  {
    var publish := Publish(event, 0);
    var t := Apply(s, publish, cap);
    assert Room(t, 0, event, event + 1) && Sent(t.requests, 0, t.now) == {};
    AskAccepted(t, 0, event, event + 1, cap);
    var ask := NextAsk(t, 0, event, event + 1);
    end := AskedAndJoined(Apply(t, ask, cap), event, cap);
    var rest := [Invite(event, event + 1)] + [Join(event, event + 1, 0)];
    ReachesCons(t, ask, rest, cap, end);
    ReachesCons(s, publish, [ask] + rest, cap, end);
  }

  lemma {:induction false} ReachesAppend(s: State, first: seq<Step>, mid: State, later: seq<Step>, end: State, cap: nat)
    requires Reaches(s, first, cap, mid) && Reaches(mid, later, cap, end)
    ensures Reaches(s, first + later, cap, end)
    decreases first
  {
    if first == [] {
      assert first + later == later;
    } else {
      assert (first + later)[0] == first[0] && (first + later)[1..] == first[1..] + later;
      ReachesAppend(Apply(s, first[0], cap), first[1..], mid, later, end, cap);
    }
  }

  lemma {:induction false} BurstRuns(s: State, first: EventId, n: nat, cap: nat) returns (end: State)
    requires Quiet(s, first) && cap >= 1
    ensures Reaches(s, Burst(first, n), cap, end) && Quiet(end, first + n) && |end.log| == |s.log| + n
    decreases n
  {
    end := s;
    if n > 0 {
      var mid := BurstStep(s, first, cap);
      end := BurstRuns(mid, first + 1, n - 1, cap);
      ReachesAppend(s, OneEvent(first), mid, Burst(first + 1, n - 1), end, cap);
    }
  }

  /** Under any cap but zero, a run can hold any number of one requester's requests in one day: each analyst
      who joins the event they were asked about takes the request's row, and the count, with it. */
  lemma JoinsLiftTheCap(n: nat, cap: nat)
    requires cap >= 1
    ensures Possible(Start(0), Burst(0, n), cap) && WithinTen(Start(0), Burst(0, n), cap)
    ensures |Created(Run(Start(0), Burst(0, n), cap), 0, 0)| == n
  {
    var end := BurstRuns(Start(0), 0, n, cap);
    assert Created(end, 0, 0) == Below(n);
  }

  function Below(n: nat): (ks: set<nat>)
    ensures |ks| == n && forall k: nat :: k in ks <==> k < n
  {
    if n == 0 then {} else Below(n - 1) + {n - 1}
  }
}
