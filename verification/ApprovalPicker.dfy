/** Who can be asked to approve, written twice: the picker that lists targets and the check a request
    goes through. Names sort by whatever collation the database was set up with, and fold over ASCII
    letters. */
module ApprovalPicker {
  import opened Basics
  import opened Approvals

  const MAX_TARGET_SUGGESTIONS := 20

  datatype Audience = Everyone | Following | Nobody

  /** An analyst or an organization as both sides see it: `key` is the username or the slug, `name` what
      the list sorts by, `found` that the account is live and active, `independent` that it (or a live
      member of it) was never credited on the event, `follows` that it (or a manager of it) follows the
      requester. */
  datatype Candidate = Candidate(target: Target, key: string, name: string, found: bool, independent: bool,
                                 audience: Audience, follows: bool)

  /** One opening of the picker: the tables, the event, who asks, and the text typed, trimmed. */
  datatype Search = Search(state: State, event: EventId, requester: UserId, query: string, now: int)

  // ---- Text

  function FoldChar(c: char): char {
    if 'A' <= c <= 'Z' then (c as int + 32) as char else c
  }

  function Fold(text: string): (folded: string)
    ensures |folded| == |text| && forall i :: 0 <= i < |text| ==> folded[i] == FoldChar(text[i])
  {
    seq(|text|, i requires 0 <= i < |text| => FoldChar(text[i]))
  }

  predicate Contains(text: string, part: string) {
    exists i :: 0 <= i <= |text| && part <= text[i..]
  }

  predicate Exact(c: Candidate, query: string) {
    Fold(c.key) == Fold(query)
  }

  // ---- The list

  predicate Suggested(c: Candidate, query: string) {
    (!c.audience.Nobody? && c.follows) || Exact(c, query)
  }

  predicate Narrows(c: Candidate, query: string) {
    query == "" || Contains(Fold(c.name), Fold(query)) || Contains(Fold(c.key), Fold(query))
  }

  predicate Eligible(s: Search, c: Candidate)
    requires s.event in s.state.live
  {
    && c.found && c.independent
    && !Reviewed(s.state, s.event, s.state.live[s.event], c.target)
    && !Asked(s.state, s.event, s.requester, c.target)
    && !DeclinedRecently(s.state, s.event, s.requester, c.target, s.now)
    && Suggested(c, s.query)
    && Narrows(c, s.query)
  }

  predicate Leads(c: Candidate, query: string) {
    query != "" && Fold(query) <= Fold(c.name)
  }

  /** The database's order on names: whether the first sorts before the second. */
  type Collation = (string, string) -> bool

  /** Prefix matches first, then by name. */
  predicate Ahead(c: Candidate, d: Candidate, query: string, order: Collation) {
    if Leads(c, query) != Leads(d, query) then Leads(c, query) else order(c.name, d.name)
  }

  function AheadOf(s: Search, analysts: map<UserId, Candidate>, c: Candidate, order: Collation): set<UserId>
    requires s.event in s.state.live
  {
    set v | v in analysts && Eligible(s, analysts[v]) && Ahead(analysts[v], c, s.query, order)
  }

  /** The analysts the list has room for. */
  predicate Listed(s: Search, analysts: map<UserId, Candidate>, u: UserId, order: Collation)
    requires s.event in s.state.live && u in analysts
  {
    Eligible(s, analysts[u]) && |AheadOf(s, analysts, analysts[u], order)| < MAX_TARGET_SUGGESTIONS
  }

  /** Who can be listed: an account or organization that is there, outside the event's geolocators, with nothing
      standing against asking it, whose names hold the text typed; and that follows the requester and takes
      requests, or is typed exactly, whatever its audience. */
  lemma EligibleExactly(s: Search, c: Candidate)
    requires s.event in s.state.live
    ensures Eligible(s, c) <==>
              && c.found && c.independent
              && !TargetApproved(s.state, s.event, c.target) && !OpenFor(s.state, s.event, s.requester, c.target)
              && !DeclinedSince(s.state, s.event, s.requester, c.target, s.now)
              && ((c.audience != Nobody && c.follows) || Fold(c.key) == Fold(s.query))
              && (s.query == "" || Contains(Fold(c.name), Fold(s.query)) || Contains(Fold(c.key), Fold(s.query)))
  {
    TargetRowsAgree(s.state, s.event, s.requester, c.target, s.now);
  }

  /** The list is cut to the twenty eligible analysts first in order: names that start with the text, then by
      name. */
  lemma ListedExactly(s: Search, analysts: map<UserId, Candidate>, u: UserId, order: Collation)
    requires s.event in s.state.live && u in analysts
    ensures var starts := (v: UserId) => v in analysts && s.query != "" && Fold(s.query) <= Fold(analysts[v].name);
            var ahead := set v | v in analysts && Eligible(s, analysts[v])
                                 && ((starts(v) && !starts(u))
                                     || (starts(v) == starts(u) && order(analysts[v].name, analysts[u].name)));
            Listed(s, analysts, u, order) <==> Eligible(s, analysts[u]) && |ahead| < 20
  {
    var starts := (v: UserId) => v in analysts && s.query != "" && Fold(s.query) <= Fold(analysts[v].name);
    var ahead := set v | v in analysts && Eligible(s, analysts[v])
                         && ((starts(v) && !starts(u))
                             || (starts(v) == starts(u) && order(analysts[v].name, analysts[u].name)));
    assert ahead == AheadOf(s, analysts, analysts[u], order);
  }

  // ---- The check a request goes through

  /** The facts the check reads of a target, for a requester credited on a published event. */
  function FactsOf(c: Candidate): Facts {
    Facts(true, true, c.found, c.independent, c.audience.Everyone? || (c.audience.Following? && c.follows))
  }

  function Check(s: Search, c: Candidate, checkAudience: bool): Option<RequestError>
    requires s.event in s.state.live
  {
    TargetRefusal(s.state, s.event, s.requester, c.target, FactsOf(c), checkAudience, s.now)
  }

  lemma PartOfItself(text: string)
    ensures Contains(text, text)
  {
    assert text[0..] == text;
  }

  /** The two encodings agree: an exactly typed target is eligible exactly when the check without the
      audience gives no reason. */
  lemma ExactEligible(s: Search, c: Candidate)
    requires s.event in s.state.live && Exact(c, s.query)
    ensures Eligible(s, c) <==> Check(s, c, false).None?
  {
    PartOfItself(Fold(c.key));
  }

  /** A target listed because it follows the requester can be refused by a request only through the
      daily cap, and is exactly when the cap is reached. */
  lemma FollowerRefusedOnlyByCap(s: Search, c: Candidate, cap: nat)
    requires s.event in s.state.live && Eligible(s, c) && !c.audience.Nobody? && c.follows
    ensures var refusal := Refusal(s.state, s.event, s.requester, c.target, FactsOf(c), cap, s.now);
            && (refusal.None? || refusal == Some(DailyCapReached))
            && (refusal.Some? <==> |Sent(s.state.requests, s.requester, s.now)| >= cap)
  {
  }

  /** The audience admits everyone, or a requester the target follows, or nobody. */
  lemma AdmitsExactly(c: Candidate)
    ensures FactsOf(c).admits <==> c.audience == Everyone || (c.audience == Following && c.follows)
    ensures FactsOf(c).found == c.found && FactsOf(c).independent == c.independent
    ensures FactsOf(c).published && FactsOf(c).credited
  {
  }

  // ---- The exact match

  /** Analysts by id, keyed by their usernames, which are unique. */
  ghost predicate Directory(analysts: map<UserId, Candidate>) {
    && (forall u :: u in analysts ==> analysts[u].target == Analyst(u) && analysts[u].key == analysts[u].name)
    && forall u, v :: u in analysts && v in analysts && u != v ==> analysts[u].name != analysts[v].name
  }

  /** An exactly typed analyst is omitted exactly when the check gives a reason, or when the list is full
      of eligible analysts ahead of them. */
  lemma OmittedOrCrowdedOut(s: Search, analysts: map<UserId, Candidate>, u: UserId, order: Collation)
    requires s.event in s.state.live && u in analysts && Exact(analysts[u], s.query)
    ensures !Listed(s, analysts, u, order)
            <==> Check(s, analysts[u], false).Some?
                 || |AheadOf(s, analysts, analysts[u], order)| >= MAX_TARGET_SUGGESTIONS
  {
    ExactEligible(s, analysts[u]);
  }

  /** What any collation has: no name sorts before itself, and none that extends another, case aside, sorts
      before it. */
  ghost predicate PrefixesFirst(analysts: map<UserId, Candidate>, order: Collation) {
    && (forall u :: u in analysts ==> !order(analysts[u].name, analysts[u].name))
    && forall u, v :: u in analysts && v in analysts && Fold(analysts[u].name) < Fold(analysts[v].name) ==>
                        !order(analysts[v].name, analysts[u].name)
  }

  /** The other analysts whose names differ from this one in case alone. */
  function Variants(analysts: map<UserId, Candidate>, u: UserId): (twins: set<UserId>)
    requires u in analysts
    ensures twins <= analysts.Keys - {u}
  {
    set v | v in analysts && v != u && Fold(analysts[v].name) == Fold(analysts[u].name)
  }

  /** Only case variants can sort ahead of the exact match. */
  lemma OnlyVariantsAhead(s: Search, analysts: map<UserId, Candidate>, u: UserId, order: Collation)
    requires s.event in s.state.live && Directory(analysts) && PrefixesFirst(analysts, order)
    requires u in analysts && s.query != "" && Exact(analysts[u], s.query)
    ensures AheadOf(s, analysts, analysts[u], order) <= Variants(analysts, u)
  {
  }

  /** Picker and check agree: under any such collation, an exactly typed username with fewer than twenty
      case variants is omitted from the list exactly when the check gives a reason. */
  lemma OmittedIffRefused(s: Search, analysts: map<UserId, Candidate>, u: UserId, order: Collation)
    requires s.event in s.state.live && Directory(analysts) && PrefixesFirst(analysts, order)
    requires u in analysts && s.query != "" && Exact(analysts[u], s.query)
    requires |Variants(analysts, u)| < MAX_TARGET_SUGGESTIONS
    ensures !Listed(s, analysts, u, order) <==> Check(s, analysts[u], false).Some?
  {
    OnlyVariantsAhead(s, analysts, u, order);
    SubsetSize(AheadOf(s, analysts, analysts[u], order), Variants(analysts, u));
    OmittedOrCrowdedOut(s, analysts, u, order);
  }

  /** Every name is in lower case. */
  ghost predicate Folded(analysts: map<UserId, Candidate>) {
    forall u :: u in analysts ==> Fold(analysts[u].name) == analysts[u].name
  }

  /** Code-point order, as an instance: over names in lower case it is such a collation, and no name has a
      case variant. */
  lemma CodePointsPutPrefixesFirst(analysts: map<UserId, Candidate>)
    requires Directory(analysts) && Folded(analysts)
    ensures PrefixesFirst(analysts, Before) && forall u :: u in analysts ==> Variants(analysts, u) == {}
  {
    forall u | u in analysts ensures !Before(analysts[u].name, analysts[u].name) {
      BeforeIrreflexive(analysts[u].name);
    }
    forall u, v | u in analysts && v in analysts && Fold(analysts[u].name) < Fold(analysts[v].name)
      ensures !Before(analysts[v].name, analysts[u].name)
    {
      var name, other := analysts[u].name, analysts[v].name;
      PrefixFirst(name, other);
      if Before(other, name) {
        BeforeTransitive(name, other, name);
        BeforeIrreflexive(name);
      }
    }
  }

  // ---- The reason shown under the list

  /** The account the lookup of a typed username returns, if any carries it. */
  ghost predicate Hit(candidates: map<nat, Candidate>, query: string, hit: Option<nat>) {
    && (hit.Some? ==> hit.value in candidates && candidates[hit.value].found && Exact(candidates[hit.value], query))
    && (hit.None? ==> forall u :: u in candidates && candidates[u].found ==> !Exact(candidates[u], query))
  }

  predicate ListsExact(s: Search, analysts: map<UserId, Candidate>, order: Collation)
    requires s.event in s.state.live
  {
    exists u :: u in analysts && Listed(s, analysts, u, order) && Exact(analysts[u], s.query)
  }

  /** Why the exact match is not in the list; nothing when it is, or when nothing matches. `listedSlugs`
      are the folded slugs of the listed organizations. */
  function Reason(s: Search, analysts: map<UserId, Candidate>, organizations: map<OrgId, Candidate>,
                  listedSlugs: set<string>,
                  hit: Option<UserId>, orgHit: Option<OrgId>, order: Collation): Option<RequestError>
    requires s.event in s.state.live && (hit.Some? ==> hit.value in analysts)
             && (orgHit.Some? ==> orgHit.value in organizations)
  {
    if s.query == "" || ListsExact(s, analysts, order) || Fold(s.query) in listedSlugs then None
    else if hit.Some? then Check(s, analysts[hit.value], false)
    else if orgHit.Some? then Check(s, organizations[orgHit.value], false)
    else None
  }

  /** Whose reason is shown: none without a text or with an exact match listed, else that of the account carrying
      the name, else of the organization carrying the slug. */
  lemma ReasonIs(s: Search, analysts: map<UserId, Candidate>, organizations: map<OrgId, Candidate>,
                 listedSlugs: set<string>, hit: Option<UserId>, orgHit: Option<OrgId>, order: Collation)
    requires s.event in s.state.live && (hit.Some? ==> hit.value in analysts)
    requires orgHit.Some? ==> orgHit.value in organizations
    ensures var reason := Reason(s, analysts, organizations, listedSlugs, hit, orgHit, order);
            var silent := s.query == "" || ListsExact(s, analysts, order) || Fold(s.query) in listedSlugs;
            && (silent ==> reason.None?)
            && (!silent && hit.Some? ==> reason == Check(s, analysts[hit.value], false))
            && (!silent && hit.None? && orgHit.Some? ==> reason == Check(s, organizations[orgHit.value], false))
            && (!silent && hit.None? && orgHit.None? ==> reason.None?)
  {
  }

  /** The analysts an exact lookup of the typed name may return: this one and its case variants. */
  lemma HitIsVariant(analysts: map<UserId, Candidate>, u: UserId, v: UserId, query: string)
    requires Directory(analysts) && u in analysts && Exact(analysts[u], query)
    ensures v in analysts && Exact(analysts[v], query) <==> v == u || v in Variants(analysts, u)
  {
  }

  /** Case variants have as many variants each. */
  lemma VariantsAlike(analysts: map<UserId, Candidate>, u: UserId, v: UserId)
    requires u in analysts && v in Variants(analysts, u)
    ensures |Variants(analysts, v)| == |Variants(analysts, u)|
  {
    assert Variants(analysts, v) == Variants(analysts, u) - {v} + {u};
  }

  predicate SomeListed(s: Search, analysts: map<UserId, Candidate>, among: set<UserId>, order: Collation)
    requires s.event in s.state.live && among <= analysts.Keys
  {
    exists v :: v in among && Listed(s, analysts, v, order)
  }

  lemma ListsExactTwin(s: Search, analysts: map<UserId, Candidate>, u: UserId, order: Collation)
    requires s.event in s.state.live && u in analysts && Exact(analysts[u], s.query) && Directory(analysts)
    ensures ListsExact(s, analysts, order) <==> SomeListed(s, analysts, Variants(analysts, u) + {u}, order)
  {
    forall v | v in analysts ensures Exact(analysts[v], s.query) <==> v in Variants(analysts, u) + {u} {
      HitIsVariant(analysts, u, v, s.query);
    }
  }

  /** The account the lookup returns is the analyst's or a variant's, and the check refuses it exactly when
      the list omits it. */
  lemma HitRefused(s: Search, analysts: map<UserId, Candidate>, u: UserId, hit: Option<UserId>, order: Collation)
    requires s.event in s.state.live && Directory(analysts) && PrefixesFirst(analysts, order)
    requires Hit(analysts, s.query, hit)
    requires u in analysts && analysts[u].found && s.query != "" && Exact(analysts[u], s.query)
    requires |Variants(analysts, u)| < MAX_TARGET_SUGGESTIONS
    ensures hit.Some? && hit.value in Variants(analysts, u) + {u}
    ensures !Listed(s, analysts, hit.value, order) <==> Check(s, analysts[hit.value], false).Some?
  {
    assert hit.Some?;
    HitIsVariant(analysts, u, hit.value, s.query);
    if hit.value != u {
      VariantsAlike(analysts, u, hit.value);
    }
    OmittedIffRefused(s, analysts, hit.value, order);
  }

  /** Whether a reason is shown: exactly when neither the analyst typed, nor a case variant of theirs, nor an
      organization of that slug is listed; and it is the check's, of one of them. */
  lemma ReasonShown(s: Search, analysts: map<UserId, Candidate>, organizations: map<OrgId, Candidate>,
                    listedSlugs: set<string>, hit: Option<UserId>, orgHit: Option<OrgId>, u: UserId, order: Collation)
    requires s.event in s.state.live && Directory(analysts) && PrefixesFirst(analysts, order)
    requires Hit(analysts, s.query, hit) && Hit(organizations, s.query, orgHit)
    requires u in analysts && analysts[u].found && s.query != "" && Exact(analysts[u], s.query)
    requires |Variants(analysts, u)| < MAX_TARGET_SUGGESTIONS
    ensures var reason := Reason(s, analysts, organizations, listedSlugs, hit, orgHit, order);
            && (reason.Some? <==> Fold(s.query) !in listedSlugs
                                  && !SomeListed(s, analysts, Variants(analysts, u) + {u}, order))
            && (reason.Some? ==> hit.Some? && hit.value in Variants(analysts, u) + {u}
                                 && reason == Check(s, analysts[hit.value], false))
  {
    ListsExactTwin(s, analysts, u, order);
    HitRefused(s, analysts, u, hit, order);
  }

  /** The picker's promise, that an exactly typed live username is omitted exactly when a reason is shown,
      and when the code keeps it: when the analyst is listed, or when none of their case variants is and no
      listed organization has that slug. With no variant the reason is the check's of that analyst. */
  lemma OmittedIffReasonShown(s: Search, analysts: map<UserId, Candidate>, organizations: map<OrgId, Candidate>,
                              listedSlugs: set<string>, hit: Option<UserId>, orgHit: Option<OrgId>, u: UserId,
                              order: Collation)
    requires s.event in s.state.live && Directory(analysts) && PrefixesFirst(analysts, order)
    requires Hit(analysts, s.query, hit) && Hit(organizations, s.query, orgHit)
    requires u in analysts && analysts[u].found && s.query != "" && Exact(analysts[u], s.query)
    requires |Variants(analysts, u)| < MAX_TARGET_SUGGESTIONS
    ensures var reason := Reason(s, analysts, organizations, listedSlugs, hit, orgHit, order);
            && ((!Listed(s, analysts, u, order) <==> reason.Some?)
                <==> Listed(s, analysts, u, order)
                     || (Fold(s.query) !in listedSlugs && !SomeListed(s, analysts, Variants(analysts, u), order)))
            && (reason.Some? && Variants(analysts, u) == {} ==> reason == Check(s, analysts[u], false))
  {
    ReasonShown(s, analysts, organizations, listedSlugs, hit, orgHit, u, order);
    var twins := Variants(analysts, u) + {u};
    assert SomeListed(s, analysts, twins, order)
           <==> Listed(s, analysts, u, order) || SomeListed(s, analysts, Variants(analysts, u), order);
  }

  // ---- Two names that differ in case alone

  function Twins(independent: bool): map<UserId, Candidate> {
    map[1 := Candidate(Analyst(1), "alice", "alice", true, true, Everyone, false),
        2 := Candidate(Analyst(2), "Alice", "Alice", true, independent, Everyone, false)]
  }

  /** The requester, 9, has asked alice to approve event 0, and types her name again. */
  function AskedAlready(): Search {
    var r := Request(0, 1, 9, Analyst(1), Open, 0, None);
    Search(Start(0).(live := map[0 := 1], requests := map[0 := r], log := [r]), 0, 9, "alice", 0)
  }

  /** The failing input: alice was asked, Alice can be. Alice is listed, so no reason is shown, and alice is
      omitted without one. */
  lemma TwinHidesReason(order: Collation, hit: Option<UserId>)
    requires PrefixesFirst(Twins(true), order) && Hit(Twins(true), "alice", hit)
    ensures Inv(AskedAlready().state) && Directory(Twins(true)) && Exact(Twins(true)[1], "alice")
    ensures !Listed(AskedAlready(), Twins(true), 1, order) && Listed(AskedAlready(), Twins(true), 2, order)
    ensures Reason(AskedAlready(), Twins(true), map[], {}, hit, None, order) == None
    ensures Check(AskedAlready(), Twins(true)[1], false) == Some(AlreadyRequested)
  {
    var s, twins := AskedAlready(), Twins(true);
    TwinsExact(true);
    TwinsChecked(true);
    ExactEligible(s, twins[1]);
    ExactEligible(s, twins[2]);
    OnlyTwinAhead(order);
    assert ListsExact(s, twins, order);
  }

  lemma OnlyTwinAhead(order: Collation)
    ensures |AheadOf(AskedAlready(), Twins(true), Twins(true)[2], order)| <= 2
  {
    SubsetSize(AheadOf(AskedAlready(), Twins(true), Twins(true)[2], order), {1, 2});
  }

  /** Only alice was asked. */
  lemma TwinsChecked(independent: bool)
    ensures Inv(AskedAlready().state)
    ensures Check(AskedAlready(), Twins(independent)[1], false) == Some(AlreadyRequested)
    ensures Check(AskedAlready(), Twins(independent)[2], false)
            == if independent then None else Some(TargetIsGeolocator)
  {
    assert AskedAlready().state.requests[0].status.Open?;
  }

  /** And a reason shown may be another's: both are refused, each for their own reason, and the lookup may
      return either. */
  lemma ReasonMayBeAnothers(order: Collation)
    requires PrefixesFirst(Twins(false), order)
    ensures Directory(Twins(false)) && Hit(Twins(false), "alice", Some(1)) && Hit(Twins(false), "alice", Some(2))
    ensures Reason(AskedAlready(), Twins(false), map[], {}, Some(1), None, order) == Some(AlreadyRequested)
    ensures Reason(AskedAlready(), Twins(false), map[], {}, Some(2), None, order) == Some(TargetIsGeolocator)
  {
    var s, twins := AskedAlready(), Twins(false);
    TwinsExact(false);
    TwinsChecked(false);
    ExactEligible(s, twins[1]);
    ExactEligible(s, twins[2]);
    assert !ListsExact(s, twins, order);
  }

  lemma TwinsExact(independent: bool)
    ensures Directory(Twins(independent))
    ensures forall u :: u in Twins(independent) ==> Exact(Twins(independent)[u], "alice")
  {
    assert Fold("alice") == "alice" && Fold("Alice") == "alice";
    assert "alice"[0] != "Alice"[0];
  }

  // ---- A collation that sorts by code point, over names in any case

  function Crowd(u: UserId): Candidate
    requires u <= MAX_TARGET_SUGGESTIONS
  {
    var name := if u == 0 then "ab" else ['A', 'B', ('a' as int + u) as char];
    Candidate(Analyst(u), name, name, true, true, Following, true)
  }

  function Crowded(): map<UserId, Candidate> {
    map u | u in Below(21) :: Crowd(u)
  }

  function Opening(): Search {
    Search(Start(0).(live := map[0 := 1]), 0, 99, "ab", 0)
  }

  lemma CrowdText(u: UserId)
    requires u <= MAX_TARGET_SUGGESTIONS
    ensures Narrows(Crowd(u), "ab") && Leads(Crowd(u), "ab") && (u > 0 ==> Before(Crowd(u).name, Crowd(0).name))
  {
    var name := Crowd(u).name;
    assert Fold("ab") == ['a', 'b'];
    assert Fold(name)[..2] == ['a', 'b'] && Fold(name)[0..] == Fold(name);
  }

  lemma CrowdFits(u: UserId)
    requires u <= MAX_TARGET_SUGGESTIONS
    ensures Eligible(Opening(), Crowd(u)) && (u > 0 ==> Ahead(Crowd(u), Crowd(0), Opening().query, Before))
  {
    CrowdText(u);
    CrowdText(0);
  }

  lemma CrowdDirectory()
    ensures Directory(Crowded())
  {
  }

  /** Names are stored in the case they were registered in. Were they sorted by code point, upper case
      before lower, the agreement would fail: twenty followers whose names begin with the typed one in
      upper case fill the list, and the exact match is neither listed nor refused. */
  lemma CodePointsCrowdOut()
    ensures Directory(Crowded()) && Crowded()[0].key == Opening().query && Variants(Crowded(), 0) == {}
    ensures !Listed(Opening(), Crowded(), 0, Before) && Check(Opening(), Crowded()[0], false).None?
  {
    CrowdDirectory();
    CrowdFits(0);
    ExactEligible(Opening(), Crowd(0));
    forall u | u in Below(21) - {0} ensures u in AheadOf(Opening(), Crowded(), Crowd(0), Before) {
      CrowdFits(u);
    }
    SubsetSize(Below(21) - {0}, AheadOf(Opening(), Crowded(), Crowd(0), Before));
  }
}
