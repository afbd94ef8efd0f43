/**
 What the invariant of the ACME frontend gives a client and an operator, over
 every interleaving of requests, failed writes, lost requests and collections.
 */
module AcmeSafety {
  import opened Strings
  import opened AcmeTables
  import opened AcmeProtocol
  import opened AcmeInvariant
  import opened AcmeSteps

  /** The states the frontend can be in: those some sequence of events leads to. */
  ghost predicate Reachable(s: State) {
    exists now: int, es: seq<Event> :: s == Run(Init(now), es)
  }

  lemma ReachableOk(s: State)
    requires Reachable(s)
    ensures Inv(s)
  {
    var now: int, es: seq<Event> :| s == Run(Init(now), es);
    InitOk(now);
    RunKeeps(Init(now), es);
  }

  // ---------------------------------------------------------------- issuance is bounded

  lemma {:induction false} AuthzIdsCount(o: nat, n: nat)
    ensures |AuthzIds(o, n)| == n
  {
    if n > 0 {
      AuthzIdsCount(o, n - 1);
      assert AuthzIds(o, n) == AuthzIds(o, n - 1) + {AuthzId(o, n - 1)};
    } else {
      assert AuthzIds(o, 0) == {};
    }
  }

  /**
   An order is sent to the CA no more often than it is claimed, claimed no more
   often than it is made ready, and made ready at most once per identifier.
   */
  lemma IssuancesBounded(s: State, o: nat)
    requires Reachable(s)
    ensures s.h.ledger.issuances[o] <= s.h.ledger.orderClaims[o] <= s.h.ledger.readyWrites[o]
    ensures s.h.ledger.readyWrites[o] <= if o in s.h.plan then |s.h.plan[o].identifiers| else 0
  {
    ReachableOk(s);
    var n := if o in s.h.plan then |s.h.plan[o].identifiers| else 0;
    PromotersAreOfOrder(s.h, o, n);
    AuthzIdsCount(o, n);
    SubsetIsSmaller(PromotersOf(s.h.ledger.promoters, o), AuthzIds(o, n));
  }

  lemma PromotersAreOfOrder(h: History, o: nat, n: nat)
    requires TrialsOk(h.trials, h.plan) && forall a :: a in h.ledger.promoters ==> a in h.trials.attempts
    requires n == if o in h.plan then |h.plan[o].identifiers| else 0
    ensures PromotersOf(h.ledger.promoters, o) <= AuthzIds(o, n)
  {
    hide AuthzIds;
  }

  lemma SingleIdentifierIssuesOnce(s: State, o: nat)
    requires Reachable(s) && o in s.h.plan && |s.h.plan[o].identifiers| == 1
    ensures s.h.ledger.issuances[o] <= 1
  {
    IssuancesBounded(s, o);
  }

  // ---------------------------------------------------------------- proof of control

  /** Challenge `c` is the one proof behind authorization `a`: validated, and the only one ever tried. */
  ghost predicate ProvedBy(s: State, a: AuthzId, c: ChallengeId) {
    && c in s.db.challenges && s.db.challenges[c].authz == a && c in s.h.trials.proved
    && (forall d :: d in s.db.challenges && s.db.challenges[d].authz == a && d != c ==> s.db.challenges[d].status == Pending)
    && (s.h.clean ==> s.db.challenges[c].status == Valid)
  }

  /** The valid authorization row that holds identifier `i`, and how it was proved. */
  ghost predicate Controlled(s: State, o: nat, i: nat)
    requires o in s.db.orders && i < |s.db.orders[o].identifiers|
  {
    var a := AuthzId(o, i);
    && a in s.db.authzs
    && AuthorizesName(s.db.authzs[a], o, s.db.orders[o].account, s.db.orders[o].identifiers[i], s.db.orders[o].expires)
    && s.db.authzs[a].status == Valid
    && exists c :: ProvedBy(s, a, c) && (s.db.authzs[a].wildcard ==> s.db.challenges[c].kind == Dns01)
  }

  /**
   An order that is ready, processing or valid has one authorization per
   identifier and no other; each is valid and backed by one proved challenge,
   by DNS for a wildcard. It holds as well between two deletes of a collection.
   */
  lemma ProofOfControl(s: State, o: nat)
    requires Reachable(s) && o in s.db.orders && Promoted(s.db.orders[o].status)
    ensures forall i :: 0 <= i < |s.db.orders[o].identifiers| ==> Controlled(s, o, i)
    ensures forall a :: a in s.db.authzs && s.db.authzs[a].order == o ==>
              a.order == o && a.index < |s.db.orders[o].identifiers|
    ensures forall i, j :: 0 <= i < j < |s.db.orders[o].identifiers| ==>
              CutWildcard(s.db.orders[o].identifiers[i]) != CutWildcard(s.db.orders[o].identifiers[j])
  {
    ReachableOk(s);
    forall i | 0 <= i < |s.db.orders[o].identifiers| ensures Controlled(s, o, i) {
      ControlledOne(s, o, i);
    }
    PairsDistinct(s.db.orders[o].identifiers);
  }

  lemma PairsDistinct(names: seq<string>)
    requires NoDuplicates(names)
    ensures forall i, j :: 0 <= i < j < |names| ==> CutWildcard(names[i]) != CutWildcard(names[j])
  {
    forall i, j | 0 <= i < j < |names| ensures CutWildcard(names[i]) != CutWildcard(names[j]) {
      if CutWildcard(names[i]) == CutWildcard(names[j]) {
        CutWildcardInjective(names[i], names[j]);
      }
    }
  }

  lemma ControlledOne(s: State, o: nat, i: nat)
    requires RowsOk(s.db, s.h.plan) && OrdersOk(s.db) && TrialsOk(s.h.trials, s.h.plan)
    requires AttemptsOk(s.db.challenges, s.h.trials) && DecisionsOk(s.db.authzs, s.h.trials, s.h.decisions)
    requires CleanOk(s.h.clean, s.threads, s.db, s.h.trials)
    requires o in s.db.orders && Promoted(s.db.orders[o].status) && i < |s.db.orders[o].identifiers|
    ensures Controlled(s, o, i)
  {
    var a := AuthzId(o, i);
    assert Planned(s.h.plan, a);
    assert a in s.db.authzs && s.db.authzs[a].status == Valid;
    var c := s.h.trials.attempts[a];
    ProvedOne(s, a);
    WildcardIsCut(s.db.orders[o].identifiers[i]);
    assert ProvedBy(s, a, c) && (s.db.authzs[a].wildcard ==> s.db.challenges[c].kind == Dns01);
  }

  /** In every run each authorization holds the name it was created for, on its order's terms; only its status changes. */
  lemma RowsHoldTheirNames(s: State, a: AuthzId)
    requires Reachable(s) && a in s.db.authzs
    ensures a.order in s.h.plan && a.index < |s.h.plan[a.order].identifiers|
    ensures var order := s.h.plan[a.order];
            AuthorizesName(s.db.authzs[a], a.order, order.account, order.identifiers[a.index], order.expires)
    ensures a.order in s.db.orders ==> s.db.orders[a.order].identifiers == s.h.plan[a.order].identifiers
                                       && s.db.orders[a.order].account == s.h.plan[a.order].account
                                       && s.db.orders[a.order].expires == s.h.plan[a.order].expires
  {
    hide Reachable, CleanOk, OrdersOk, CommittedOk, KnownOk, GcOk, CertificatesOk, IssueCountOk, ReadyCountOk, ClaimCountOk,
         DecisionsOk, UndecidedOk, PromotersOk, VerdictsOk, ShapesOk, TrialsOk, AttemptsOk, PlanOk;
    ReachableOk(s);
    WildcardIsCut(s.h.plan[a.order].identifiers[a.index]);
  }

  /** What the step of a newOrder adds, in every run: the rows of its names, for a day. */
  lemma NewOrderAddsItsRows(s: State, account: nat, names: seq<string>)
    requires Enabled(s, NewOrder(account, names))
    ensures Adds(s.db, Next(s, NewOrder(account, names)).db, s.nextOrder, account, names, s.now + 86400)
    ensures Next(s, NewOrder(account, names)).h.plan
         == s.h.plan[s.nextOrder := Order(account, Pending, names, s.now + 86400, None)]
  {
    InsertOrderAdds(s.db, s.nextOrder, NewOrderRow(s, account, names));
    hide InsertOrder, Adds;
  }

  lemma ProvedOne(s: State, a: AuthzId)
    requires RowsOk(s.db, s.h.plan) && TrialsOk(s.h.trials, s.h.plan)
    requires AttemptsOk(s.db.challenges, s.h.trials) && DecisionsOk(s.db.authzs, s.h.trials, s.h.decisions)
    requires CleanOk(s.h.clean, s.threads, s.db, s.h.trials)
    requires a in s.db.authzs && s.db.authzs[a].status == Valid
    ensures a in s.h.trials.attempts && ProvedBy(s, a, s.h.trials.attempts[a])
    ensures s.db.authzs[a].wildcard ==> s.db.challenges[s.h.trials.attempts[a]].kind == Dns01
  {
  }

  /** A valid order names a certificate that was stored for this very order. */
  lemma ValidOrderHasItsCertificate(s: State, o: nat)
    requires Reachable(s) && o in s.db.orders && s.db.orders[o].status == Valid
    ensures HasCertificate(s.db.orders[o].certId, o, s.h.certificates)
  {
    ReachableOk(s);
  }

  // ---------------------------------------------------------------- what collections spare

  lemma CutoffsAreOld(s: State, t: nat)
    requires Inv(s) && t in s.threads
    ensures s.threads[t].GcOrders? || s.threads[t].GcAuthzs? ==> s.threads[t].cutoff <= s.now - 86400
  {
    hide RowsOk, CleanOk, OrdersOk, CommittedOk, KnownOk, CertificatesOk, IssueCountOk, ReadyCountOk, ClaimCountOk,
         DecisionsOk, UndecidedOk, PromotersOk, VerdictsOk, ShapesOk, TrialsOk, AttemptsOk, PlanOk;
  }

  /** An order not expired for a day is still there after any step, with its names, authorizations and challenges. */
  lemma UnexpiredOrdersStay(s: State, e: Event, o: nat)
    requires Reachable(s) && o in s.db.orders && s.db.orders[o].expires >= s.now - 86400
    ensures o in Next(s, e).db.orders
    ensures forall a :: a in s.db.authzs && a.order == o ==> a in Next(s, e).db.authzs
    ensures forall c :: c in s.db.challenges && c.authz.order == o ==> c in Next(s, e).db.challenges
  {
    hide Reachable, Inv, Next;
    ReachableOk(s);
    if Enabled(s, e) && e.Step? && (s.threads[e.tid].GcOrders? || s.threads[e.tid].GcAuthzs? || s.threads[e.tid].GcChallenges?) {
      CutoffsAreOld(s, e.tid);
      OrderAndChildren(s, o);
      GcSpares(s, e.tid, e.ok, o);
    } else {
      OthersDeleteNothing(s, e);
    }
  }

  /** The rows of one order agree on its expiry, and challenges on their authorization. */
  ghost predicate Together(db: Tables, o: nat)
    requires o in db.orders
  {
    && (forall a :: a in db.authzs && a.order == o ==> db.authzs[a].expires == db.orders[o].expires)
    && (forall c :: c in db.challenges && c.authz.order == o ==> db.challenges[c].authz == c.authz && c.authz in db.authzs)
  }

  lemma OrderAndChildren(s: State, o: nat)
    requires Inv(s) && o in s.db.orders
    ensures Together(s.db, o)
  {
    hide CleanOk, OrdersOk, CommittedOk, KnownOk, GcOk, CertificatesOk, IssueCountOk, ReadyCountOk, ClaimCountOk,
         DecisionsOk, UndecidedOk, PromotersOk, VerdictsOk, ShapesOk, TrialsOk, AttemptsOk, PlanOk;
  }

  lemma GcSpares(s: State, t: nat, ok: bool, o: nat)
    requires t in s.threads && (s.threads[t].GcOrders? || s.threads[t].GcAuthzs? || s.threads[t].GcChallenges?)
    requires !s.threads[t].GcChallenges? ==> s.threads[t].cutoff <= s.now - 86400
    requires o in s.db.orders && s.db.orders[o].expires >= s.now - 86400 && Together(s.db, o)
    ensures o in Next(s, Step(t, ok)).db.orders
    ensures forall a :: a in s.db.authzs && a.order == o ==> a in Next(s, Step(t, ok)).db.authzs
    ensures forall c :: c in s.db.challenges && c.authz.order == o ==> c in Next(s, Step(t, ok)).db.challenges
  {
    hide StepJob, StepChallenge, StepFinalize;
  }

  lemma OthersDeleteNothing(s: State, e: Event)
    requires Enabled(s, e) && e.Step? ==> !s.threads[e.tid].GcOrders? && !s.threads[e.tid].GcAuthzs? && !s.threads[e.tid].GcChallenges?
    ensures s.db.orders.Keys <= Next(s, e).db.orders.Keys
    ensures s.db.authzs.Keys <= Next(s, e).db.authzs.Keys
    ensures s.db.challenges.Keys <= Next(s, e).db.challenges.Keys
  {
    hide StepJob, StepChallenge, StepFinalize, AuthzIds, ChallengeIds, AuthzRow;
    if Enabled(s, e) && e.Step? {
      var thread := s.threads[e.tid];
      if thread.Job? { JobDeletesNothing(s, e.tid, e.ok); }
      else if IsFinalize(thread) { FinalizeDeletesNothing(s, e.tid, e.ok); }
      else if thread.Lookup? || thread.LookupAuthz? || thread.Claiming? { ChallengeDeletesNothing(s, e.tid, e.ok); }
    }
  }

  predicate SameKeys(t: Tables, after: Tables) {
    after.orders.Keys == t.orders.Keys && after.authzs.Keys == t.authzs.Keys && after.challenges.Keys == t.challenges.Keys
  }

  lemma StatusWritesKeepKeys(t: Tables)
    ensures forall o, status, certId :: SameKeys(t, SetOrderStatus(t, o, status, certId))
    ensures forall a, status :: SameKeys(t, SetAuthzStatus(t, a, status))
    ensures forall c, status :: SameKeys(t, SetChallengeStatus(t, c, status))
  {
  }

  lemma JobDeletesNothing(s: State, t: nat, ok: bool)
    requires t in s.threads && s.threads[t].Job?
    ensures SameKeys(s.db, StepJob(s, t, ok).db)
  {
    hide AllValid, SetOrderStatus, SetAuthzStatus, SetChallengeStatus, SameKeys;
    StatusWritesKeepKeys(s.db);
    assert SameKeys(s.db, s.db) by { SameIsSame(s.db); }
  }

  lemma SameIsSame(t: Tables)
    ensures SameKeys(t, t)
  {
  }

  lemma ChallengeDeletesNothing(s: State, t: nat, ok: bool)
    requires t in s.threads && (s.threads[t].Lookup? || s.threads[t].LookupAuthz? || s.threads[t].Claiming?)
    ensures SameKeys(s.db, StepChallenge(s, t, ok).db)
  {
    hide Claimable;
  }

  lemma FinalizeDeletesNothing(s: State, t: nat, ok: bool)
    requires t in s.threads && IsFinalize(s.threads[t])
    ensures SameKeys(s.db, StepFinalize(s, t, ok).db)
  {
  }

  /** A collection with nobody in between leaves exactly the orders and authorizations not expired for a day, and their challenges. */
  lemma CollectionAlone(s: State, t: nat)
    requires t !in s.threads
    ensures var s' := Next(Next(Next(Next(s, Start(t, GcOrders(s.now - 86400))), Step(t, true)), Step(t, true)), Step(t, true));
            && s'.threads == s.threads
            && s'.db.orders == (map o | o in s.db.orders && s.db.orders[o].expires >= s.now - 86400 :: s.db.orders[o])
            && s'.db.authzs == (map a | a in s.db.authzs && s.db.authzs[a].expires >= s.now - 86400 :: s.db.authzs[a])
            && (forall c :: c in s'.db.challenges <==> c in s.db.challenges && s.db.challenges[c].authz in s'.db.authzs)
            && (forall c :: c in s'.db.challenges ==> s'.db.challenges[c] == s.db.challenges[c])
  {
    hide StepJob, StepChallenge, StepFinalize;
    assert MayStart(s, GcOrders(s.now - 86400));
    var s1 := Next(s, Start(t, GcOrders(s.now - 86400)));
    assert s1 == s.(threads := s.threads[t := GcOrders(s.now - 86400)]);
    CollectOnce(s1, t);
    CollectTwice(Next(s1, Step(t, true)), t);
    CollectLast(Next(Next(s1, Step(t, true)), Step(t, true)), t);
    hide Next;
  }

  lemma CollectOnce(s: State, t: nat)
    requires t in s.threads && s.threads[t].GcOrders?
    ensures Next(s, Step(t, true)) == s.(
              threads := s.threads[t := GcAuthzs(s.threads[t].cutoff)],
              db := s.db.(orders := map o | o in s.db.orders && s.db.orders[o].expires >= s.threads[t].cutoff :: s.db.orders[o]))
  {
    hide StepJob, StepChallenge, StepFinalize;
  }

  lemma CollectTwice(s: State, t: nat)
    requires t in s.threads && s.threads[t].GcAuthzs?
    ensures Next(s, Step(t, true)) == s.(
              threads := s.threads[t := GcChallenges],
              db := s.db.(authzs := map a | a in s.db.authzs && s.db.authzs[a].expires >= s.threads[t].cutoff :: s.db.authzs[a]))
  {
    hide StepJob, StepChallenge, StepFinalize;
  }

  lemma CollectLast(s: State, t: nat)
    requires t in s.threads && s.threads[t].GcChallenges?
    ensures Next(s, Step(t, true)) == s.(
              threads := s.threads - {t},
              db := s.db.(challenges := map c | c in s.db.challenges && s.db.challenges[c].authz in s.db.authzs :: s.db.challenges[c]))
  {
    hide StepJob, StepChallenge, StepFinalize;
  }

  // ---------------------------------------------------------------- decided once

  /** One challenge of an authorization ever leaves "pending", and the authorization is decided at most once. */
  lemma DecidedOnce(s: State, a: AuthzId)
    requires Reachable(s)
    ensures s.h.trials.attemptCount[a] <= 1 && s.h.decisions[a] <= 1
    ensures forall c, d :: c in s.db.challenges && d in s.db.challenges && c != d
              && s.db.challenges[c].authz == a && s.db.challenges[d].authz == a
              ==> s.db.challenges[c].status == Pending || s.db.challenges[d].status == Pending
  {
    ReachableOk(s);
    hide RowsOk, CleanOk, OrdersOk, CommittedOk, KnownOk, ShapesOk;
    ChallengesKnowTheirAuthz(s.db, s.h.plan);
  }

  lemma ChallengesKnowTheirAuthz(db: Tables, plan: map<nat, Order>)
    requires RowsOk(db, plan)
    ensures forall c :: c in db.challenges ==> db.challenges[c].authz == c.authz
  {
  }

  /** The verdict against an authorization, or the disappearance of its order. */
  predicate Doomed(s: State, a: AuthzId) {
    && a.order in s.h.plan && a.index < |s.h.plan[a.order].identifiers|
    && (a.order !in s.db.orders || (a in s.h.trials.attempts && s.h.trials.attempts[a] in s.h.trials.refuted))
  }

  /** What a step of a request never does: create an order, take back a verdict, or move an attempt unless it claims. */
  predicate Framed(s: State, t: nat, s': State)
    requires t in s.threads
  {
    && s'.db.orders.Keys <= s.db.orders.Keys && s'.h.plan == s.h.plan
    && s.h.trials.refuted <= s'.h.trials.refuted
    && (s'.h.trials.attempts == s.h.trials.attempts
        || (s.threads[t].Claiming? && Claimable(s.db, s.threads[t].c, s.threads[t].a)
            && s'.h.trials.attempts == s.h.trials.attempts[s.threads[t].a := s.threads[t].c]))
  }

  lemma StepFrame(s: State, t: nat, ok: bool)
    requires t in s.threads
    ensures Framed(s, t, StepThread(s, t, ok))
  {
    hide StepJob, StepChallenge, StepFinalize, StepGc, Framed;
    match s.threads[t]
    case Lookup(_, _) => ChallengeFrame(s, t, ok);
    case LookupAuthz(_, _, _) => ChallengeFrame(s, t, ok);
    case Claiming(_, _, _) => ChallengeFrame(s, t, ok);
    case Job(_, _, _, _) => JobFrame(s, t, ok);
    case GcOrders(_) => GcFrame(s, t, ok);
    case GcAuthzs(_) => GcFrame(s, t, ok);
    case GcChallenges => GcFrame(s, t, ok);
    case _ => FinalizeFrame(s, t, ok);
  }

  lemma ChallengeFrame(s: State, t: nat, ok: bool)
    requires t in s.threads && (s.threads[t].Lookup? || s.threads[t].LookupAuthz? || s.threads[t].Claiming?)
    ensures Framed(s, t, StepChallenge(s, t, ok))
  {
  }

  lemma JobFrame(s: State, t: nat, ok: bool)
    requires t in s.threads && s.threads[t].Job?
    ensures Framed(s, t, StepJob(s, t, ok))
  {
    hide StepJob;
    JobKeepsOrders(s, t, ok);
    JobKeepsVerdicts(s, t, ok);
  }

  predicate WritesOrder(thread: Thread) {
    thread.Job? && (thread.phase == FailOrder || thread.phase == WriteReady)
  }

  lemma JobKeepsOrders(s: State, t: nat, ok: bool)
    requires t in s.threads && s.threads[t].Job?
    ensures StepJob(s, t, ok).db.orders.Keys == s.db.orders.Keys && StepJob(s, t, ok).h.plan == s.h.plan
  {
    hide StepJob;
    if WritesOrder(s.threads[t]) { OrderWriteKeepsOrders(s, t, ok); } else { JobSparesOrders(s, t, ok); }
  }

  lemma OrderWriteKeepsOrders(s: State, t: nat, ok: bool)
    requires t in s.threads && WritesOrder(s.threads[t])
    ensures StepJob(s, t, ok).db.orders.Keys == s.db.orders.Keys && StepJob(s, t, ok).h.plan == s.h.plan
  {
    hide AllValid, SetOrderStatus, SetChallengeStatus, SetAuthzStatus;
    StatusWritesKeepOrders(s.db);
  }

  lemma JobSparesOrders(s: State, t: nat, ok: bool)
    requires t in s.threads && s.threads[t].Job? && !WritesOrder(s.threads[t])
    ensures StepJob(s, t, ok).db.orders == s.db.orders && StepJob(s, t, ok).h.plan == s.h.plan
    ensures StepJob(s, t, ok).h.ledger == s.h.ledger
  {
    hide AllValid, SetOrderStatus, SetChallengeStatus, SetAuthzStatus;
    StatusWritesKeepOrders(s.db);
  }

  /** A claimed request goes on to its next phase or ends. */
  lemma JobThreads(s: State, t: nat, ok: bool)
    requires t in s.threads && s.threads[t].Job?
    ensures var s', j := StepJob(s, t, ok), s.threads[t];
            || s'.threads == s.threads - {t}
            || exists p: Phase :: s'.threads == s.threads[t := Job(p, j.c, j.a, j.o)] && Follows(j.phase, p)
  {
    hide AllValid, SetOrderStatus, SetChallengeStatus, SetAuthzStatus;
  }

  predicate Follows(before: Phase, after: Phase) {
    match after
    case Validating => false
    case FailChallenge => before == Validating
    case FailAuthz => before == FailChallenge
    case FailOrder => before == FailAuthz
    case PassChallenge => before == Validating
    case PassAuthz => before == PassChallenge
    case ReadAuthzs => before == PassAuthz
    case WriteReady => before == ReadAuthzs
  }

  lemma StatusWritesKeepOrders(t: Tables)
    ensures forall o, status, certId :: SetOrderStatus(t, o, status, certId).orders.Keys == t.orders.Keys
    ensures forall a, status :: SetAuthzStatus(t, a, status).orders == t.orders
    ensures forall c, status :: SetChallengeStatus(t, c, status).orders == t.orders
  {
  }

  lemma JobKeepsVerdicts(s: State, t: nat, ok: bool)
    requires t in s.threads && s.threads[t].Job?
    ensures s.h.trials.refuted <= StepJob(s, t, ok).h.trials.refuted
    ensures StepJob(s, t, ok).h.trials.attempts == s.h.trials.attempts
  {
    hide AllValid, SetOrderStatus, SetChallengeStatus, SetAuthzStatus;
  }

  lemma FinalizeFrame(s: State, t: nat, ok: bool)
    requires t in s.threads && IsFinalize(s.threads[t])
    ensures Framed(s, t, StepFinalize(s, t, ok))
  {
  }

  lemma GcFrame(s: State, t: nat, ok: bool)
    requires t in s.threads && (s.threads[t].GcOrders? || s.threads[t].GcAuthzs? || s.threads[t].GcChallenges?)
    ensures Framed(s, t, StepGc(s, t, ok))
  {
  }

  lemma DoomedStays(s: State, e: Event, a: AuthzId)
    requires Inv(s) && Doomed(s, a)
    ensures Doomed(Next(s, e), a)
  {
    hide Inv, StepThread, Doomed;
    if Enabled(s, e) && e.Step? { DoomedStep(s, e.tid, e.ok, a); } else { DoomedIdle(s, e, a); }
  }

  lemma DoomedStep(s: State, t: nat, ok: bool, a: AuthzId)
    requires Inv(s) && Doomed(s, a) && t in s.threads
    ensures Doomed(StepThread(s, t, ok), a)
  {
    hide Inv, StepThread, Claimable;
    StepFrame(s, t, ok);
    if s.threads[t].Claiming? { ClaimSparesAttempted(s, t, a); }
  }

  lemma DoomedIdle(s: State, e: Event, a: AuthzId)
    requires Inv(s) && Doomed(s, a) && !(Enabled(s, e) && e.Step?)
    ensures Doomed(Next(s, e), a)
  {
    hide StepThread, AuthzIds, ChallengeIds;
    NewOrderIsNew(s.h.plan, s.nextOrder, s.now);
    hide Inv;
  }

  lemma NewOrderIsNew(plan: map<nat, Order>, nextOrder: nat, now: int)
    requires PlanOk(plan, nextOrder, now)
    ensures nextOrder !in plan
  {
  }

  lemma ClaimSparesAttempted(s: State, t: nat, a: AuthzId)
    requires Inv(s) && t in s.threads && s.threads[t].Claiming?
    ensures a in s.h.trials.attempts && Claimable(s.db, s.threads[t].c, s.threads[t].a) ==> s.threads[t].a != a
  {
    hide CleanOk, OrdersOk, CommittedOk, KnownOk, GcOk, CertificatesOk, IssueCountOk, ReadyCountOk, ClaimCountOk,
         DecisionsOk, UndecidedOk, PromotersOk, VerdictsOk, PlanOk;
    if Claimable(s.db, s.threads[t].c, s.threads[t].a) {
      ClaimTakesUnattempted(s, s.threads[t].c, s.threads[t].a);
    }
  }

  lemma {:induction false} DoomedForever(s: State, es: seq<Event>, a: AuthzId)
    requires Inv(s) && Doomed(s, a)
    ensures Doomed(Run(s, es), a) && Inv(Run(s, es))
    decreases |es|
  {
    hide Inv, Doomed;
    if es != [] {
      DoomedStays(s, es[0], a);
      NextKeeps(s, es[0]);
      DoomedForever(Next(s, es[0]), es[1..], a);
    }
  }

  lemma DoomedNotPromoted(s: State, a: AuthzId)
    requires RowsOk(s.db, s.h.plan) && OrdersOk(s.db) && TrialsOk(s.h.trials, s.h.plan)
    requires DecisionsOk(s.db.authzs, s.h.trials, s.h.decisions)
    requires Doomed(s, a)
    ensures a.order in s.db.orders ==> !Promoted(s.db.orders[a.order].status)
  {
  }

  /**
   Once one authorization of an order is invalid, the order is never ready,
   processing or valid again, whatever the other requests and collections do.
   */
  lemma InvalidAuthorizationBlocksOrder(s: State, a: AuthzId, es: seq<Event>)
    requires Reachable(s) && a in s.db.authzs && s.db.authzs[a].status == Invalid
    ensures var o, s' := s.db.authzs[a].order, Run(s, es);
            o in s'.db.orders ==> !Promoted(s'.db.orders[o].status)
  {
    ReachableOk(s);
    InvalidIsDoomed(s, a);
    DoomedForever(s, es, a);
    DoomedNotPromoted(Run(s, es), a);
  }

  lemma InvalidIsDoomed(s: State, a: AuthzId)
    requires RowsOk(s.db, s.h.plan) && DecisionsOk(s.db.authzs, s.h.trials, s.h.decisions)
    requires a in s.db.authzs && s.db.authzs[a].status == Invalid
    ensures Doomed(s, a) && s.db.authzs[a].order == a.order
  {
  }
}
