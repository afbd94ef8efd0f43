/**
 The inductive invariant of the ACME frontend. Since the status writes are
 unguarded, it has to say of every request in flight what that request may
 still write. Each part names just the components it depends on.
 */
module AcmeInvariant {
  import opened Strings
  import opened AcmeTables
  import opened AcmeProtocol

  type Threads = map<nat, Thread>

  // ---------------------------------------------------------------- rows

  predicate Planned(plan: map<nat, Order>, a: AuthzId) {
    a.order in plan && a.index < |plan[a.order].identifiers|
  }

  ghost predicate PlanOk(plan: map<nat, Order>, nextOrder: nat, now: int) {
    forall o :: o in plan ==>
      && o < nextOrder && NoDuplicates(plan[o].identifiers) && plan[o].identifiers != []
      && plan[o].expires <= now + ORDER_TTL
  }

  ghost predicate OrderRowsOk(orders: map<nat, Order>, plan: map<nat, Order>) {
    forall o :: o in orders ==>
      && o in plan && orders[o].account == plan[o].account && orders[o].identifiers == plan[o].identifiers
      && orders[o].expires == plan[o].expires
  }

  ghost predicate AuthzRowsOk(authzs: map<AuthzId, Authz>, plan: map<nat, Order>) {
    forall a :: a in authzs ==>
      Planned(plan, a) && authzs[a] == AuthzRow(a.order, plan[a.order], a.index).(status := authzs[a].status)
  }

  ghost predicate ChallengeRowsOk(challenges: map<ChallengeId, Challenge>, plan: map<nat, Order>) {
    forall c :: c in challenges ==>
      && Planned(plan, c.authz) && Offered(plan[c.authz.order], c.authz.index, c.kind)
      && challenges[c].authz == c.authz && challenges[c].kind == c.kind
  }

  /** A surviving order still has all of its authorizations, and those all of their challenges. */
  ghost predicate ChildrenOk(db: Tables, plan: map<nat, Order>) {
    && (forall a: AuthzId :: a.order in db.orders && Planned(plan, a) ==> a in db.authzs)
    && (forall c: ChallengeId | c.authz in db.authzs && Planned(plan, c.authz)
                                && Offered(plan[c.authz.order], c.authz.index, c.kind) :: c in db.challenges)
  }

  ghost predicate RowsOk(db: Tables, plan: map<nat, Order>) {
    && OrderRowsOk(db.orders, plan) && AuthzRowsOk(db.authzs, plan) && ChallengeRowsOk(db.challenges, plan)
    && ChildrenOk(db, plan)
  }

  /** A collection that has deleted the expired orders may go on to their authorizations. */
  ghost predicate CollectorOk(thread: Thread, orders: map<nat, Order>, now: int) {
    && (thread.GcOrders? || thread.GcAuthzs? ==> thread.cutoff <= now - GC_GRACE)
    && (thread.GcAuthzs? ==> forall o :: o in orders ==> orders[o].expires >= thread.cutoff)
  }

  ghost predicate GcOk(threads: Threads, orders: map<nat, Order>, now: int) {
    forall t :: t in threads ==> CollectorOk(threads[t], orders, now)
  }

  // ---------------------------------------------------------------- attempts and verdicts

  predicate Attempted(tr: Trials, c: ChallengeId) {
    c.authz in tr.attempts && tr.attempts[c.authz] == c
  }

  /** One challenge of an authorization is attempted, once; all the others stay pending. */
  ghost predicate TrialsOk(tr: Trials, plan: map<nat, Order>) {
    && (forall a :: a in tr.attempts ==>
          tr.attempts[a].authz == a && Planned(plan, a) && Offered(plan[a.order], a.index, tr.attempts[a].kind))
    && (forall a :: tr.attemptCount[a] == if a in tr.attempts then 1 else 0)
    && (forall c :: c in tr.proved ==> Attempted(tr, c) && c !in tr.refuted)
    && (forall c :: c in tr.refuted ==> Attempted(tr, c))
  }

  ghost predicate AttemptsOk(challenges: map<ChallengeId, Challenge>, tr: Trials) {
    forall c :: c in challenges ==> (challenges[c].status == Pending <==> !Attempted(tr, c))
  }

  predicate Failing(p: Phase) { p == FailChallenge || p == FailAuthz || p == FailOrder }

  /** The request has not yet written its authorization. */
  predicate Undecided(p: Phase) {
    p == Validating || p == FailChallenge || p == FailAuthz || p == PassChallenge || p == PassAuthz
  }

  /** No two requests hold a challenge of the same authorization. */
  ghost predicate Disjoint(t: Thread, u: Thread) {
    t.Job? && u.Job? ==> t.a != u.a
  }

  ghost predicate ShapesOk(threads: Threads) {
    && (forall t :: t in threads ==> ShapeOk(threads[t]))
    && (forall t, u :: t in threads && u in threads && t != u ==> Disjoint(threads[t], threads[u]))
  }

  /** The values a request has read belong together. */
  predicate ShapeOk(thread: Thread) {
    && (thread.LookupAuthz? ==> thread.row.authz == thread.c.authz)
    && (thread.Claiming? || thread.Job? ==> thread.c.authz == thread.a && thread.a.order == thread.o)
  }

  ghost predicate JobTried(j: Thread, tr: Trials) {
    j.Job? ==>
    && Attempted(tr, j.c)
    && (j.phase == Validating ==> j.c !in tr.proved && j.c !in tr.refuted)
    && (j.phase != Validating ==> if Failing(j.phase) then j.c in tr.refuted else j.c in tr.proved)
  }

  ghost predicate VerdictsOk(threads: Threads, tr: Trials) {
    forall t :: t in threads ==> JobTried(threads[t], tr)
  }

  predicate StillUndecided(thread: Thread, decisions: multiset<AuthzId>) {
    thread.Job? && Undecided(thread.phase) ==> decisions[thread.a] == 0
  }

  ghost predicate UndecidedOk(threads: Threads, decisions: multiset<AuthzId>) {
    forall t :: t in threads ==> StillUndecided(threads[t], decisions)
  }

  /** An authorization is decided at most once, by the verdict on the challenge attempted for it. */
  ghost predicate DecisionsOk(authzs: map<AuthzId, Authz>, tr: Trials, decisions: multiset<AuthzId>) {
    && (forall a :: decisions[a] <= 1 && (decisions[a] > 0 ==> a in tr.attempts))
    && (forall a :: a in authzs ==> (authzs[a].status == Pending <==> decisions[a] == 0))
    && (forall a :: a in authzs && authzs[a].status != Pending ==>
          && a in tr.attempts
          && (if authzs[a].status == Valid then tr.attempts[a] in tr.proved
              else authzs[a].status == Invalid && tr.attempts[a] in tr.refuted))
  }

  // ---------------------------------------------------------------- orders

  predicate Promoted(status: Status) { status == Ready || status == Processing || status == Valid }

  ghost predicate OrdersOk(db: Tables) {
    forall o :: o in db.orders && Promoted(db.orders[o].status) ==> AllValid(db, o)
  }

  /** If the order is still there, every one of its authorizations is valid. */
  predicate OrderProved(db: Tables, o: nat) {
    o in db.orders ==> AllValid(db, o)
  }

  /** The requests that may still write "ready", "valid" or a claim's outcome to their order. */
  predicate Committed(thread: Thread) {
    (thread.Job? && thread.phase == WriteReady) || thread.FinIssue? || thread.FinFetch? || thread.FinStore? || thread.FinWrite?
  }

  predicate KnownOrder(thread: Thread, plan: map<nat, Order>) {
    Committed(thread) ==> thread.o in plan
  }

  ghost predicate KnownOk(threads: Threads, plan: map<nat, Order>) {
    forall t :: t in threads ==> KnownOrder(threads[t], plan)
  }

  ghost predicate CommittedOk(threads: Threads, db: Tables) {
    forall t :: t in threads ==> CommitmentOk(threads[t], db)
  }

  predicate CommitmentOk(thread: Thread, db: Tables) {
    Committed(thread) ==> OrderProved(db, thread.o)
  }

  predicate HasCertificate(certId: Option<nat>, o: nat, certificates: map<nat, nat>) {
    certId.Some? && certId.value in certificates && certificates[certId.value] == o
  }

  predicate WriteOk(thread: Thread, certificates: map<nat, nat>) {
    thread.FinWrite? ==>
      if thread.status == Valid then HasCertificate(thread.certId, thread.o, certificates) else thread.status == Invalid
  }

  ghost predicate CertificatesOk(threads: Threads, orders: map<nat, Order>, certificates: map<nat, nat>, nextCert: nat) {
    && (forall k :: k in certificates ==> k < nextCert)
    && (forall t :: t in threads ==> WriteOk(threads[t], certificates))
    && (forall o :: o in orders && orders[o].status == Valid ==> HasCertificate(orders[o].certId, o, certificates))
  }

  // ---------------------------------------------------------------- counting

  /** The authorizations of order `o` whose request has written "ready". */
  function PromotersOf(promoters: set<AuthzId>, o: nat): set<AuthzId> {
    set a | a in promoters && a.order == o
  }

  function IssuingFor(threads: Threads, o: nat): set<nat> {
    set t | t in threads && threads[t] == FinIssue(o)
  }

  function IsReady(orders: map<nat, Order>, o: nat): nat {
    if o in orders && orders[o].status == Ready then 1 else 0
  }

  ghost predicate PromotersOk(threads: Threads, tr: Trials, promoters: set<AuthzId>) {
    && (forall a :: a in promoters ==> a in tr.attempts)
    && (forall t :: t in threads ==> NotPromoted(threads[t], promoters))
  }

  predicate NotPromoted(thread: Thread, promoters: set<AuthzId>) {
    thread.Job? ==> thread.a !in promoters
  }

  ghost predicate ReadyCountOk(l: Ledger) {
    forall o :: l.readyWrites[o] == |PromotersOf(l.promoters, o)|
  }

  ghost predicate ClaimCountOk(l: Ledger, orders: map<nat, Order>) {
    forall o :: l.orderClaims[o] + IsReady(orders, o) <= l.readyWrites[o]
  }

  ghost predicate IssueCountOk(l: Ledger, threads: Threads) {
    forall o :: l.issuances[o] + |IssuingFor(threads, o)| <= l.orderClaims[o]
  }

  // ---------------------------------------------------------------- when no ignored write has failed

  predicate ChallengeHas(challenges: map<ChallengeId, Challenge>, c: ChallengeId, status: Status) {
    c in challenges ==> challenges[c].status == status
  }

  ghost predicate CleanOk(clean: bool, threads: Threads, db: Tables, tr: Trials) {
    clean ==>
      && (forall a :: a in db.authzs && a in tr.attempts && db.authzs[a].status != Pending ==>
            ChallengeHas(db.challenges, tr.attempts[a], db.authzs[a].status))
      && (forall t :: t in threads ==> WroteChallenge(threads[t], db.challenges))
  }

  predicate WroteChallenge(thread: Thread, challenges: map<ChallengeId, Challenge>) {
    && (thread.Job? && thread.phase == PassAuthz ==> ChallengeHas(challenges, thread.c, Valid))
    && (thread.Job? && thread.phase == FailAuthz ==> ChallengeHas(challenges, thread.c, Invalid))
  }

  ghost predicate Inv(s: State) {
    && PlanOk(s.h.plan, s.nextOrder, s.now)
    && RowsOk(s.db, s.h.plan)
    && GcOk(s.threads, s.db.orders, s.now)
    && TrialsOk(s.h.trials, s.h.plan)
    && AttemptsOk(s.db.challenges, s.h.trials)
    && ShapesOk(s.threads)
    && VerdictsOk(s.threads, s.h.trials)
    && UndecidedOk(s.threads, s.h.decisions)
    && DecisionsOk(s.db.authzs, s.h.trials, s.h.decisions)
    && OrdersOk(s.db)
    && CommittedOk(s.threads, s.db)
    && KnownOk(s.threads, s.h.plan)
    && CertificatesOk(s.threads, s.db.orders, s.h.certificates, s.nextCert)
    && PromotersOk(s.threads, s.h.trials, s.h.ledger.promoters)
    && ReadyCountOk(s.h.ledger)
    && ClaimCountOk(s.h.ledger, s.db.orders)
    && IssueCountOk(s.h.ledger, s.threads)
    && CleanOk(s.h.clean, s.threads, s.db, s.h.trials)
  }
}
