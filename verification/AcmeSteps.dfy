/** Every step of the ACME frontend preserves the invariant. */
module AcmeSteps {
  import opened Strings
  import opened AcmeTables
  import opened AcmeProtocol
  import opened AcmeInvariant

  // ---------------------------------------------------------------- threads move

  /** What `thread` must satisfy to be one of the threads of `s`, issuance counts aside. */
  ghost predicate MayRun(s: State, thread: Thread) {
    && ShapeOk(thread)
    && CollectorOk(thread, s.db.orders, s.now)
    && JobTried(thread, s.h.trials)
    && StillUndecided(thread, s.h.decisions)
    && CommitmentOk(thread, s.db)
    && KnownOrder(thread, s.h.plan)
    && WriteOk(thread, s.h.certificates)
    && NotPromoted(thread, s.h.ledger.promoters)
    && (s.h.clean ==> WroteChallenge(thread, s.db.challenges))
  }

  ghost predicate Apart(threads: Threads, t: nat, thread: Thread) {
    forall u :: u in threads && u != t ==> Disjoint(thread, threads[u]) && Disjoint(threads[u], thread)
  }

  predicate Issuing(threads: Threads, t: nat) {
    t in threads && threads[t].FinIssue?
  }

  lemma GotoKeepsIssuing(l: Ledger, threads: Threads, t: nat, next: Thread)
    requires IssueCountOk(l, threads) && !Issuing(threads, t) && !next.FinIssue?
    ensures IssueCountOk(l, threads[t := next])
  {
    forall o ensures IssuingFor(threads[t := next], o) == IssuingFor(threads, o) {}
  }

  lemma GotoKeepsShapes(threads: Threads, t: nat, next: Thread)
    requires ShapesOk(threads) && ShapeOk(next) && Apart(threads, t, next)
    ensures ShapesOk(threads[t := next])
  {
  }

  lemma GotoKeepsRecords(threads: Threads, t: nat, next: Thread, tr: Trials, decisions: multiset<AuthzId>, promoters: set<AuthzId>)
    requires VerdictsOk(threads, tr) && UndecidedOk(threads, decisions) && PromotersOk(threads, tr, promoters)
    requires JobTried(next, tr) && StillUndecided(next, decisions) && NotPromoted(next, promoters)
    ensures VerdictsOk(threads[t := next], tr) && UndecidedOk(threads[t := next], decisions)
    ensures PromotersOk(threads[t := next], tr, promoters)
  {
  }

  lemma GotoKeepsTables(s: State, t: nat, next: Thread)
    requires GcOk(s.threads, s.db.orders, s.now) && CommittedOk(s.threads, s.db) && KnownOk(s.threads, s.h.plan)
    requires CertificatesOk(s.threads, s.db.orders, s.h.certificates, s.nextCert)
    requires CleanOk(s.h.clean, s.threads, s.db, s.h.trials)
    requires MayRun(s, next)
    ensures KnownOk(s.threads[t := next], s.h.plan)
    ensures GcOk(s.threads[t := next], s.db.orders, s.now) && CommittedOk(s.threads[t := next], s.db)
    ensures CertificatesOk(s.threads[t := next], s.db.orders, s.h.certificates, s.nextCert)
    ensures CleanOk(s.h.clean, s.threads[t := next], s.db, s.h.trials)
  {
  }

  lemma GotoKeeps(s: State, t: nat, next: Thread)
    requires Inv(s) && MayRun(s, next) && Apart(s.threads, t, next)
    requires !Issuing(s.threads, t) && !next.FinIssue?
    ensures Inv(Goto(s, t, next))
  {
    GotoKeepsShapes(s.threads, t, next);
    GotoKeepsRecords(s.threads, t, next, s.h.trials, s.h.decisions, s.h.ledger.promoters);
    GotoKeepsTables(s, t, next);
    GotoKeepsIssuing(s.h.ledger, s.threads, t, next);
  }

  lemma EndKeepsIssuing(l: Ledger, threads: Threads, t: nat)
    requires IssueCountOk(l, threads)
    ensures IssueCountOk(l, threads - {t})
  {
    forall o ensures |IssuingFor(threads - {t}, o)| <= |IssuingFor(threads, o)| {
      SubsetIsSmaller(IssuingFor(threads - {t}, o), IssuingFor(threads, o));
    }
  }

  lemma EndKeeps(s: State, t: nat)
    requires Inv(s)
    ensures Inv(End(s, t))
  {
    EndKeepsIssuing(s.h.ledger, s.threads, t);
  }

  // ---------------------------------------------------------------- a challenge request

  lemma ClaimTakesUnattempted(s: State, c: ChallengeId, a: AuthzId)
    requires RowsOk(s.db, s.h.plan) && TrialsOk(s.h.trials, s.h.plan) && AttemptsOk(s.db.challenges, s.h.trials)
    requires Claimable(s.db, c, a) && c.authz == a
    ensures a !in s.h.trials.attempts
  {
  }

  /** The part of a claim that is not the thread's: the challenge row and the record of attempts. */
  function Claimed(s: State, c: ChallengeId, a: AuthzId): State {
    s.(db := SetChallengeStatus(s.db, c, Processing),
       h := s.h.(trials := Attempt(s.h.trials, c, a)))
  }

  function Attempt(tr: Trials, c: ChallengeId, a: AuthzId): Trials {
    tr.(attempts := tr.attempts[a := c], attemptCount := tr.attemptCount + multiset{a})
  }

  lemma SetChallengeKeepsRows(db: Tables, plan: map<nat, Order>, c: ChallengeId, status: Status)
    requires RowsOk(db, plan)
    ensures RowsOk(SetChallengeStatus(db, c, status), plan)
  {
  }

  lemma ClaimKeepsTrials(tr: Trials, plan: map<nat, Order>, c: ChallengeId, a: AuthzId)
    requires TrialsOk(tr, plan) && a !in tr.attempts
    requires c.authz == a && Planned(plan, a) && Offered(plan[a.order], a.index, c.kind)
    ensures TrialsOk(Attempt(tr, c, a), plan)
    ensures c !in tr.proved && c !in tr.refuted
  {
  }

  lemma ClaimKeepsAttempts(db: Tables, tr: Trials, c: ChallengeId, a: AuthzId)
    requires AttemptsOk(db.challenges, tr)
    requires c in db.challenges && c.authz == a && a !in tr.attempts
    ensures AttemptsOk(SetChallengeStatus(db, c, Processing).challenges, Attempt(tr, c, a))
  {
  }

  lemma ClaimKeepsThreads(threads: Threads, tr: Trials, c: ChallengeId, a: AuthzId, promoters: set<AuthzId>)
    requires VerdictsOk(threads, tr) && PromotersOk(threads, tr, promoters) && ShapesOk(threads)
    requires a !in tr.attempts && c.authz == a
    ensures VerdictsOk(threads, Attempt(tr, c, a)) && PromotersOk(threads, Attempt(tr, c, a), promoters)
    ensures forall u :: u in threads && threads[u].Job? ==> threads[u].a != a
    ensures a !in promoters
  {
  }

  lemma ClaimKeepsDecisions(authzs: map<AuthzId, Authz>, tr: Trials, decisions: multiset<AuthzId>, c: ChallengeId, a: AuthzId)
    requires DecisionsOk(authzs, tr, decisions) && a !in tr.attempts
    ensures DecisionsOk(authzs, Attempt(tr, c, a), decisions) && decisions[a] == 0
  {
  }

  lemma ClaimKeepsClean(clean: bool, threads: Threads, db: Tables, tr: Trials, decisions: multiset<AuthzId>, c: ChallengeId, a: AuthzId)
    requires CleanOk(clean, threads, db, tr) && VerdictsOk(threads, tr) && DecisionsOk(db.authzs, tr, decisions)
    requires c.authz == a && a !in tr.attempts && (forall d :: d in tr.attempts ==> tr.attempts[d].authz == d)
    ensures CleanOk(clean, threads, SetChallengeStatus(db, c, Processing), Attempt(tr, c, a))
  {
  }

  lemma ClaimedKeeps(s: State, t: nat, c: ChallengeId, a: AuthzId)
    requires Inv(s) && Claimable(s.db, c, a) && c.authz == a
    ensures Inv(Claimed(s, c, a))
    ensures a !in s.h.trials.attempts && c !in s.h.trials.proved && c !in s.h.trials.refuted
    ensures a !in s.h.ledger.promoters && s.h.decisions[a] == 0
    ensures Apart(s.threads, t, Job(Validating, c, a, a.order))
  {
    ClaimTakesUnattempted(s, c, a);
    SetChallengeKeepsRows(s.db, s.h.plan, c, Processing);
    ClaimKeepsTrials(s.h.trials, s.h.plan, c, a);
    ClaimKeepsAttempts(s.db, s.h.trials, c, a);
    ClaimKeepsThreads(s.threads, s.h.trials, c, a, s.h.ledger.promoters);
    ClaimKeepsDecisions(s.db.authzs, s.h.trials, s.h.decisions, c, a);
    ClaimKeepsClean(s.h.clean, s.threads, s.db, s.h.trials, s.h.decisions, c, a);
  }

  lemma LookupReadsFamily(s: State, t: nat, ok: bool)
    requires RowsOk(s.db, s.h.plan) && ShapesOk(s.threads)
    requires t in s.threads && (s.threads[t].Lookup? || s.threads[t].LookupAuthz?)
    ensures var next := StepChallenge(s, t, ok);
            t in next.threads ==> MayRun(s, next.threads[t]) && Apart(s.threads, t, next.threads[t])
  {
  }

  lemma LookupKeeps(s: State, t: nat, ok: bool)
    requires Inv(s) && t in s.threads && (s.threads[t].Lookup? || s.threads[t].LookupAuthz?)
    ensures Inv(StepChallenge(s, t, ok))
  {
    var next := StepChallenge(s, t, ok);
    EndKeeps(s, t);
    if t in next.threads {
      LookupReadsFamily(s, t, ok);
      GotoKeeps(s, t, next.threads[t]);
      assert next == Goto(s, t, next.threads[t]);
    } else {
      assert next == End(s, t);
    }
  }

  lemma ClaimedMayRun(s: State, c: ChallengeId, a: AuthzId, o: nat)
    requires c.authz == a && a.order == o && s.h.decisions[a] == 0
    requires c !in s.h.trials.proved && c !in s.h.trials.refuted && a !in s.h.ledger.promoters
    ensures MayRun(Claimed(s, c, a), Job(Validating, c, a, o))
  {
  }

  lemma ClaimingRuns(threads: Threads, t: nat)
    requires ShapesOk(threads) && t in threads && threads[t].Claiming?
    ensures threads[t].c.authz == threads[t].a && threads[t].a.order == threads[t].o
  {
  }

  lemma ClaimStepKeeps(s: State, t: nat, ok: bool)
    requires Inv(s) && t in s.threads && s.threads[t].Claiming?
    ensures Inv(StepChallenge(s, t, ok))
  {
    hide Inv, MayRun, Apart, Claimable;
    var Claiming(c, a, o) := s.threads[t];
    if ok && Claimable(s.db, c, a) { ClaimedRuns(s, t, c, a, o); } else { EndKeeps(s, t); }
  }

  lemma ClaimedRuns(s: State, t: nat, c: ChallengeId, a: AuthzId, o: nat)
    requires Inv(s) && t in s.threads && s.threads[t] == Claiming(c, a, o) && Claimable(s.db, c, a)
    ensures Inv(Goto(Claimed(s, c, a), t, Job(Validating, c, a, o)))
  {
    hide MayRun, Apart;
    ClaimingRuns(s.threads, t);
    ClaimedKeeps(s, t, c, a);
    ClaimedMayRun(s, c, a, o);
    hide Inv;
    GotoKeeps(Claimed(s, c, a), t, Job(Validating, c, a, o));
  }

  // ---------------------------------------------------------------- after the claim

  /** No request holds a challenge of authorization `a`. */
  ghost predicate Free(threads: Threads, a: AuthzId) {
    forall u :: u in threads && threads[u].Job? ==> threads[u].a != a
  }

  lemma JobLeaves(s: State, t: nat)
    requires Inv(s) && t in s.threads && s.threads[t].Job?
    ensures Inv(End(s, t)) && Free(s.threads - {t}, s.threads[t].a)
    ensures Apart(s.threads, t, s.threads[t])
    ensures MayRun(End(s, t), s.threads[t])
  {
    EndKeeps(s, t);
    JobRuns(s, t);
  }

  lemma JobRuns(s: State, t: nat)
    requires GcOk(s.threads, s.db.orders, s.now) && ShapesOk(s.threads) && VerdictsOk(s.threads, s.h.trials)
    requires UndecidedOk(s.threads, s.h.decisions) && CommittedOk(s.threads, s.db)
    requires CertificatesOk(s.threads, s.db.orders, s.h.certificates, s.nextCert)
    requires PromotersOk(s.threads, s.h.trials, s.h.ledger.promoters) && CleanOk(s.h.clean, s.threads, s.db, s.h.trials)
    requires KnownOk(s.threads, s.h.plan)
    requires t in s.threads && s.threads[t].Job?
    ensures Free(s.threads - {t}, s.threads[t].a)
    ensures Apart(s.threads, t, s.threads[t])
    ensures MayRun(s, s.threads[t])
  {
  }

  function Judge(tr: Trials, c: ChallengeId, ok: bool): Trials {
    if ok then tr.(proved := tr.proved + {c}) else tr.(refuted := tr.refuted + {c})
  }

  lemma JudgeKeepsTrials(tr: Trials, plan: map<nat, Order>, c: ChallengeId, ok: bool)
    requires TrialsOk(tr, plan) && Attempted(tr, c) && c !in tr.proved && c !in tr.refuted
    ensures TrialsOk(Judge(tr, c, ok), plan)
  {
  }

  lemma JudgeKeepsAttempts(challenges: map<ChallengeId, Challenge>, tr: Trials, c: ChallengeId, ok: bool)
    requires AttemptsOk(challenges, tr)
    ensures AttemptsOk(challenges, Judge(tr, c, ok))
  {
  }

  lemma JudgeKeepsThreads(threads: Threads, tr: Trials, promoters: set<AuthzId>, c: ChallengeId, ok: bool)
    requires VerdictsOk(threads, tr) && PromotersOk(threads, tr, promoters) && Free(threads, c.authz)
    requires ShapesOk(threads)
    ensures VerdictsOk(threads, Judge(tr, c, ok)) && PromotersOk(threads, Judge(tr, c, ok), promoters)
  {
  }

  lemma JudgeKeepsDecisions(authzs: map<AuthzId, Authz>, tr: Trials, decisions: multiset<AuthzId>, c: ChallengeId, ok: bool)
    requires DecisionsOk(authzs, tr, decisions)
    ensures DecisionsOk(authzs, Judge(tr, c, ok), decisions)
  {
  }

  lemma JudgeKeepsClean(clean: bool, threads: Threads, db: Tables, tr: Trials, c: ChallengeId, ok: bool)
    requires CleanOk(clean, threads, db, tr)
    ensures CleanOk(clean, threads, db, Judge(tr, c, ok))
  {
  }

  lemma JudgeKeeps(s: State, c: ChallengeId, ok: bool)
    requires Inv(s) && Free(s.threads, c.authz)
    requires Attempted(s.h.trials, c) && c !in s.h.trials.proved && c !in s.h.trials.refuted
    ensures Inv(s.(h := s.h.(trials := Judge(s.h.trials, c, ok))))
  {
    JudgeKeepsTrials(s.h.trials, s.h.plan, c, ok);
    JudgeKeepsAttempts(s.db.challenges, s.h.trials, c, ok);
    JudgeKeepsThreads(s.threads, s.h.trials, s.h.ledger.promoters, c, ok);
    JudgeKeepsDecisions(s.db.authzs, s.h.trials, s.h.decisions, c, ok);
    JudgeKeepsClean(s.h.clean, s.threads, s.db, s.h.trials, c, ok);
  }

  lemma ApartFromFree(threads: Threads, t: nat, next: Thread)
    requires next.Job? && Free(threads, next.a)
    ensures Apart(threads, t, next)
  {
  }

  lemma VerdictMayRun(s: State, j: Thread, ok: bool)
    requires j.Job? && j.phase == Validating && MayRun(s, j)
    ensures MayRun(s.(h := s.h.(trials := Judge(s.h.trials, j.c, ok))),
                   Job(if ok then PassChallenge else FailChallenge, j.c, j.a, j.o))
    ensures Attempted(s.h.trials, j.c) && j.c !in s.h.trials.proved && j.c !in s.h.trials.refuted && j.c.authz == j.a
  {
  }

  lemma VerdictStepKeeps(s: State, t: nat, ok: bool)
    requires Inv(s) && t in s.threads && s.threads[t].Job? && s.threads[t].phase == Validating
    ensures Inv(StepJob(s, t, ok))
  {
    hide Inv, MayRun, Apart, Free;
    var j := s.threads[t];
    var next := Job(if ok then PassChallenge else FailChallenge, j.c, j.a, j.o);
    JobLeaves(s, t);
    var s0 := End(s, t);
    var s1 := s0.(h := s.h.(trials := Judge(s.h.trials, j.c, ok)));
    VerdictMayRun(s0, j, ok);
    JudgeKeeps(s0, j.c, ok);
    ApartFromFree(s1.threads, t, next);
    GotoKeeps(s1, t, next);
    assert (s.threads - {t})[t := next] == s.threads[t := next];
  }

  // The two challenge writes.

  lemma WriteKeepsAttempts(db: Tables, tr: Trials, c: ChallengeId, status: Status)
    requires AttemptsOk(db.challenges, tr) && Attempted(tr, c) && status != Pending
    ensures AttemptsOk(SetChallengeStatus(db, c, status).challenges, tr)
  {
  }

  lemma WriteKeepsClean(clean: bool, threads: Threads, db: Tables, tr: Trials, plan: map<nat, Order>,
                        decisions: multiset<AuthzId>, c: ChallengeId, status: Status)
    requires CleanOk(clean, threads, db, tr) && DecisionsOk(db.authzs, tr, decisions) && ShapesOk(threads)
    requires TrialsOk(tr, plan) && Free(threads, c.authz) && decisions[c.authz] == 0
    ensures CleanOk(clean, threads, SetChallengeStatus(db, c, status), tr)
    ensures CommittedOk(threads, db) ==> CommittedOk(threads, SetChallengeStatus(db, c, status))
    ensures OrdersOk(db) ==> OrdersOk(SetChallengeStatus(db, c, status))
  {
  }

  lemma WriteChallengeKeeps(s: State, c: ChallengeId, status: Status, ok: bool)
    requires Inv(s) && Free(s.threads, c.authz)
    requires Attempted(s.h.trials, c) && s.h.decisions[c.authz] == 0 && status != Pending
    ensures Inv(WriteChallenge(s, c, status, ok))
  {
    hide RowsOk, TrialsOk, AttemptsOk, ShapesOk, VerdictsOk, UndecidedOk, DecisionsOk, PromotersOk, Free;
    hide IssueCountOk, ClaimCountOk, ReadyCountOk, CertificatesOk, GcOk;
    if ok {
      SetChallengeKeepsRows(s.db, s.h.plan, c, status);
      WriteKeepsAttempts(s.db, s.h.trials, c, status);
      WriteKeepsClean(s.h.clean, s.threads, s.db, s.h.trials, s.h.plan, s.h.decisions, c, status);
    }
  }

  predicate WritesChallenge(j: Thread) {
    j.Job? && (j.phase == PassChallenge || j.phase == FailChallenge)
  }

  lemma ChallengeWriteMayRun(s: State, j: Thread, ok: bool)
    requires WritesChallenge(j) && MayRun(s, j)
    ensures MayRun(WriteChallenge(s, j.c, if j.phase == PassChallenge then Valid else Invalid, ok),
                   Job(if j.phase == PassChallenge then PassAuthz else FailAuthz, j.c, j.a, j.o))
    ensures Attempted(s.h.trials, j.c) && s.h.decisions[j.a] == 0 && j.c.authz == j.a
  {
  }

  lemma ChallengeWriteStepKeeps(s: State, t: nat, ok: bool)
    requires Inv(s) && t in s.threads && WritesChallenge(s.threads[t])
    ensures Inv(StepJob(s, t, ok))
  {
    hide Inv, MayRun, Apart, Free;
    var j := s.threads[t];
    var status := if j.phase == PassChallenge then Valid else Invalid;
    var next := Job(if j.phase == PassChallenge then PassAuthz else FailAuthz, j.c, j.a, j.o);
    JobLeaves(s, t);
    var s1 := WriteChallenge(End(s, t), j.c, status, ok);
    ChallengeWriteMayRun(End(s, t), j, ok);
    WriteChallengeKeeps(End(s, t), j.c, status, ok);
    ApartFromFree(s1.threads, t, next);
    GotoKeeps(s1, t, next);
    assert (s.threads - {t})[t := next] == s.threads[t := next];
  }

  // The two authorization writes.

  lemma SetAuthzKeepsRows(db: Tables, plan: map<nat, Order>, a: AuthzId, status: Status)
    requires RowsOk(db, plan)
    ensures RowsOk(SetAuthzStatus(db, a, status), plan)
  {
  }

  lemma DecideKeepsDecisions(db: Tables, tr: Trials, decisions: multiset<AuthzId>, a: AuthzId, status: Status)
    requires DecisionsOk(db.authzs, tr, decisions) && a in db.authzs && decisions[a] == 0 && a in tr.attempts
    requires status == Valid || status == Invalid
    requires tr.attempts[a] in (if status == Valid then tr.proved else tr.refuted)
    ensures DecisionsOk(SetAuthzStatus(db, a, status).authzs, tr, decisions + multiset{a})
  {
  }

  lemma DecideKeepsThreads(threads: Threads, decisions: multiset<AuthzId>, a: AuthzId)
    requires UndecidedOk(threads, decisions) && Free(threads, a)
    ensures UndecidedOk(threads, decisions + multiset{a})
  {
  }

  /** An order with a pending authorization has not been promoted, so deciding it breaks no promotion. */
  lemma DecideKeepsOrders(db: Tables, threads: Threads, plan: map<nat, Order>, a: AuthzId, status: Status)
    requires OrdersOk(db) && CommittedOk(threads, db) && AuthzRowsOk(db.authzs, plan)
    requires a in db.authzs && db.authzs[a].status == Pending
    ensures OrdersOk(SetAuthzStatus(db, a, status)) && CommittedOk(threads, SetAuthzStatus(db, a, status))
  {
    var db' := SetAuthzStatus(db, a, status);
    forall o | AllValid(db, o) ensures AllValid(db', o) {}
  }

  lemma DecideKeepsClean(clean: bool, threads: Threads, db: Tables, tr: Trials, a: AuthzId, status: Status)
    requires CleanOk(clean, threads, db, tr)
    requires a in tr.attempts && (clean ==> ChallengeHas(db.challenges, tr.attempts[a], status))
    ensures CleanOk(clean, threads, SetAuthzStatus(db, a, status), tr)
  {
  }

  lemma WriteAuthzKeeps(s: State, a: AuthzId, status: Status, ok: bool)
    requires Inv(s) && Free(s.threads, a)
    requires s.h.decisions[a] == 0 && a in s.h.trials.attempts
    requires status == Valid || status == Invalid
    requires s.h.trials.attempts[a] in (if status == Valid then s.h.trials.proved else s.h.trials.refuted)
    requires s.h.clean ==> ChallengeHas(s.db.challenges, s.h.trials.attempts[a], status)
    ensures Inv(WriteAuthz(s, a, status, ok))
  {
    if ok && a in s.db.authzs {
      SetAuthzKeepsRows(s.db, s.h.plan, a, status);
      DecideKeepsDecisions(s.db, s.h.trials, s.h.decisions, a, status);
      DecideKeepsThreads(s.threads, s.h.decisions, a);
      DecideKeepsOrders(s.db, s.threads, s.h.plan, a, status);
      DecideKeepsClean(s.h.clean, s.threads, s.db, s.h.trials, a, status);
    }
  }

  predicate WritesAuthz(j: Thread) {
    j.Job? && (j.phase == PassAuthz || j.phase == FailAuthz)
  }

  lemma AuthzWriteMayRun(s: State, j: Thread, ok: bool)
    requires WritesAuthz(j) && MayRun(s, j)
    ensures MayRun(WriteAuthz(s, j.a, if j.phase == PassAuthz then Valid else Invalid, ok),
                   Job(if j.phase == PassAuthz then ReadAuthzs else FailOrder, j.c, j.a, j.o))
    ensures s.h.decisions[j.a] == 0 && j.a in s.h.trials.attempts && s.h.trials.attempts[j.a] == j.c
    ensures j.c in (if j.phase == PassAuthz then s.h.trials.proved else s.h.trials.refuted)
    ensures s.h.clean ==> ChallengeHas(s.db.challenges, j.c, if j.phase == PassAuthz then Valid else Invalid)
  {
  }

  lemma AuthzWriteStepKeeps(s: State, t: nat, ok: bool)
    requires Inv(s) && t in s.threads && WritesAuthz(s.threads[t])
    ensures Inv(StepJob(s, t, ok))
  {
    hide Inv, MayRun, Apart, Free;
    var j := s.threads[t];
    var status := if j.phase == PassAuthz then Valid else Invalid;
    var next := Job(if j.phase == PassAuthz then ReadAuthzs else FailOrder, j.c, j.a, j.o);
    JobLeaves(s, t);
    var s1 := WriteAuthz(End(s, t), j.a, status, ok);
    AuthzWriteMayRun(End(s, t), j, ok);
    WriteAuthzKeeps(End(s, t), j.a, status, ok);
    ApartFromFree(s1.threads, t, next);
    GotoKeeps(s1, t, next);
    assert (s.threads - {t})[t := next] == s.threads[t := next];
  }

  // ---------------------------------------------------------------- order writes

  lemma SetOrderKeepsRows(db: Tables, plan: map<nat, Order>, o: nat, status: Status, certId: Option<nat>)
    requires RowsOk(db, plan)
    ensures RowsOk(SetOrderStatus(db, o, status, certId), plan)
  {
  }

  /** An order write breaks no promotion if what it writes is true of the order. */
  lemma SetOrderKeepsOrders(db: Tables, threads: Threads, o: nat, status: Status, certId: Option<nat>)
    requires OrdersOk(db) && CommittedOk(threads, db)
    requires Promoted(status) ==> OrderProved(db, o)
    ensures OrdersOk(SetOrderStatus(db, o, status, certId))
    ensures CommittedOk(threads, SetOrderStatus(db, o, status, certId))
  {
    var db' := SetOrderStatus(db, o, status, certId);
    forall p ensures AllValid(db, p) <==> AllValid(db', p) {}
  }

  lemma SetOrderKeepsThreads(s: State, o: nat, status: Status, certId: Option<nat>)
    requires GcOk(s.threads, s.db.orders, s.now) && CleanOk(s.h.clean, s.threads, s.db, s.h.trials)
    requires CertificatesOk(s.threads, s.db.orders, s.h.certificates, s.nextCert)
    requires status == Valid ==> HasCertificate(certId, o, s.h.certificates)
    ensures var db := SetOrderStatus(s.db, o, status, certId);
            && GcOk(s.threads, db.orders, s.now) && CleanOk(s.h.clean, s.threads, db, s.h.trials)
            && CertificatesOk(s.threads, db.orders, s.h.certificates, s.nextCert)
  {
  }

  lemma WriteOrderKeeps(s: State, o: nat, status: Status, certId: Option<nat>, ok: bool)
    requires Inv(s)
    requires Promoted(status) ==> OrderProved(s.db, o)
    requires status == Valid ==> HasCertificate(certId, o, s.h.certificates)
    requires status != Ready
    ensures Inv(WriteOrder(s, o, status, certId, ok))
  {
    hide RowsOk, OrdersOk, CommittedOk, GcOk, CertificatesOk, TrialsOk, ShapesOk, DecisionsOk;
    if ok {
      SetOrderKeepsRows(s.db, s.h.plan, o, status, certId);
      SetOrderKeepsOrders(s.db, s.threads, o, status, certId);
      SetOrderKeepsThreads(s, o, status, certId);
    }
  }

  lemma FailOrderStepKeeps(s: State, t: nat, ok: bool)
    requires Inv(s) && t in s.threads && s.threads[t].Job? && s.threads[t].phase == FailOrder
    ensures Inv(StepJob(s, t, ok))
  {
    hide Inv;
    WriteOrderKeeps(s, s.threads[t].o, Invalid, None, ok);
    EndKeeps(WriteOrder(s, s.threads[t].o, Invalid, None, ok), t);
  }

  // The promotion.

  lemma ReadMayRun(s: State, j: Thread)
    requires j.Job? && j.phase == ReadAuthzs && MayRun(s, j) && AllValid(s.db, j.o) && TrialsOk(s.h.trials, s.h.plan)
    ensures MayRun(s, Job(WriteReady, j.c, j.a, j.o))
  {
  }

  lemma ReadStepKeeps(s: State, t: nat, ok: bool)
    requires Inv(s) && t in s.threads && s.threads[t].Job? && s.threads[t].phase == ReadAuthzs
    ensures Inv(StepJob(s, t, ok))
  {
    hide Inv, MayRun, Apart, Free;
    var j := s.threads[t];
    var next := Job(WriteReady, j.c, j.a, j.o);
    JobLeaves(s, t);
    if ok && AllValid(s.db, j.o) {
      ReadMayRun(End(s, t), j);
      ApartFromFree(End(s, t).threads, t, next);
      GotoKeeps(End(s, t), t, next);
      assert (s.threads - {t})[t := next] == s.threads[t := next];
    }
  }

  function Record(l: Ledger, a: AuthzId, o: nat): Ledger {
    l.(promoters := l.promoters + {a}, readyWrites := l.readyWrites + multiset{o})
  }

  lemma PromoteKeepsCounts(l: Ledger, orders: map<nat, Order>, a: AuthzId, o: nat, status: Status, certId: Option<nat>)
    requires ReadyCountOk(l) && ClaimCountOk(l, orders) && a !in l.promoters && a.order == o && o in orders
    ensures ReadyCountOk(Record(l, a, o))
    ensures ClaimCountOk(Record(l, a, o), orders[o := orders[o].(status := status, certId := certId)])
  {
    var l' := Record(l, a, o);
    forall p ensures l'.readyWrites[p] == |PromotersOf(l'.promoters, p)| {
      if p == o {
        assert PromotersOf(l'.promoters, o) == PromotersOf(l.promoters, o) + {a};
      } else {
        assert PromotersOf(l'.promoters, p) == PromotersOf(l.promoters, p);
      }
    }
  }

  lemma PromoteKeepsThreads(threads: Threads, tr: Trials, l: Ledger, a: AuthzId, o: nat)
    requires PromotersOk(threads, tr, l.promoters) && IssueCountOk(l, threads) && Free(threads, a) && a in tr.attempts
    ensures PromotersOk(threads, tr, Record(l, a, o).promoters) && IssueCountOk(Record(l, a, o), threads)
  {
  }

  lemma PromoteKeeps(s: State, a: AuthzId, o: nat, ok: bool)
    requires Inv(s) && Free(s.threads, a)
    requires a !in s.h.ledger.promoters && a in s.h.trials.attempts && a.order == o && OrderProved(s.db, o)
    ensures Inv(Promote(s, a, o, ok))
  {
    hide RowsOk, OrdersOk, CommittedOk, GcOk, CertificatesOk, TrialsOk, ShapesOk, DecisionsOk, PromotersOk, Free;
    if ok && o in s.db.orders {
      SetOrderKeepsRows(s.db, s.h.plan, o, Ready, None);
      SetOrderKeepsOrders(s.db, s.threads, o, Ready, None);
      SetOrderKeepsThreads(s, o, Ready, None);
      PromoteKeepsCounts(s.h.ledger, s.db.orders, a, o, Ready, None);
      PromoteKeepsThreads(s.threads, s.h.trials, s.h.ledger, a, o);
    }
  }

  lemma WriteReadyRuns(s: State, j: Thread)
    requires j.Job? && j.phase == WriteReady && MayRun(s, j)
    ensures j.a !in s.h.ledger.promoters && j.a in s.h.trials.attempts && j.a.order == j.o && OrderProved(s.db, j.o)
  {
  }

  lemma WriteReadyStepKeeps(s: State, t: nat, ok: bool)
    requires Inv(s) && t in s.threads && s.threads[t].Job? && s.threads[t].phase == WriteReady
    ensures Inv(StepJob(s, t, ok))
  {
    hide Inv, MayRun, Apart, Free, OrderProved;
    var j := s.threads[t];
    JobLeaves(s, t);
    WriteReadyRuns(End(s, t), j);
    PromoteKeeps(End(s, t), j.a, j.o, ok);
  }

  lemma JobStepKeeps(s: State, t: nat, ok: bool)
    requires Inv(s) && t in s.threads && s.threads[t].Job?
    ensures Inv(StepJob(s, t, ok))
  {
    hide Inv, StepJob;
    match s.threads[t].phase
    case Validating => VerdictStepKeeps(s, t, ok);
    case FailChallenge => ChallengeWriteStepKeeps(s, t, ok);
    case PassChallenge => ChallengeWriteStepKeeps(s, t, ok);
    case FailAuthz => AuthzWriteStepKeeps(s, t, ok);
    case PassAuthz => AuthzWriteStepKeeps(s, t, ok);
    case FailOrder => FailOrderStepKeeps(s, t, ok);
    case ReadAuthzs => ReadStepKeeps(s, t, ok);
    case WriteReady => WriteReadyStepKeeps(s, t, ok);
  }

  // ---------------------------------------------------------------- a finalize request

  lemma IssuingOne(threads: Threads, t: nat, o: nat)
    requires t in threads && threads[t] == FinIssue(o)
    ensures |IssuingFor(threads, o)| == |IssuingFor(threads - {t}, o)| + 1
  {
    assert IssuingFor(threads, o) == IssuingFor(threads - {t}, o) + {t};
  }

  lemma IssuingMore(threads: Threads, t: nat, o: nat, p: nat)
    requires t !in threads
    ensures |IssuingFor(threads[t := FinIssue(o)], p)| == |IssuingFor(threads, p)| + (if p == o then 1 else 0)
  {
    assert IssuingFor(threads[t := FinIssue(o)], p) == IssuingFor(threads, p) + (if p == o then {t} else {});
  }

  lemma StartIssuing(l: Ledger, threads: Threads, t: nat, o: nat)
    requires IssueCountOk(l, threads) && t !in threads
    ensures IssueCountOk(l.(orderClaims := l.orderClaims + multiset{o}), threads[t := FinIssue(o)])
  {
    forall p ensures |IssuingFor(threads[t := FinIssue(o)], p)| == |IssuingFor(threads, p)| + (if p == o then 1 else 0) {
      IssuingMore(threads, t, o, p);
    }
    hide IssuingFor;
  }

  lemma FinalizerRuns(s: State, t: nat)
    requires CommittedOk(s.threads, s.db) && KnownOk(s.threads, s.h.plan)
    requires CertificatesOk(s.threads, s.db.orders, s.h.certificates, s.nextCert)
    requires t in s.threads && IsFinalize(s.threads[t]) && !s.threads[t].FinLookup? && !s.threads[t].FinClaim?
    ensures OrderProved(s.db, s.threads[t].o) && s.threads[t].o in s.h.plan && WriteOk(s.threads[t], s.h.certificates)
  {
  }

  function ClaimedOrder(s: State, o: nat): State {
    s.(db := SetOrderStatus(s.db, o, Processing, if o in s.db.orders then s.db.orders[o].certId else None),
       h := s.h.(ledger := s.h.ledger.(orderClaims := s.h.ledger.orderClaims + multiset{o})))
  }

  lemma ClaimOrderKeepsCount(l: Ledger, db: Tables, o: nat, now: int, certId: Option<nat>)
    requires ClaimCountOk(l, db.orders) && OrderClaimable(db, o, now)
    ensures ClaimCountOk(l.(orderClaims := l.orderClaims + multiset{o}), SetOrderStatus(db, o, Processing, certId).orders)
  {
  }

  lemma GotoIssueKeepsThreads(threads: Threads, t: nat, o: nat, tr: Trials, decisions: multiset<AuthzId>, promoters: set<AuthzId>)
    requires VerdictsOk(threads, tr) && UndecidedOk(threads, decisions) && PromotersOk(threads, tr, promoters)
    requires ShapesOk(threads)
    ensures VerdictsOk(threads[t := FinIssue(o)], tr) && UndecidedOk(threads[t := FinIssue(o)], decisions)
    ensures PromotersOk(threads[t := FinIssue(o)], tr, promoters) && ShapesOk(threads[t := FinIssue(o)])
  {
  }

  lemma ClaimableOrder(db: Tables, plan: map<nat, Order>, o: nat, now: int)
    requires OrdersOk(db) && RowsOk(db, plan) && OrderClaimable(db, o, now)
    ensures OrderProved(db, o) && o in plan
  {
  }

  lemma ClaimedOrderMayIssue(s: State, o: nat)
    requires o in s.h.plan && OrderProved(s.db, o)
    ensures MayRun(ClaimedOrder(s, o), FinIssue(o))
  {
    var db' := ClaimedOrder(s, o).db;
    assert AllValid(db', o) <==> AllValid(s.db, o);
  }

  lemma ClaimOrderStepKeeps(s: State, t: nat, ok: bool)
    requires Inv(s) && t in s.threads && s.threads[t].FinClaim?
    ensures Inv(StepFinalize(s, t, ok))
  {
    hide RowsOk, OrdersOk, CommittedOk, GcOk, CertificatesOk, TrialsOk, ShapesOk, DecisionsOk, PromotersOk, MayRun;
    hide VerdictsOk, UndecidedOk, CleanOk, IssueCountOk, ClaimCountOk, KnownOk, AttemptsOk, OrderProved;
    var o := s.threads[t].o;
    EndKeeps(s, t);
    if ok && OrderClaimable(s.db, o, s.now) {
      var s0 := End(s, t);
      var certId := s.db.orders[o].certId;
      var s1 := ClaimedOrder(s0, o);
      ClaimableOrder(s.db, s.h.plan, o, s.now);
      ClaimedOrderMayIssue(s0, o);
      SetOrderKeepsRows(s.db, s.h.plan, o, Processing, certId);
      SetOrderKeepsOrders(s.db, s0.threads, o, Processing, certId);
      SetOrderKeepsThreads(s0, o, Processing, certId);
      ClaimOrderKeepsCount(s.h.ledger, s.db, o, s.now, certId);
      StartIssuing(s.h.ledger, s0.threads, t, o);
      GotoIssueKeepsThreads(s0.threads, t, o, s.h.trials, s.h.decisions, s.h.ledger.promoters);
      GotoKeepsTables(s1, t, FinIssue(o));
      assert (s.threads - {t})[t := FinIssue(o)] == s.threads[t := FinIssue(o)];
      assert StepFinalize(s, t, ok) == Goto(s1, t, FinIssue(o));
    }
  }

  lemma FinalizeMayRun(s: State, thread: Thread)
    requires thread.FinClaim? || thread.FinFetch? || thread.FinStore? || thread.FinWrite?
    requires Committed(thread) ==> OrderProved(s.db, thread.o) && thread.o in s.h.plan
    requires WriteOk(thread, s.h.certificates)
    ensures MayRun(s, thread) && forall t :: Apart(s.threads, t, thread)
  {
  }

  lemma IssueKeeps(s: State, t: nat)
    requires Inv(s) && t in s.threads && s.threads[t].FinIssue?
    ensures var o := s.threads[t].o;
            Inv(End(s, t).(h := s.h.(ledger := s.h.ledger.(issuances := s.h.ledger.issuances + multiset{o}))))
  {
    hide RowsOk, OrdersOk, CommittedOk, GcOk, CertificatesOk, TrialsOk, ShapesOk, DecisionsOk, PromotersOk;
    hide VerdictsOk, UndecidedOk, CleanOk, KnownOk, AttemptsOk;
    EndKeeps(s, t);
    IssuingOne(s.threads, t, s.threads[t].o);
  }

  lemma IssueStepKeeps(s: State, t: nat, ok: bool)
    requires Inv(s) && t in s.threads && s.threads[t].FinIssue?
    ensures Inv(StepFinalize(s, t, ok))
  {
    hide RowsOk, OrdersOk, CommittedOk, GcOk, CertificatesOk, TrialsOk, ShapesOk, DecisionsOk, PromotersOk, MayRun;
    hide VerdictsOk, UndecidedOk, CleanOk, KnownOk, AttemptsOk, OrderProved, Apart;
    var o := s.threads[t].o;
    var next := if ok then FinFetch(o) else FinWrite(o, Invalid, None);
    var s1 := End(s, t).(h := s.h.(ledger := s.h.ledger.(issuances := s.h.ledger.issuances + multiset{o})));
    FinalizerRuns(s, t);
    IssueKeeps(s, t);
    FinalizeMayRun(s1, next);
    GotoKeeps(s1, t, next);
    assert (s.threads - {t})[t := next] == s.threads[t := next];
    assert StepFinalize(s, t, ok) == Goto(s1, t, next);
  }

  lemma FetchStepKeeps(s: State, t: nat, ok: bool)
    requires Inv(s) && t in s.threads && s.threads[t].FinFetch?
    ensures Inv(StepFinalize(s, t, ok))
  {
    hide RowsOk, OrdersOk, CommittedOk, GcOk, CertificatesOk, TrialsOk, ShapesOk, DecisionsOk, PromotersOk, MayRun;
    hide VerdictsOk, UndecidedOk, CleanOk, KnownOk, AttemptsOk, OrderProved, Apart, IssueCountOk;
    var o := s.threads[t].o;
    var next := if ok then FinStore(o) else FinWrite(o, Invalid, None);
    FinalizerRuns(s, t);
    EndKeeps(s, t);
    FinalizeMayRun(s, next);
    GotoKeeps(s, t, next);
  }

  function StoredCert(s: State, o: nat): State {
    s.(nextCert := s.nextCert + 1, h := s.h.(certificates := s.h.certificates[s.nextCert := o]))
  }

  lemma StoreKeepsCertificates(threads: Threads, orders: map<nat, Order>, certificates: map<nat, nat>, nextCert: nat, o: nat)
    requires CertificatesOk(threads, orders, certificates, nextCert)
    ensures CertificatesOk(threads, orders, certificates[nextCert := o], nextCert + 1)
  {
  }

  lemma StoreStepKeeps(s: State, t: nat, ok: bool)
    requires Inv(s) && t in s.threads && s.threads[t].FinStore?
    ensures Inv(StepFinalize(s, t, ok))
  {
    hide RowsOk, OrdersOk, CommittedOk, GcOk, CertificatesOk, TrialsOk, ShapesOk, DecisionsOk, PromotersOk, MayRun;
    hide VerdictsOk, UndecidedOk, CleanOk, KnownOk, AttemptsOk, OrderProved, Apart, IssueCountOk;
    var o := s.threads[t].o;
    EndKeeps(s, t);
    if ok {
      var next := FinWrite(o, Valid, Some(s.nextCert));
      var s1 := StoredCert(s, o);
      FinalizerRuns(s, t);
      StoreKeepsCertificates(s.threads, s.db.orders, s.h.certificates, s.nextCert, o);
      FinalizeMayRun(s1, next);
      GotoKeeps(s1, t, next);
      assert StepFinalize(s, t, ok) == Goto(s1, t, next);
    }
  }

  lemma FinalizeStepKeeps(s: State, t: nat, ok: bool)
    requires Inv(s) && t in s.threads
    requires IsFinalize(s.threads[t])
    ensures Inv(StepFinalize(s, t, ok))
  {
    match s.threads[t]
    case FinClaim(_) => ClaimOrderStepKeeps(s, t, ok);
    case FinIssue(_) => IssueStepKeeps(s, t, ok);
    case FinFetch(_) => FetchStepKeeps(s, t, ok);
    case FinStore(_) => StoreStepKeeps(s, t, ok);
    case FinLookup(_, _) => FinLookupStepKeeps(s, t, ok);
    case FinWrite(_, _, _) => FinWriteStepKeeps(s, t, ok);
  }

  lemma FinLookupStepKeeps(s: State, t: nat, ok: bool)
    requires Inv(s) && t in s.threads && s.threads[t].FinLookup?
    ensures Inv(StepFinalize(s, t, ok))
  {
    hide Inv, MayRun, Apart;
    var o := s.threads[t].o;
    EndKeeps(s, t);
    FinalizeMayRun(s, FinClaim(o));
    GotoKeeps(s, t, FinClaim(o));
  }

  lemma FinWriteStepKeeps(s: State, t: nat, ok: bool)
    requires Inv(s) && t in s.threads && s.threads[t].FinWrite?
    ensures Inv(StepFinalize(s, t, ok))
  {
    hide RowsOk, OrdersOk, CommittedOk, GcOk, CertificatesOk, TrialsOk, ShapesOk, DecisionsOk, PromotersOk;
    hide VerdictsOk, UndecidedOk, CleanOk, KnownOk, AttemptsOk, OrderProved, IssueCountOk;
    var FinWrite(o, status, certId) := s.threads[t];
    FinalizerRuns(s, t);
    WriteOrderKeeps(s, o, status, certId, ok);
    EndKeeps(WriteOrder(s, o, status, certId, ok), t);
  }

  // ---------------------------------------------------------------- garbage collection

  lemma OrdersDeletedKeeps(s: State, cutoff: int)
    requires Inv(s)
    ensures Inv(s.(db := DeleteExpiredOrders(s.db, cutoff)))
  {
    hide TrialsOk, ShapesOk, DecisionsOk, PromotersOk, VerdictsOk, UndecidedOk, CleanOk, KnownOk, AttemptsOk;
    hide RowsOk, IssueCountOk, OrdersOk, CommittedOk, GcOk, CertificatesOk;
    OrdersDeletedKeepsRows(s.db, s.h.plan, cutoff);
    OrdersDeletedKeepsOrders(s.db, s.threads, cutoff);
    OrdersDeletedKeepsThreads(s, cutoff);
  }

  lemma OrdersDeletedKeepsRows(db: Tables, plan: map<nat, Order>, cutoff: int)
    requires RowsOk(db, plan)
    ensures RowsOk(DeleteExpiredOrders(db, cutoff), plan)
  {
  }

  lemma OrdersDeletedKeepsOrders(db: Tables, threads: Threads, cutoff: int)
    requires OrdersOk(db) && CommittedOk(threads, db)
    ensures OrdersOk(DeleteExpiredOrders(db, cutoff)) && CommittedOk(threads, DeleteExpiredOrders(db, cutoff))
  {
    forall o ensures AllValid(db, o) <==> AllValid(DeleteExpiredOrders(db, cutoff), o) {}
  }

  lemma OrdersDeletedKeepsThreads(s: State, cutoff: int)
    requires GcOk(s.threads, s.db.orders, s.now) && CleanOk(s.h.clean, s.threads, s.db, s.h.trials)
    requires CertificatesOk(s.threads, s.db.orders, s.h.certificates, s.nextCert)
    ensures var db := DeleteExpiredOrders(s.db, cutoff);
            && GcOk(s.threads, db.orders, s.now) && CleanOk(s.h.clean, s.threads, db, s.h.trials)
            && CertificatesOk(s.threads, db.orders, s.h.certificates, s.nextCert)
  {
  }

  lemma AuthzsDeletedKeepsRows(db: Tables, plan: map<nat, Order>, cutoff: int)
    requires RowsOk(db, plan) && forall o :: o in db.orders ==> db.orders[o].expires >= cutoff
    ensures RowsOk(DeleteExpiredAuthzs(db, cutoff), plan)
  {
  }

  lemma AuthzsDeletedKeepsOrders(db: Tables, threads: Threads, cutoff: int)
    requires OrdersOk(db) && CommittedOk(threads, db)
    ensures OrdersOk(DeleteExpiredAuthzs(db, cutoff)) && CommittedOk(threads, DeleteExpiredAuthzs(db, cutoff))
  {
    forall o | AllValid(db, o) ensures AllValid(DeleteExpiredAuthzs(db, cutoff), o) {}
  }

  lemma AuthzsDeletedKeepsRecords(s: State, cutoff: int)
    requires DecisionsOk(s.db.authzs, s.h.trials, s.h.decisions) && CleanOk(s.h.clean, s.threads, s.db, s.h.trials)
    ensures var db := DeleteExpiredAuthzs(s.db, cutoff);
            DecisionsOk(db.authzs, s.h.trials, s.h.decisions) && CleanOk(s.h.clean, s.threads, db, s.h.trials)
  {
  }

  lemma AuthzsDeletedKeeps(s: State, cutoff: int)
    requires Inv(s) && forall o :: o in s.db.orders ==> s.db.orders[o].expires >= cutoff
    ensures Inv(s.(db := DeleteExpiredAuthzs(s.db, cutoff)))
  {
    hide TrialsOk, ShapesOk, DecisionsOk, PromotersOk, VerdictsOk, UndecidedOk, CleanOk, KnownOk, AttemptsOk;
    hide RowsOk, IssueCountOk, OrdersOk, CommittedOk, GcOk, CertificatesOk;
    AuthzsDeletedKeepsRows(s.db, s.h.plan, cutoff);
    AuthzsDeletedKeepsOrders(s.db, s.threads, cutoff);
    AuthzsDeletedKeepsRecords(s, cutoff);
  }

  lemma OrphansDeletedKeepsRows(s: State)
    requires RowsOk(s.db, s.h.plan) && AttemptsOk(s.db.challenges, s.h.trials)
    requires CleanOk(s.h.clean, s.threads, s.db, s.h.trials)
    ensures var db := DeleteOrphanChallenges(s.db);
            && RowsOk(db, s.h.plan) && AttemptsOk(db.challenges, s.h.trials)
            && CleanOk(s.h.clean, s.threads, db, s.h.trials)
  {
  }

  lemma OrphansDeletedKeepsOrders(db: Tables, threads: Threads)
    requires OrdersOk(db) && CommittedOk(threads, db)
    ensures OrdersOk(DeleteOrphanChallenges(db)) && CommittedOk(threads, DeleteOrphanChallenges(db))
  {
    forall o ensures AllValid(db, o) <==> AllValid(DeleteOrphanChallenges(db), o) {}
  }

  lemma OrphansDeletedKeeps(s: State)
    requires Inv(s)
    ensures Inv(s.(db := DeleteOrphanChallenges(s.db)))
  {
    hide TrialsOk, ShapesOk, DecisionsOk, PromotersOk, VerdictsOk, UndecidedOk, CleanOk, KnownOk, AttemptsOk;
    hide RowsOk, IssueCountOk, OrdersOk, CommittedOk, GcOk, CertificatesOk;
    OrphansDeletedKeepsRows(s);
    OrphansDeletedKeepsOrders(s.db, s.threads);
  }

  lemma CollectorMayRun(s: State, thread: Thread)
    requires thread.GcOrders? || thread.GcAuthzs? || thread.GcChallenges?
    requires CollectorOk(thread, s.db.orders, s.now)
    ensures MayRun(s, thread) && forall t :: Apart(s.threads, t, thread)
  {
  }

  lemma CollectorRuns(threads: Threads, orders: map<nat, Order>, now: int, t: nat)
    requires GcOk(threads, orders, now) && t in threads
    ensures CollectorOk(threads[t], orders, now)
  {
  }

  lemma GcStepKeeps(s: State, t: nat, ok: bool)
    requires Inv(s) && t in s.threads
    requires s.threads[t].GcOrders? || s.threads[t].GcAuthzs? || s.threads[t].GcChallenges?
    ensures Inv(StepGc(s, t, ok))
  {
    hide TrialsOk, ShapesOk, DecisionsOk, PromotersOk, VerdictsOk, UndecidedOk, CleanOk, KnownOk, AttemptsOk;
    hide RowsOk, IssueCountOk, OrdersOk, CommittedOk, GcOk, CertificatesOk, MayRun, Apart;
    EndKeeps(s, t);
    CollectorRuns(s.threads, s.db.orders, s.now, t);
    if ok {
      match s.threads[t]
      case GcOrders(cutoff) =>
        var s1 := s.(db := DeleteExpiredOrders(s.db, cutoff));
        OrdersDeletedKeeps(s, cutoff);
        CollectorMayRun(s1, GcAuthzs(cutoff));
        GotoKeeps(s1, t, GcAuthzs(cutoff));
      case GcAuthzs(cutoff) =>
        var s1 := s.(db := DeleteExpiredAuthzs(s.db, cutoff));
        AuthzsDeletedKeeps(s, cutoff);
        CollectorMayRun(s1, GcChallenges);
        GotoKeeps(s1, t, GcChallenges);
      case GcChallenges =>
        OrphansDeletedKeeps(End(s, t));
    }
  }

  // ---------------------------------------------------------------- new orders and new requests

  lemma InsertKeepsAuthzRows(db: Tables, plan: map<nat, Order>, o: nat, order: Order)
    requires AuthzRowsOk(db.authzs, plan) && OrderRowsOk(db.orders, plan) && o !in plan
    ensures AuthzRowsOk(InsertOrder(db, o, order).authzs, plan[o := order])
    ensures OrderRowsOk(InsertOrder(db, o, order).orders, plan[o := order])
  {
    hide AuthzIds, ChallengeIds;
  }

  lemma InsertKeepsChallengeRows(db: Tables, plan: map<nat, Order>, o: nat, order: Order)
    requires ChallengeRowsOk(db.challenges, plan) && o !in plan
    ensures ChallengeRowsOk(InsertOrder(db, o, order).challenges, plan[o := order])
  {
    hide AuthzIds, ChallengeIds;
  }

  lemma InsertKeepsChildren(db: Tables, plan: map<nat, Order>, o: nat, order: Order)
    requires ChildrenOk(db, plan) && AuthzRowsOk(db.authzs, plan) && o !in plan
    ensures ChildrenOk(InsertOrder(db, o, order), plan[o := order])
  {
    hide AuthzIds, ChallengeIds;
  }

  lemma InsertKeepsRows(db: Tables, plan: map<nat, Order>, o: nat, order: Order)
    requires RowsOk(db, plan) && o !in plan
    ensures RowsOk(InsertOrder(db, o, order), plan[o := order])
  {
    hide AuthzRowsOk, ChallengeRowsOk, OrderRowsOk, ChildrenOk, InsertOrder;
    InsertKeepsAuthzRows(db, plan, o, order);
    InsertKeepsChallengeRows(db, plan, o, order);
    InsertKeepsChildren(db, plan, o, order);
  }

  lemma InsertKeepsTrials(tr: Trials, plan: map<nat, Order>, o: nat, order: Order)
    requires TrialsOk(tr, plan) && o !in plan
    ensures TrialsOk(tr, plan[o := order])
  {
  }

  lemma InsertKeepsAttempts(db: Tables, plan: map<nat, Order>, tr: Trials, o: nat, order: Order)
    requires AttemptsOk(db.challenges, tr) && TrialsOk(tr, plan) && o !in plan
    ensures AttemptsOk(InsertOrder(db, o, order).challenges, tr)
  {
  }

  /** Nothing has happened yet to an authorization that is about to be inserted. */
  lemma NewIsUntouched(plan: map<nat, Order>, tr: Trials, decisions: multiset<AuthzId>, authzs: map<AuthzId, Authz>, o: nat)
    requires DecisionsOk(authzs, tr, decisions) && TrialsOk(tr, plan) && o !in plan
    ensures forall a: AuthzId :: a.order == o ==> a !in tr.attempts && decisions[a] == 0
  {
  }

  lemma InsertKeepsDecisions(authzs: map<AuthzId, Authz>, tr: Trials, decisions: multiset<AuthzId>, o: nat, order: Order, n: nat)
    requires DecisionsOk(authzs, tr, decisions) && n <= |order.identifiers|
    requires forall a: AuthzId :: a.order == o ==> a !in tr.attempts && decisions[a] == 0
    ensures DecisionsOk(authzs + map a | a in AuthzIds(o, n) :: AuthzRow(o, order, a.index), tr, decisions)
  {
    hide AuthzIds, ChallengeIds;
  }

  lemma InsertKeepsOthers(db: Tables, plan: map<nat, Order>, o: nat, order: Order, p: nat)
    requires AuthzRowsOk(db.authzs, plan) && o !in plan && p != o
    ensures AllValid(db, p) <==> AllValid(InsertOrder(db, o, order), p)
  {
  }

  lemma InsertKeepsOrders(db: Tables, threads: Threads, plan: map<nat, Order>, o: nat, order: Order)
    requires OrdersOk(db) && CommittedOk(threads, db) && KnownOk(threads, plan) && RowsOk(db, plan)
    requires o !in plan && order.status == Pending
    ensures OrdersOk(InsertOrder(db, o, order)) && CommittedOk(threads, InsertOrder(db, o, order))
    ensures KnownOk(threads, plan[o := order])
  {
    forall p | p != o ensures AllValid(db, p) <==> AllValid(InsertOrder(db, o, order), p) {
      InsertKeepsOthers(db, plan, o, order, p);
    }
    hide AllValid;
  }

  lemma InsertKeepsThreads(s: State, o: nat, order: Order)
    requires GcOk(s.threads, s.db.orders, s.now)
    requires CertificatesOk(s.threads, s.db.orders, s.h.certificates, s.nextCert)
    requires ClaimCountOk(s.h.ledger, s.db.orders)
    requires order.status == Pending && order.expires == s.now + ORDER_TTL
    ensures var orders := s.db.orders[o := order];
            && GcOk(s.threads, orders, s.now) && CertificatesOk(s.threads, orders, s.h.certificates, s.nextCert)
            && ClaimCountOk(s.h.ledger, orders)
  {
  }

  lemma InsertKeepsClean(clean: bool, threads: Threads, db: Tables, tr: Trials, plan: map<nat, Order>, o: nat, order: Order)
    requires CleanOk(clean, threads, db, tr) && TrialsOk(tr, plan) && VerdictsOk(threads, tr) && o !in plan
    ensures CleanOk(clean, threads, InsertOrder(db, o, order), tr)
  {
    hide AuthzIds, ChallengeIds;
  }

  lemma CreateKeeps(s: State, account: nat, names: seq<string>)
    requires Inv(s) && NoDuplicates(names) && |names| > 0
    ensures Inv(CreateOrder(s, account, names))
  {
    hide TrialsOk, ShapesOk, DecisionsOk, PromotersOk, VerdictsOk, UndecidedOk, CleanOk, KnownOk, AttemptsOk;
    hide RowsOk, IssueCountOk, OrdersOk, CommittedOk, GcOk, CertificatesOk, ClaimCountOk;
    var o, order := s.nextOrder, NewOrderRow(s, account, names);
    InsertKeepsRows(s.db, s.h.plan, o, order);
    InsertKeepsTrials(s.h.trials, s.h.plan, o, order);
    InsertKeepsAttempts(s.db, s.h.plan, s.h.trials, o, order);
    NewIsUntouched(s.h.plan, s.h.trials, s.h.decisions, s.db.authzs, o);
    InsertKeepsDecisions(s.db.authzs, s.h.trials, s.h.decisions, o, order, |names|);
    InsertKeepsOrders(s.db, s.threads, s.h.plan, o, order);
    InsertKeepsThreads(s, o, order);
    InsertKeepsClean(s.h.clean, s.threads, s.db, s.h.trials, s.h.plan, o, order);
  }

  lemma TickKeeps(s: State, seconds: nat)
    requires Inv(s)
    ensures Inv(s.(now := s.now + seconds))
  {
  }

  lemma StartMayRun(s: State, thread: Thread)
    requires MayStart(s, thread)
    ensures MayRun(s, thread) && forall t :: Apart(s.threads, t, thread)
  {
  }

  lemma StartKeeps(s: State, t: nat, thread: Thread)
    requires Inv(s) && t !in s.threads && MayStart(s, thread)
    ensures Inv(Goto(s, t, thread))
  {
    hide Inv, MayRun, Apart;
    StartMayRun(s, thread);
    GotoKeeps(s, t, thread);
  }

  // ---------------------------------------------------------------- every step, every run

  lemma ThreadStepKeeps(s: State, t: nat, ok: bool)
    requires Inv(s) && t in s.threads
    ensures Inv(StepThread(s, t, ok))
  {
    hide Inv;
    match s.threads[t]
    case Lookup(_, _) => LookupKeeps(s, t, ok);
    case LookupAuthz(_, _, _) => LookupKeeps(s, t, ok);
    case Claiming(_, _, _) => ClaimStepKeeps(s, t, ok);
    case Job(_, _, _, _) => JobStepKeeps(s, t, ok);
    case GcOrders(_) => GcStepKeeps(s, t, ok);
    case GcAuthzs(_) => GcStepKeeps(s, t, ok);
    case GcChallenges => GcStepKeeps(s, t, ok);
    case _ => FinalizeStepKeeps(s, t, ok);
  }

  lemma NextKeeps(s: State, e: Event)
    requires Inv(s)
    ensures Inv(Next(s, e))
  {
    if Enabled(s, e) {
      match e
      case Tick(seconds) => TickKeeps(s, seconds);
      case NewOrder(account, names) => CreateKeeps(s, account, names);
      case Start(t, thread) => StartKeeps(s, t, thread);
      case Step(t, ok) => ThreadStepKeeps(s, t, ok);
      case Drop(t) => EndKeeps(s, t);
    }
  }

  lemma {:induction false} RunKeeps(s: State, es: seq<Event>)
    requires Inv(s)
    ensures Inv(Run(s, es))
    decreases |es|
  {
    if es == [] {
    } else {
      NextKeeps(s, es[0]);
      RunKeeps(Next(s, es[0]), es[1..]);
    }
  }

  lemma InitOk(now: int)
    ensures Inv(Init(now))
  {
    assert forall o :: PromotersOf({}, o) == {} && IssuingFor(map[], o) == {};
  }
}
