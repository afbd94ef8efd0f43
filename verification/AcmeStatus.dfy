/**
 The status machines of section 7.1.6 of RFC 8555. Challenges and authorizations
 follow theirs in every run. An order follows its own as long as it is made
 ready at most once; AcmeSchedules and AcmeBound say when that is, and the last
 section says which two statements take it off its machine otherwise.
 */
module AcmeStatus {
  import opened AcmeTables
  import opened AcmeProtocol
  import opened AcmeInvariant
  import opened AcmeSteps
  import opened AcmeSafety

  predicate ChallengeMoves(from: Status, to: Status) {
    from == to || (from == Pending && to == Processing) || (from == Processing && (to == Valid || to == Invalid))
  }

  predicate AuthzMoves(from: Status, to: Status) {
    from == to || (from == Pending && (to == Valid || to == Invalid))
  }

  predicate OrderMoves(from: Status, to: Status) {
    || from == to
    || (from == Pending && (to == Ready || to == Invalid))
    || (from == Ready && (to == Processing || to == Invalid))
    || (from == Processing && (to == Valid || to == Invalid))
  }

  // ---------------------------------------------------------------- the two extra invariants

  predicate BeforeChallengeWrite(p: Phase) {
    p == Validating || p == PassChallenge || p == FailChallenge
  }

  /** Until the request writes it, a claimed challenge is processing. */
  predicate InFlight(thread: Thread, challenges: map<ChallengeId, Challenge>) {
    thread.Job? && BeforeChallengeWrite(thread.phase) ==> ChallengeHas(challenges, thread.c, Processing)
  }

  ghost predicate InFlightOk(threads: Threads, challenges: map<ChallengeId, Challenge>) {
    forall t :: t in threads ==> InFlight(threads[t], challenges)
  }

  predicate Finalizes(thread: Thread, o: nat) {
    (thread.FinIssue? || thread.FinFetch? || thread.FinStore? || thread.FinWrite?) && thread.o == o
  }

  /** Some challenge of the order has failed. */
  predicate HasRefuted(tr: Trials, o: nat) {
    exists c :: c in tr.refuted && c.authz.order == o
  }

  /** What is true of order `o` while it has been made ready at most once. */
  ghost predicate Orderly(s: State, o: nat) {
    && (forall t, u :: t in s.threads && u in s.threads && Finalizes(s.threads[t], o) && Finalizes(s.threads[u], o) ==> t == u)
    && (forall t :: t in s.threads && Finalizes(s.threads[t], o) ==>
          s.h.ledger.orderClaims[o] == 1 && (o in s.db.orders ==> s.db.orders[o].status == Processing))
    && (s.h.ledger.readyWrites[o] == 0 && o in s.db.orders ==>
          s.db.orders[o].status == Pending
          || (s.db.orders[o].status == Invalid && HasRefuted(s.h.trials, o)))
  }

  ghost predicate StatusInv(s: State) {
    && InFlightOk(s.threads, s.db.challenges)
    && forall o :: s.h.ledger.readyWrites[o] <= 1 ==> Orderly(s, o)
  }

  // ---------------------------------------------------------------- challenges

  ghost predicate ChallengesMove(s: State, s': State) {
    && InFlightOk(s'.threads, s'.db.challenges)
    && forall c :: c in s.db.challenges && c in s'.db.challenges ==>
         ChallengeMoves(s.db.challenges[c].status, s'.db.challenges[c].status)
  }

  predicate WritesChallengeRow(thread: Thread) {
    thread.Job? && (thread.phase == PassChallenge || thread.phase == FailChallenge)
  }

  /** The part of a claimed request's step that concerns challenges. */
  predicate JobTouches(s: State, t: nat, s': State)
    requires t in s.threads && s.threads[t].Job?
  {
    var Job(phase, c, a, o) := s.threads[t];
    && (s'.threads == s.threads - {t}
        || exists p: Phase :: s'.threads == s.threads[t := Job(p, c, a, o)]
                              && (BeforeChallengeWrite(p) ==> phase == Validating))
    && (s'.db.challenges == s.db.challenges
        || (WritesChallengeRow(s.threads[t]) && c in s.db.challenges
            && exists st: Status :: (st == Valid || st == Invalid)
                            && s'.db.challenges == s.db.challenges[c := s.db.challenges[c].(status := st)]))
    && (WritesChallengeRow(s.threads[t]) ==> t in s'.threads && s'.threads[t].Job? && !BeforeChallengeWrite(s'.threads[t].phase))
  }

  lemma JobTouchesFew(s: State, t: nat, ok: bool)
    requires t in s.threads && s.threads[t].Job?
    ensures JobTouches(s, t, StepJob(s, t, ok))
  {
    hide AllValid;
  }

  lemma InFlightStep(s: State, t: nat, ok: bool)
    requires t in s.threads && InFlightOk(s.threads, s.db.challenges) && ShapesOk(s.threads)
    requires s.threads[t].Job?
    ensures ChallengesMove(s, StepJob(s, t, ok))
  {
    JobTouchesFew(s, t, ok);
    hide StepJob;
  }

  lemma InFlightClaim(s: State, t: nat, ok: bool)
    requires t in s.threads && InFlightOk(s.threads, s.db.challenges) && ShapesOk(s.threads)
    requires s.threads[t].Lookup? || s.threads[t].LookupAuthz? || s.threads[t].Claiming?
    ensures InFlightOk(StepChallenge(s, t, ok).threads, StepChallenge(s, t, ok).db.challenges)
    ensures forall c :: c in s.db.challenges && c in StepChallenge(s, t, ok).db.challenges ==>
              ChallengeMoves(s.db.challenges[c].status, StepChallenge(s, t, ok).db.challenges[c].status)
  {
  }

  lemma InFlightGc(s: State, t: nat, ok: bool)
    requires t in s.threads && InFlightOk(s.threads, s.db.challenges)
    requires s.threads[t].GcOrders? || s.threads[t].GcAuthzs? || s.threads[t].GcChallenges?
    ensures InFlightOk(StepGc(s, t, ok).threads, StepGc(s, t, ok).db.challenges)
    ensures forall c :: c in s.db.challenges && c in StepGc(s, t, ok).db.challenges ==>
              s.db.challenges[c].status == StepGc(s, t, ok).db.challenges[c].status
  {
  }

  lemma InFlightFinalize(s: State, t: nat, ok: bool)
    requires t in s.threads && InFlightOk(s.threads, s.db.challenges)
    requires IsFinalize(s.threads[t])
    ensures InFlightOk(StepFinalize(s, t, ok).threads, StepFinalize(s, t, ok).db.challenges)
    ensures s.db.challenges == StepFinalize(s, t, ok).db.challenges
  {
  }

  lemma InFlightCreate(s: State, account: nat, names: seq<string>)
    requires InFlightOk(s.threads, s.db.challenges) && VerdictsOk(s.threads, s.h.trials)
    requires TrialsOk(s.h.trials, s.h.plan) && PlanOk(s.h.plan, s.nextOrder, s.now) && RowsOk(s.db, s.h.plan)
    ensures InFlightOk(s.threads, CreateOrder(s, account, names).db.challenges)
    ensures forall c :: c in s.db.challenges ==>
              c in CreateOrder(s, account, names).db.challenges
              && s.db.challenges[c] == CreateOrder(s, account, names).db.challenges[c]
  {
    hide AuthzIds, ChallengeIds;
    assert forall c :: c in s.db.challenges ==> c.authz.order != s.nextOrder;
  }

  lemma ChallengesStep(s: State, e: Event)
    requires Inv(s) && InFlightOk(s.threads, s.db.challenges)
    ensures ChallengesMove(s, Next(s, e))
  {
    hide RowsOk, CleanOk, OrdersOk, CommittedOk, KnownOk, GcOk, CertificatesOk, IssueCountOk, ReadyCountOk,
         ClaimCountOk;
    hide DecisionsOk, UndecidedOk, PromotersOk, VerdictsOk, ShapesOk, TrialsOk, AttemptsOk, InFlight;
    if Enabled(s, e) {
      match e
      case Tick(_) =>
      case NewOrder(account, names) => InFlightCreate(s, account, names);
      case Start(_, _) => assert InFlight(e.thread, s.db.challenges) by { IdleInFlight(e.thread, s.db.challenges); }
      case Drop(_) =>
      case Step(t, ok) =>
        hide StepJob, StepChallenge, StepGc, StepFinalize;
        match s.threads[t]
        case Lookup(_, _) => InFlightClaim(s, t, ok);
        case LookupAuthz(_, _, _) => InFlightClaim(s, t, ok);
        case Claiming(_, _, _) => InFlightClaim(s, t, ok);
        case Job(_, _, _, _) => InFlightStep(s, t, ok);
        case GcOrders(_) => InFlightGc(s, t, ok);
        case GcAuthzs(_) => InFlightGc(s, t, ok);
        case GcChallenges => InFlightGc(s, t, ok);
        case _ => InFlightFinalize(s, t, ok);
    }
  }

  lemma IdleInFlight(thread: Thread, challenges: map<ChallengeId, Challenge>)
    requires !thread.Job?
    ensures InFlight(thread, challenges)
  {
  }

  // ---------------------------------------------------------------- authorizations

  ghost predicate AuthzsMove(db: Tables, db': Tables) {
    forall a :: a in db.authzs && a in db'.authzs ==> AuthzMoves(db.authzs[a].status, db'.authzs[a].status)
  }

  lemma AuthzsUntouched(s: State, t: nat, ok: bool)
    requires t in s.threads && s.threads[t].Job? && !WritesAuthz(s.threads[t])
    ensures StepJob(s, t, ok).db.authzs == s.db.authzs
  {
  }

  lemma AuthzsStepJob(s: State, t: nat, ok: bool)
    requires t in s.threads && WritesAuthz(s.threads[t])
    requires UndecidedOk(s.threads, s.h.decisions) && DecisionsOk(s.db.authzs, s.h.trials, s.h.decisions)
    ensures AuthzsMove(s.db, StepJob(s, t, ok).db)
  {
  }

  lemma AuthzsStepOther(s: State, t: nat, ok: bool)
    requires t in s.threads && !s.threads[t].Job?
    ensures AuthzsMove(s.db, StepThread(s, t, ok).db)
  {
  }

  lemma AuthzsStepCreate(s: State, account: nat, names: seq<string>)
    requires PlanOk(s.h.plan, s.nextOrder, s.now) && AuthzRowsOk(s.db.authzs, s.h.plan)
    ensures AuthzsMove(s.db, CreateOrder(s, account, names).db)
  {
    hide AuthzIds, ChallengeIds;
  }

  lemma AuthzsStep(s: State, e: Event)
    requires Inv(s)
    ensures AuthzsMove(s.db, Next(s, e).db)
  {
    hide CleanOk, OrdersOk, CommittedOk, KnownOk, GcOk, CertificatesOk, IssueCountOk, ReadyCountOk, ClaimCountOk;
    hide DecisionsOk, UndecidedOk, PromotersOk, VerdictsOk, ShapesOk, TrialsOk, AttemptsOk, AuthzRowsOk, PlanOk;
    if Enabled(s, e) {
      match e
      case Tick(_) =>
      case NewOrder(account, names) => AuthzsStepCreate(s, account, names);
      case Start(_, _) =>
      case Drop(_) =>
      case Step(t, ok) =>
        if !s.threads[t].Job? { AuthzsStepOther(s, t, ok); }
        else if WritesAuthz(s.threads[t]) { AuthzsStepJob(s, t, ok); }
        else { AuthzsUntouched(s, t, ok); }
        hide StepJob, StepChallenge, StepGc, StepFinalize;
    }
  }

  // ---------------------------------------------------------------- orders

  ghost predicate OrderMovesTo(s: State, o: nat, s': State) {
    s'.h.ledger.readyWrites[o] <= 1 ==>
      && Orderly(s', o)
      && (o in s.db.orders && o in s'.db.orders ==> OrderMoves(s.db.orders[o].status, s'.db.orders[o].status))
  }

  /** A step that leaves the order's row, its counts and its finalizers alone. */
  predicate LeavesOrder(s: State, o: nat, s': State) {
    && s'.h.ledger.readyWrites[o] == s.h.ledger.readyWrites[o] && s'.h.ledger.orderClaims[o] == s.h.ledger.orderClaims[o]
    && (o in s'.db.orders ==> o in s.db.orders && s'.db.orders[o].status == s.db.orders[o].status)
    && (forall t :: t in s'.threads && Finalizes(s'.threads[t], o) ==> t in s.threads && Finalizes(s.threads[t], o))
    && s.h.trials.refuted <= s'.h.trials.refuted
  }

  lemma LeavesOrderMoves(s: State, o: nat, s': State)
    requires LeavesOrder(s, o, s') && (s.h.ledger.readyWrites[o] <= 1 ==> Orderly(s, o))
    ensures OrderMovesTo(s, o, s')
  {
  }

  lemma WriterLeavesOtherOrder(s: State, t: nat, ok: bool, o: nat)
    requires t in s.threads && WritesOrder(s.threads[t]) && s.threads[t].o != o
    ensures LeavesOrder(s, o, StepJob(s, t, ok))
  {
  }

  lemma JobLeavesOrder(s: State, t: nat, ok: bool, o: nat)
    requires t in s.threads && s.threads[t].Job? && !WritesOrder(s.threads[t])
    ensures LeavesOrder(s, o, StepJob(s, t, ok))
  {
    hide StepJob;
    JobSparesOrders(s, t, ok);
    JobKeepsVerdicts(s, t, ok);
    JobThreads(s, t, ok);
  }

  /** A failed challenge and a promoted order exclude each other. */
  lemma RefutedNotProved(s: State, o: nat)
    requires RowsOk(s.db, s.h.plan) && TrialsOk(s.h.trials, s.h.plan)
    requires DecisionsOk(s.db.authzs, s.h.trials, s.h.decisions)
    requires o in s.db.orders && HasRefuted(s.h.trials, o)
    ensures !OrderProved(s.db, o)
  {
    var c :| c in s.h.trials.refuted && c.authz.order == o;
    assert Attempted(s.h.trials, c) && Planned(s.h.plan, c.authz);
  }

  lemma FailOrderMoves(s: State, t: nat, ok: bool)
    requires t in s.threads && s.threads[t].Job? && s.threads[t].phase == FailOrder
    requires JobTried(s.threads[t], s.h.trials)
    requires CommittedOk(s.threads, s.db) && OrdersOk(s.db) && ShapeOk(s.threads[t])
    requires s.threads[t].o in s.db.orders && HasRefuted(s.h.trials, s.threads[t].o) ==> !OrderProved(s.db, s.threads[t].o)
    requires var o := s.threads[t].o; s.h.ledger.readyWrites[o] <= 1 ==> Orderly(s, o)
    ensures OrderMovesTo(s, s.threads[t].o, StepJob(s, t, ok))
  {
    assert HasRefuted(s.h.trials, s.threads[t].o);
  }

  lemma WriteReadyMoves(s: State, t: nat, ok: bool)
    requires t in s.threads && s.threads[t].Job? && s.threads[t].phase == WriteReady
    requires CommittedOk(s.threads, s.db)
    requires s.threads[t].o in s.db.orders && HasRefuted(s.h.trials, s.threads[t].o) ==> !OrderProved(s.db, s.threads[t].o)
    requires ClaimCountOk(s.h.ledger, s.db.orders)
    requires var o := s.threads[t].o; s.h.ledger.readyWrites[o] <= 1 ==> Orderly(s, o)
    ensures OrderMovesTo(s, s.threads[t].o, StepJob(s, t, ok))
  {
  }

  lemma JobMovesOrder(s: State, t: nat, ok: bool, o: nat)
    requires Inv(s) && StatusInv(s) && t in s.threads && s.threads[t].Job?
    ensures OrderMovesTo(s, o, StepJob(s, t, ok))
  {
    hide CleanOk, OrdersOk, CommittedOk, KnownOk, GcOk, CertificatesOk, IssueCountOk, ReadyCountOk, ClaimCountOk;
    hide DecisionsOk, UndecidedOk, PromotersOk, TrialsOk, AttemptsOk, PlanOk, RowsOk, Orderly, OrderMovesTo, InFlightOk;
    hide LeavesOrder;
    if s.threads[t].o == o && (s.threads[t].phase == FailOrder || s.threads[t].phase == WriteReady) {
      if o in s.db.orders && HasRefuted(s.h.trials, o) { RefutedNotProved(s, o); }
      if s.threads[t].phase == FailOrder { FailOrderMoves(s, t, ok); } else { WriteReadyMoves(s, t, ok); }
    } else {
      if WritesOrder(s.threads[t]) { WriterLeavesOtherOrder(s, t, ok, o); } else { JobLeavesOrder(s, t, ok, o); }
      LeavesOrderMoves(s, o, StepJob(s, t, ok));
    }
  }

  lemma FinClaimMoves(s: State, t: nat, ok: bool, o: nat)
    requires t in s.threads && s.threads[t].FinClaim? && ClaimCountOk(s.h.ledger, s.db.orders)
    requires s.h.ledger.readyWrites[o] <= 1 ==> Orderly(s, o)
    ensures OrderMovesTo(s, o, StepFinalize(s, t, ok))
  {
    var p := s.threads[t].o;
    assert ok && OrderClaimable(s.db, p, s.now) ==> s.h.ledger.orderClaims[p] + 1 <= s.h.ledger.readyWrites[p];
  }

  lemma FinWriteMoves(s: State, t: nat, ok: bool, o: nat)
    requires t in s.threads && s.threads[t].FinWrite? && WriteOk(s.threads[t], s.h.certificates)
    requires ClaimCountOk(s.h.ledger, s.db.orders)
    requires s.h.ledger.readyWrites[o] <= 1 ==> Orderly(s, o)
    ensures OrderMovesTo(s, o, StepFinalize(s, t, ok))
  {
  }

  lemma FinOtherMoves(s: State, t: nat, ok: bool, o: nat)
    requires t in s.threads && IsFinalize(s.threads[t]) && !s.threads[t].FinClaim? && !s.threads[t].FinWrite?
    requires s.h.ledger.readyWrites[o] <= 1 ==> Orderly(s, o)
    ensures OrderMovesTo(s, o, StepFinalize(s, t, ok))
  {
    LeavesOrderMoves(s, o, StepFinalize(s, t, ok));
  }

  lemma FinalizeMovesOrder(s: State, t: nat, ok: bool, o: nat)
    requires t in s.threads && IsFinalize(s.threads[t])
    requires ClaimCountOk(s.h.ledger, s.db.orders)
    requires CertificatesOk(s.threads, s.db.orders, s.h.certificates, s.nextCert)
    requires s.h.ledger.readyWrites[o] <= 1 ==> Orderly(s, o)
    ensures OrderMovesTo(s, o, StepFinalize(s, t, ok))
  {
    hide Orderly, OrderMovesTo, StepFinalize, ClaimCountOk;
    if s.threads[t].FinClaim? { FinClaimMoves(s, t, ok, o); }
    else if s.threads[t].FinWrite? { FinWriteMoves(s, t, ok, o); }
    else { FinOtherMoves(s, t, ok, o); }
  }

  lemma OthersLeaveOrder(s: State, t: nat, ok: bool, o: nat)
    requires t in s.threads
    requires s.threads[t].GcOrders? || s.threads[t].GcAuthzs? || s.threads[t].GcChallenges?
          || s.threads[t].Lookup? || s.threads[t].LookupAuthz? || s.threads[t].Claiming?
    ensures LeavesOrder(s, o, StepThread(s, t, ok))
  {
  }

  lemma CreateMovesOrder(s: State, account: nat, names: seq<string>, o: nat)
    requires PlanOk(s.h.plan, s.nextOrder, s.now) && RowsOk(s.db, s.h.plan) && KnownOk(s.threads, s.h.plan)
    requires s.h.ledger.readyWrites[o] <= 1 ==> Orderly(s, o)
    ensures OrderMovesTo(s, o, CreateOrder(s, account, names))
  {
    hide AuthzIds, ChallengeIds;
  }

  lemma OrderStep(s: State, e: Event, o: nat)
    requires Inv(s) && StatusInv(s)
    ensures OrderMovesTo(s, o, Next(s, e))
  {
    hide CleanOk, OrdersOk, CommittedOk, KnownOk, GcOk, CertificatesOk, IssueCountOk, ReadyCountOk, ClaimCountOk;
    hide DecisionsOk, UndecidedOk, PromotersOk, VerdictsOk, ShapesOk, TrialsOk, AttemptsOk, PlanOk, RowsOk;
    hide Orderly, OrderMovesTo, LeavesOrder;
    if Enabled(s, e) {
      match e
      case Tick(_) => IdleMoves(s, o, Next(s, e));
      case NewOrder(account, names) => CreateMovesOrder(s, account, names, o);
      case Start(_, _) => IdleMoves(s, o, Next(s, e));
      case Drop(_) => IdleMoves(s, o, Next(s, e));
      case Step(t, ok) =>
        hide StepJob, StepChallenge, StepGc, StepFinalize;
        match s.threads[t]
        case Job(_, _, _, _) => JobMovesOrder(s, t, ok, o);
        case Lookup(_, _) => OthersLeaveOrder(s, t, ok, o); LeavesOrderMoves(s, o, StepThread(s, t, ok));
        case LookupAuthz(_, _, _) => OthersLeaveOrder(s, t, ok, o); LeavesOrderMoves(s, o, StepThread(s, t, ok));
        case Claiming(_, _, _) => OthersLeaveOrder(s, t, ok, o); LeavesOrderMoves(s, o, StepThread(s, t, ok));
        case GcOrders(_) => OthersLeaveOrder(s, t, ok, o); LeavesOrderMoves(s, o, StepThread(s, t, ok));
        case GcAuthzs(_) => OthersLeaveOrder(s, t, ok, o); LeavesOrderMoves(s, o, StepThread(s, t, ok));
        case GcChallenges => OthersLeaveOrder(s, t, ok, o); LeavesOrderMoves(s, o, StepThread(s, t, ok));
        case _ => FinalizeMovesOrder(s, t, ok, o);
    } else {
      IdleMoves(s, o, s);
    }
  }

  /** The clock, a request that starts, and a request that is lost touch no order. */
  lemma IdleMoves(s: State, o: nat, s': State)
    requires s'.db == s.db && s'.h == s.h && (s.h.ledger.readyWrites[o] <= 1 ==> Orderly(s, o))
    requires forall t :: t in s'.threads && t !in s.threads ==> !Finalizes(s'.threads[t], o)
    requires forall t :: t in s'.threads && t in s.threads ==> s'.threads[t] == s.threads[t]
    ensures OrderMovesTo(s, o, s')
  {
    LeavesOrderMoves(s, o, s');
  }

  // ---------------------------------------------------------------- every run

  lemma OrdersStep(s: State, e: Event)
    requires Inv(s) && StatusInv(s)
    ensures forall o :: OrderMovesTo(s, o, Next(s, e))
  {
    hide Inv, StatusInv, OrderMovesTo, Next;
    forall o ensures OrderMovesTo(s, o, Next(s, e)) {
      OrderStep(s, e, o);
    }
  }

  lemma StatusKeeps(s: State, e: Event)
    requires Inv(s) && StatusInv(s)
    ensures StatusInv(Next(s, e))
  {
    hide Inv, Orderly, Next;
    ChallengesStep(s, e);
    OrdersStep(s, e);
    forall o | Next(s, e).h.ledger.readyWrites[o] <= 1 ensures Orderly(Next(s, e), o) {
      assert OrderMovesTo(s, o, Next(s, e));
    }
  }

  lemma {:induction false} StatusRun(s: State, es: seq<Event>)
    requires Inv(s) && StatusInv(s)
    ensures Inv(Run(s, es)) && StatusInv(Run(s, es))
    decreases |es|
  {
    hide Inv, StatusInv;
    if es != [] {
      StatusKeeps(s, es[0]);
      NextKeeps(s, es[0]);
      StatusRun(Next(s, es[0]), es[1..]);
    }
  }

  lemma ReachableStatus(s: State)
    requires Reachable(s)
    ensures Inv(s) && StatusInv(s)
  {
    var now: int, es: seq<Event> :| s == Run(Init(now), es);
    InitOk(now);
    StatusRun(Init(now), es);
  }

  /**
   In every run, challenges move pending, processing, valid or invalid, and
   authorizations pending, valid or invalid; neither ever moves back.
   */
  lemma ChallengesAndAuthzsFollowTheirMachines(s: State, e: Event)
    requires Reachable(s)
    ensures forall c :: c in s.db.challenges && c in Next(s, e).db.challenges ==>
              ChallengeMoves(s.db.challenges[c].status, Next(s, e).db.challenges[c].status)
    ensures forall a :: a in s.db.authzs && a in Next(s, e).db.authzs ==>
              AuthzMoves(s.db.authzs[a].status, Next(s, e).db.authzs[a].status)
  {
    ReachableStatus(s);
    ChallengesStep(s, e);
    AuthzsStep(s, e);
    hide Inv, Next;
  }

  /** An order made ready at most once so far has followed its machine, this step included. */
  lemma OrderFollowsItsMachine(s: State, e: Event, o: nat)
    requires Reachable(s) && o in s.db.orders && o in Next(s, e).db.orders
    requires Next(s, e).h.ledger.readyWrites[o] <= 1
    ensures OrderMoves(s.db.orders[o].status, Next(s, e).db.orders[o].status)
  {
    ReachableStatus(s);
    OrderStep(s, e, o);
    hide Inv, Next;
  }
  // ---------------------------------------------------------------- off the machine

  /** "ready" written to an order past it, "valid" to one neither processing nor valid, or "invalid" to a valid one. */
  predicate Overwrites(s: State, e: Event, o: nat) {
    && e.Step? && e.ok && e.tid in s.threads && o in s.db.orders
    && var thread, row := s.threads[e.tid], s.db.orders[o].status;
       || (thread.Job? && thread.phase == WriteReady && thread.o == o && (row == Processing || row == Valid || row == Invalid))
       || (thread.FinWrite? && thread.o == o
           && (if thread.status == Valid then row != Processing && row != Valid else row == Valid))
  }

  ghost predicate MovesAsWritten(s: State, e: Event, o: nat, s': State) {
    o in s.db.orders && o in s'.db.orders ==>
      (OrderMoves(s.db.orders[o].status, s'.db.orders[o].status) <==> !Overwrites(s, e, o))
  }

  /** A failed challenge's write finds its order pending or invalid. */
  lemma FailureMovesAsWritten(s: State, t: nat, ok: bool, o: nat)
    requires Inv(s) && t in s.threads && s.threads[t].Job? && s.threads[t].phase == FailOrder
    ensures MovesAsWritten(s, Step(t, ok), o, StepJob(s, t, ok))
  {
    hide CleanOk, KnownOk, GcOk, CertificatesOk, IssueCountOk, ReadyCountOk, ClaimCountOk, UndecidedOk, PromotersOk,
         AttemptsOk, PlanOk, RowsOk, DecisionsOk, TrialsOk, CommittedOk;
    assert JobTried(s.threads[t], s.h.trials) && ShapeOk(s.threads[t]);
    var p := s.threads[t].o;
    assert HasRefuted(s.h.trials, p);
    if p in s.db.orders { RefutedNotProved(s, p); }
  }

  lemma ReadyMovesAsWritten(s: State, t: nat, ok: bool, o: nat)
    requires t in s.threads && s.threads[t].Job? && s.threads[t].phase != FailOrder
    ensures MovesAsWritten(s, Step(t, ok), o, StepJob(s, t, ok))
  {
    hide StepJob;
    if WritesOrder(s.threads[t]) { PromotionWrites(s, t, ok, o); } else { JobSparesOrders(s, t, ok); }
  }

  lemma PromotionWrites(s: State, t: nat, ok: bool, o: nat)
    requires t in s.threads && s.threads[t].Job? && s.threads[t].phase == WriteReady
    ensures MovesAsWritten(s, Step(t, ok), o, StepJob(s, t, ok))
  {
  }

  lemma FinalizeMovesAsWritten(s: State, t: nat, ok: bool, o: nat)
    requires t in s.threads && IsFinalize(s.threads[t]) && WriteOk(s.threads[t], s.h.certificates)
    ensures MovesAsWritten(s, Step(t, ok), o, StepFinalize(s, t, ok))
  {
  }

  lemma OthersMoveAsWritten(s: State, e: Event, o: nat, s': State)
    requires o in s.db.orders && o in s'.db.orders ==> s'.db.orders[o].status == s.db.orders[o].status
    requires e.Step? && e.tid in s.threads ==> !s.threads[e.tid].Job? && !s.threads[e.tid].FinWrite?
    ensures MovesAsWritten(s, e, o, s')
  {
  }

  lemma CreateSparesOrders(s: State, account: nat, names: seq<string>, o: nat)
    requires Inv(s) && o in s.db.orders
    ensures o in CreateOrder(s, account, names).db.orders
    ensures CreateOrder(s, account, names).db.orders[o] == s.db.orders[o]
  {
    hide AuthzIds, ChallengeIds, CleanOk, OrdersOk, CommittedOk, KnownOk, GcOk, CertificatesOk, IssueCountOk, ReadyCountOk,
         ClaimCountOk, DecisionsOk, UndecidedOk, PromotersOk, VerdictsOk, ShapesOk, TrialsOk, AttemptsOk;
  }

  /**
   No step takes an order off its machine but a write of "ready", when the order is
   processing, valid or invalid, and that of a finalize's outcome, when "valid"
   finds it neither processing nor valid, or "invalid" finds it valid. The failure write of a challenge
   request never does.
   */
  lemma LeavesItsMachineExactlyWhen(s: State, e: Event, o: nat)
    requires Reachable(s) && o in s.db.orders && o in Next(s, e).db.orders
    ensures !OrderMoves(s.db.orders[o].status, Next(s, e).db.orders[o].status) <==> Overwrites(s, e, o)
  {
    hide Reachable, Inv, Overwrites, OrderMoves;
    ReachableOk(s);
    if Enabled(s, e) {
      match e
      case Tick(_) => OthersMoveAsWritten(s, e, o, Next(s, e));
      case NewOrder(account, names) => CreateSparesOrders(s, account, names, o); OthersMoveAsWritten(s, e, o, Next(s, e));
      case Start(_, _) => OthersMoveAsWritten(s, e, o, Next(s, e));
      case Drop(_) => OthersMoveAsWritten(s, e, o, Next(s, e));
      case Step(t, ok) => hide Next; StepMovesAsWritten(s, t, ok, o);
    } else {
      OffMeansNothing(s, e, o);
    }
  }

  lemma OffMeansNothing(s: State, e: Event, o: nat)
    requires !Enabled(s, e) && o in s.db.orders
    ensures MovesAsWritten(s, e, o, Next(s, e))
  {
  }

  lemma FinalizerWrites(s: State, t: nat)
    requires Inv(s) && t in s.threads
    ensures WriteOk(s.threads[t], s.h.certificates)
  {
    hide RowsOk, CleanOk, OrdersOk, CommittedOk, KnownOk, GcOk, PlanOk, IssueCountOk, ReadyCountOk, ClaimCountOk,
         DecisionsOk, UndecidedOk, PromotersOk, VerdictsOk, ShapesOk, TrialsOk, AttemptsOk;
  }

  lemma StepMovesAsWritten(s: State, t: nat, ok: bool, o: nat)
    requires Inv(s) && t in s.threads
    ensures MovesAsWritten(s, Step(t, ok), o, Next(s, Step(t, ok)))
  {
    hide Inv, StepJob, StepChallenge, StepGc, StepFinalize, MovesAsWritten;
    match s.threads[t]
    case Job(phase, _, _, _) =>
      if phase == FailOrder { FailureMovesAsWritten(s, t, ok, o); } else { ReadyMovesAsWritten(s, t, ok, o); }
    case Lookup(_, _) => OthersLeaveOrder(s, t, ok, o); OthersMoveAsWritten(s, Step(t, ok), o, StepThread(s, t, ok));
    case LookupAuthz(_, _, _) => OthersLeaveOrder(s, t, ok, o); OthersMoveAsWritten(s, Step(t, ok), o, StepThread(s, t, ok));
    case Claiming(_, _, _) => OthersLeaveOrder(s, t, ok, o); OthersMoveAsWritten(s, Step(t, ok), o, StepThread(s, t, ok));
    case GcOrders(_) => OthersLeaveOrder(s, t, ok, o); OthersMoveAsWritten(s, Step(t, ok), o, StepThread(s, t, ok));
    case GcAuthzs(_) => OthersLeaveOrder(s, t, ok, o); OthersMoveAsWritten(s, Step(t, ok), o, StepThread(s, t, ok));
    case GcChallenges => OthersLeaveOrder(s, t, ok, o); OthersMoveAsWritten(s, Step(t, ok), o, StepThread(s, t, ok));
    case _ => FinalizerWrites(s, t); FinalizeMovesAsWritten(s, t, ok, o);
  }
}
