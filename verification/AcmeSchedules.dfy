/**
 How often one order can be sent to the CA. In every run the bound is the number of its
 identifiers, and that bound is reached: the read of the authorizations and the
 write of "ready" are two statements, so two requests can both write it, one of
 them after a finalize. With a single identifier, or with the promotion run as
 one step, an order is sent at most once and follows its status machine.
 */
module AcmeSchedules {
  import opened Strings
  import opened AcmeTables
  import opened AcmeProtocol
  import opened AcmeInvariant
  import opened AcmeSafety
  import opened AcmeStatus

  lemma {:induction false} RunAppend(s: State, es: seq<Event>, e: Event)
    ensures Run(s, es + [e]) == Next(Run(s, es), e)
    decreases |es|
  {
    hide Next;
    if es == [] {
      assert ([] + [e])[1..] == [];
      assert Run(Next(s, e), []) == Next(s, e);
    } else {
      assert (es + [e])[1..] == es[1..] + [e];
      RunAppend(Next(s, es[0]), es[1..], e);
    }
  }

  lemma ReachableNext(s: State, e: Event)
    requires Reachable(s)
    ensures Reachable(Next(s, e))
  {
    hide Next, Run;
    var now: int, es: seq<Event> :| s == Run(Init(now), es);
    RunAppend(Init(now), es, e);
    assert Next(s, e) == Run(Init(now), es + [e]);
  }

  // ---------------------------------------------------------------- promotions run as one step

  /** A scheduler's choice: one statement of someone, or the whole promotion of a validated request. */
  datatype Turn = One(e: Event) | Finish(t: nat, ok1: bool, ok2: bool, ok3: bool)

  predicate Promoting(s: State, t: nat) {
    t in s.threads && s.threads[t].Job?
    && (s.threads[t].phase == PassAuthz || s.threads[t].phase == ReadAuthzs || s.threads[t].phase == WriteReady)
  }

  function Promotion(s: State, t: nat, ok1: bool, ok2: bool, ok3: bool): State {
    Next(Next(Next(s, Step(t, ok1)), Step(t, ok2)), Step(t, ok3))
  }

  function NextTurn(s: State, turn: Turn): State {
    match turn
    case One(e) => if e.Step? && Promoting(s, e.tid) then s else Next(s, e)
    case Finish(t, ok1, ok2, ok3) => if Promoting(s, t) then Promotion(s, t, ok1, ok2, ok3) else s
  }

  function RunTurns(s: State, turns: seq<Turn>): State
    decreases |turns|
  {
    if turns == [] then s else RunTurns(NextTurn(s, turns[0]), turns[1..])
  }

  /** Between turns nobody is inside a promotion, and a promoted order is decided for good. */
  ghost predicate Calm(s: State) {
    && (forall t :: t in s.threads && s.threads[t].Job? ==>
          s.threads[t].phase != ReadAuthzs && s.threads[t].phase != WriteReady)
    && (forall o :: s.h.ledger.readyWrites[o] <= 1)
    && (forall a: AuthzId :: s.h.ledger.readyWrites[a.order] > 0 && Planned(s.h.plan, a) ==> s.h.decisions[a] > 0)
  }

  /** Steps outside a promotion make nothing ready and take back no decision. */
  lemma StepCalm(s: State, t: nat, ok: bool)
    requires t in s.threads && Calm(s) && !Promoting(s, t)
    ensures Calm(StepThread(s, t, ok))
  {
    var s' := StepThread(s, t, ok);
    QuietStep(s, t, ok);
    hide StepThread;
  }

  lemma QuietStep(s: State, t: nat, ok: bool)
    requires t in s.threads && !Promoting(s, t)
    ensures var s' := StepThread(s, t, ok);
            && s'.h.ledger.readyWrites == s.h.ledger.readyWrites && s'.h.plan == s.h.plan
            && (forall a :: s.h.decisions[a] <= s'.h.decisions[a])
            && (s'.threads == s.threads - {t} || (s'.threads == s.threads[t := s'.threads[t]]
                  && !(s'.threads[t].Job? && (s'.threads[t].phase == ReadAuthzs || s'.threads[t].phase == WriteReady))))
  {
    if s.threads[t].Job? { QuietJob(s, t, ok); } else { QuietOther(s, t, ok); }
    hide StepJob, StepChallenge, StepGc, StepFinalize;
  }

  lemma QuietJob(s: State, t: nat, ok: bool)
    requires t in s.threads && s.threads[t].Job? && !Promoting(s, t)
    ensures var s' := StepJob(s, t, ok);
            && s'.h.ledger.readyWrites == s.h.ledger.readyWrites && s'.h.plan == s.h.plan
            && (forall a :: s.h.decisions[a] <= s'.h.decisions[a])
            && (s'.threads == s.threads - {t} || (s'.threads == s.threads[t := s'.threads[t]]
                  && s'.threads[t].Job? && s'.threads[t].phase != ReadAuthzs && s'.threads[t].phase != WriteReady))
  {
    hide StepJob;
    JobThreads(s, t, ok);
    if WritesOrder(s.threads[t]) { QuietFailure(s, t, ok); } else { JobSparesOrders(s, t, ok); QuietDecisions(s, t, ok); }
  }

  lemma QuietFailure(s: State, t: nat, ok: bool)
    requires t in s.threads && s.threads[t].Job? && s.threads[t].phase == FailOrder
    ensures var s' := StepJob(s, t, ok);
            s'.h.ledger == s.h.ledger && s'.h.plan == s.h.plan && s'.h.decisions == s.h.decisions
  {
    hide SetOrderStatus;
  }

  lemma QuietDecisions(s: State, t: nat, ok: bool)
    requires t in s.threads && s.threads[t].Job?
    ensures forall a :: s.h.decisions[a] <= StepJob(s, t, ok).h.decisions[a]
  {
    hide AllValid, SetOrderStatus, SetChallengeStatus, SetAuthzStatus;
  }

  lemma QuietOther(s: State, t: nat, ok: bool)
    requires t in s.threads && !s.threads[t].Job?
    ensures var s' := StepThread(s, t, ok);
            && s'.h.ledger.readyWrites == s.h.ledger.readyWrites && s'.h.plan == s.h.plan
            && s.h.decisions == s'.h.decisions
            && (s'.threads == s.threads - {t} || (s'.threads == s.threads[t := s'.threads[t]]
                  && (s'.threads[t].Job? ==> s'.threads[t].phase == Validating)))
  {
    hide StepChallenge, StepGc, StepFinalize, StepJob;
    match s.threads[t]
    case Lookup(_, _) => QuietChallenge(s, t, ok);
    case LookupAuthz(_, _, _) => QuietChallenge(s, t, ok);
    case Claiming(_, _, _) => QuietChallenge(s, t, ok);
    case GcOrders(_) => QuietGc(s, t, ok);
    case GcAuthzs(_) => QuietGc(s, t, ok);
    case GcChallenges => QuietGc(s, t, ok);
    case _ => QuietFinalize(s, t, ok);
  }

  lemma QuietChallenge(s: State, t: nat, ok: bool)
    requires t in s.threads && (s.threads[t].Lookup? || s.threads[t].LookupAuthz? || s.threads[t].Claiming?)
    ensures var s' := StepChallenge(s, t, ok);
            && s'.h.ledger == s.h.ledger && s'.h.plan == s.h.plan && s.h.decisions == s'.h.decisions
            && (s'.threads == s.threads - {t} || (s'.threads == s.threads[t := s'.threads[t]]
                  && (s'.threads[t].Job? ==> s'.threads[t].phase == Validating)))
  {
    hide Claimable;
  }

  lemma QuietGc(s: State, t: nat, ok: bool)
    requires t in s.threads && (s.threads[t].GcOrders? || s.threads[t].GcAuthzs? || s.threads[t].GcChallenges?)
    ensures var s' := StepGc(s, t, ok);
            && s'.h == s.h && (s'.threads == s.threads - {t} || (s'.threads == s.threads[t := s'.threads[t]] && !s'.threads[t].Job?))
  {
  }

  lemma QuietFinalize(s: State, t: nat, ok: bool)
    requires t in s.threads && IsFinalize(s.threads[t])
    ensures var s' := StepFinalize(s, t, ok);
            && s'.h.ledger.readyWrites == s.h.ledger.readyWrites && s'.h.plan == s.h.plan && s.h.decisions == s'.h.decisions
            && (s'.threads == s.threads - {t} || (s'.threads == s.threads[t := s'.threads[t]] && !s'.threads[t].Job?))
  {
    hide OrderClaimable;
  }

  lemma CreateCalm(s: State, account: nat, names: seq<string>)
    requires Calm(s) && s.h.ledger.readyWrites[s.nextOrder] == 0
    ensures Calm(CreateOrder(s, account, names))
  {
    hide InsertOrder;
  }

  lemma IdleCalm(s: State, s': State)
    requires Calm(s) && s'.h == s.h
    requires forall t :: t in s'.threads && s'.threads[t].Job? ==> t in s.threads && s'.threads[t] == s.threads[t]
    ensures Calm(s')
  {
  }

  lemma OneCalm(s: State, e: Event)
    requires Inv(s) && Calm(s) && !(e.Step? && Promoting(s, e.tid))
    ensures Calm(Next(s, e))
  {
    hide Inv, Calm, StepThread;
    if Enabled(s, e) {
      match e
      case Step(t, ok) => StepCalm(s, t, ok);
      case NewOrder(account, names) => NewIsUncounted(s); CreateCalm(s, account, names);
      case Tick(_) => IdleCalm(s, Next(s, e));
      case Start(_, _) => IdleCalm(s, Next(s, e));
      case Drop(_) => IdleCalm(s, Next(s, e));
    }
  }

  lemma NewIsUncounted(s: State)
    requires Inv(s)
    ensures s.h.ledger.readyWrites[s.nextOrder] == 0
  {
    hide RowsOk, CleanOk, OrdersOk, CommittedOk, KnownOk, ShapesOk, GcOk, DecisionsOk, UndecidedOk, VerdictsOk,
         AttemptsOk;
    PromotersAreOfOrder(s.h, s.nextOrder, 0);
    AuthzIdsCount(s.nextOrder, 0);
    SubsetIsSmaller(PromotersOf(s.h.ledger.promoters, s.nextOrder), AuthzIds(s.nextOrder, 0));
  }

  /** A promotion finds its order not yet ready, since it is about to decide one of its authorizations. */
  lemma PromotionIsFirst(s: State, t: nat)
    requires Inv(s) && Calm(s) && Promoting(s, t)
    ensures s.threads[t].phase == PassAuthz && s.h.ledger.readyWrites[s.threads[t].o] == 0
    ensures s.h.decisions[s.threads[t].a] == 0 && Planned(s.h.plan, s.threads[t].a) && s.threads[t].a.order == s.threads[t].o
  {
    hide RowsOk, CleanOk, OrdersOk, CommittedOk, KnownOk, GcOk, DecisionsOk, AttemptsOk;
    assert StillUndecided(s.threads[t], s.h.decisions) && JobTried(s.threads[t], s.h.trials) && ShapeOk(s.threads[t]);
  }

  /** The three statements of a promotion, seen as one. */
  lemma PromotionSteps(s: State, t: nat, ok1: bool, ok2: bool, ok3: bool)
    requires Promoting(s, t) && s.threads[t].phase == PassAuthz
    ensures var j, s1 := s.threads[t], WriteAuthz(s, s.threads[t].a, Valid, ok1);
            var s2 := End(s1, t);
            Promotion(s, t, ok1, ok2, ok3) == if ok2 && AllValid(s1.db, j.o) then Promote(s2, j.a, j.o, ok3) else s2
  {
    var Job(_, c, a, o) := s.threads[t];
    var s1 := WriteAuthz(s, a, Valid, ok1);
    var n1 := Next(s, Step(t, ok1));
    assert n1 == Goto(s1, t, Job(ReadAuthzs, c, a, o));
    var n2 := Next(n1, Step(t, ok2));
    if ok2 && AllValid(s1.db, o) {
      assert n2 == Goto(n1, t, Job(WriteReady, c, a, o));
      assert Next(n2, Step(t, ok3)) == End(Promote(n2, a, o, ok3), t);
      assert n2.threads - {t} == End(s1, t).threads;
    } else {
      assert n2 == End(n1, t);
      assert n1.threads - {t} == End(s1, t).threads;
      assert Next(n2, Step(t, ok3)) == n2;
    }
  }

  lemma FinishCalm(s: State, t: nat, ok1: bool, ok2: bool, ok3: bool)
    requires Inv(s) && Inv(Next(s, Step(t, ok1))) && Calm(s) && Promoting(s, t)
    ensures Calm(Promotion(s, t, ok1, ok2, ok3))
  {
    hide Inv, Calm, Promotion;
    PromotionIsFirst(s, t);
    PromotionSteps(s, t, ok1, ok2, ok3);
    var o, a := s.threads[t].o, s.threads[t].a;
    var n1 := Next(s, Step(t, ok1));
    assert n1.db == WriteAuthz(s, a, Valid, ok1).db && n1.h == WriteAuthz(s, a, Valid, ok1).h;
    if o in n1.db.orders && AllValid(n1.db, o) { AllDecided(n1, o); }
    FinishedCalm(s, t, Promotion(s, t, ok1, ok2, ok3), o, n1.h.decisions);
  }

  lemma FinishedCalm(s: State, t: nat, s': State, o: nat, decisions: multiset<AuthzId>)
    requires Calm(s) && s'.threads == s.threads - {t} && s'.h.plan == s.h.plan && s'.h.decisions == decisions
    requires forall a :: s.h.decisions[a] <= decisions[a]
    requires s.h.ledger.readyWrites[o] == 0
    requires s'.h.ledger.readyWrites == s.h.ledger.readyWrites
          || (s'.h.ledger.readyWrites == s.h.ledger.readyWrites + multiset{o}
              && forall a: AuthzId :: a.order == o && Planned(s.h.plan, a) ==> decisions[a] > 0)
    ensures Calm(s')
  {
  }

  lemma AllDecided(s: State, o: nat)
    requires Inv(s) && o in s.db.orders && AllValid(s.db, o)
    ensures forall a: AuthzId :: a.order == o && Planned(s.h.plan, a) ==> s.h.decisions[a] > 0
  {
    AllDecidedRows(s.db, s.h.plan, s.h.trials, s.h.decisions, o);
    hide Inv;
  }

  lemma AllDecidedRows(db: Tables, plan: map<nat, Order>, tr: Trials, decisions: multiset<AuthzId>, o: nat)
    requires RowsOk(db, plan) && DecisionsOk(db.authzs, tr, decisions) && o in db.orders && AllValid(db, o)
    ensures forall a: AuthzId :: a.order == o && Planned(plan, a) ==> decisions[a] > 0
  {
    forall a: AuthzId | a.order == o && Planned(plan, a) ensures decisions[a] > 0 {
      assert a in db.authzs && db.authzs[a].order == o;
    }
  }

  lemma TurnKeeps(s: State, turn: Turn)
    requires Reachable(s) && Calm(s)
    ensures Reachable(NextTurn(s, turn)) && Calm(NextTurn(s, turn))
  {
    hide Inv, Reachable, Calm, Next;
    ReachableOk(s);
    match turn
    case One(e) =>
      if !(e.Step? && Promoting(s, e.tid)) {
        ReachableNext(s, e);
        OneCalm(s, e);
      }
    case Finish(t, ok1, ok2, ok3) =>
      if Promoting(s, t) {
        var n1 := Next(s, Step(t, ok1));
        ReachableNext(s, Step(t, ok1));
        ReachableOk(n1);
        ReachableNext(n1, Step(t, ok2));
        ReachableNext(Next(n1, Step(t, ok2)), Step(t, ok3));
        FinishCalm(s, t, ok1, ok2, ok3);
      }
  }

  lemma {:induction false} TurnsKeep(s: State, turns: seq<Turn>)
    requires Reachable(s) && Calm(s)
    ensures Reachable(RunTurns(s, turns)) && Calm(RunTurns(s, turns))
    decreases |turns|
  {
    hide Reachable, Calm, NextTurn;
    if turns != [] {
      TurnKeeps(s, turns[0]);
      TurnsKeep(NextTurn(s, turns[0]), turns[1..]);
    }
  }

  lemma InitReachable(now: int)
    ensures Reachable(Init(now)) && Calm(Init(now))
  {
    assert Init(now) == Run(Init(now), []);
  }

  /** With promotions run as one step, every order is made ready, claimed and sent to the CA at most once. */
  lemma UninterruptedIssuesOnce(now: int, turns: seq<Turn>, o: nat)
    ensures var s := RunTurns(Init(now), turns);
            s.h.ledger.issuances[o] <= s.h.ledger.orderClaims[o] <= s.h.ledger.readyWrites[o] <= 1
  {
    InitReachable(now);
    TurnsKeep(Init(now), turns);
    IssuancesBounded(RunTurns(Init(now), turns), o);
    hide Reachable, RunTurns;
  }

  /** An order for one identifier follows its status machine in every run. */
  lemma SingleIdentifierFollowsItsMachine(s: State, e: Event, o: nat)
    requires Reachable(s) && o in s.db.orders && o in Next(s, e).db.orders
    requires |s.db.orders[o].identifiers| == 1
    ensures OrderMoves(s.db.orders[o].status, Next(s, e).db.orders[o].status)
  {
    ReachableNext(s, e);
    ReachableOk(s);
    ReachableOk(Next(s, e));
    PlanStays(s, e, o);
    IssuancesBounded(Next(s, e), o);
    OrderFollowsItsMachine(s, e, o);
    hide Inv, Next, Reachable;
  }

  lemma PlanStays(s: State, e: Event, o: nat)
    requires Inv(s) && o in s.db.orders
    ensures o in s.h.plan && o in Next(s, e).h.plan
    ensures Next(s, e).h.plan[o].identifiers == s.db.orders[o].identifiers
  {
    if Enabled(s, e) && e.Step? { StepFrame(s, e.tid, e.ok); }
    hide StepThread, GcOk, CleanOk, CertificatesOk, CommittedOk, VerdictsOk, ShapesOk, AttemptsOk, TrialsOk,
         DecisionsOk;
    hide UndecidedOk, PromotersOk, OrdersOk, KnownOk, IssueCountOk, ClaimCountOk, ReadyCountOk;
  }
}
