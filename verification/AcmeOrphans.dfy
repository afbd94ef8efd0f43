/**
 What a newOrder that fails between two of its inserts leaves behind. The inserts
 are not one transaction, so some of its rows may stay; their ids are random and
 were never sent, so no request names them. The machine with such rows in its tables
 is the machine without them beside rows that nothing but a collection touches.
 */
module AcmeOrphans {
  import opened Strings
  import opened AcmeTables
  import opened AcmeProtocol
  import opened AcmeInvariant
  import opened AcmeSafety
  import opened AcmeSchedules

  /** `lost` are the orders of failed requests; an order's number is its random id here. */
  datatype Full = Full(s: State, lost: set<nat>)

  datatype Action =
    | Do(e: Event)
    | FailOrder(o: nat, account: nat, names: seq<string>, rows: Tables)

  /** The order a request names. */
  function Named(thread: Thread): Option<nat> {
    match thread
    case Lookup(_, c) => Some(c.authz.order)
    case LookupAuthz(_, c, _) => Some(c.authz.order)
    case Claiming(_, _, o) => Some(o)
    case Job(_, _, _, o) => Some(o)
    case FinLookup(_, o) => Some(o)
    case FinClaim(o) => Some(o)
    case FinIssue(o) => Some(o)
    case FinFetch(o) => Some(o)
    case FinStore(o) => Some(o)
    case FinWrite(o, _, _) => Some(o)
    case GcOrders(_) => None
    case GcAuthzs(_) => None
    case GcChallenges => None
  }

  predicate Knows(thread: Thread, lost: set<nat>) {
    Named(thread).Some? ==> Named(thread).value !in lost
  }

  /**
   Lost ids come up neither in a request nor as a new order, and a failing request's
   id is named by nobody. Its inserts may come all at once or one by one.
   */
  ghost predicate MayAct(f: Full, a: Action) {
    match a
    case Do(Start(_, thread)) => Knows(thread, f.lost)
    case Do(NewOrder(_, _)) => f.s.nextOrder !in f.lost
    case Do(_) => true
    case FailOrder(o, account, names, rows) =>
      && PartOf(rows, o, NewOrderRow(f.s, account, names))
      && o !in f.s.h.plan && forall t :: t in f.s.threads ==> Knows(f.s.threads[t], {o})
  }

  ghost function Act(f: Full, a: Action): Full {
    if !MayAct(f, a) then f else
    match a
    case Do(e) => f.(s := Next(f.s, e))
    case FailOrder(o, _, _, rows) => Full(f.s.(db := Merge(f.s.db, rows)), f.lost + {o})
  }

  ghost predicate ReachedIn(f: Full, steps: nat)
    decreases steps
  {
    if steps == 0 then f == Full(Init(f.s.now), {}) else
    exists before: Full, a: Action :: ReachedIn(before, steps - 1) && f == Act(before, a)
  }

  ghost predicate Reached(f: Full) {
    exists steps: nat :: ReachedIn(f, steps)
  }

  // ---------------------------------------------------------------- rows side by side

  /** Rows of lost orders, as they were inserted. */
  ghost predicate Untouched(extra: Tables, lost: set<nat>) {
    && (forall o :: o in extra.orders ==> o in lost && extra.orders[o].status == Pending && extra.orders[o].certId == None)
    && (forall a :: a in extra.authzs ==> a.order in lost && extra.authzs[a].order == a.order && extra.authzs[a].status == Pending)
    && (forall c :: c in extra.challenges ==>
          c.authz.order in lost && extra.challenges[c].authz == c.authz && extra.challenges[c].status == Pending)
  }

  /** The rows of orders that are not lost. */
  ghost predicate Ours(db: Tables, lost: set<nat>) {
    && (forall o :: o in db.orders ==> o !in lost)
    && (forall a :: a in db.authzs ==> a.order !in lost && db.authzs[a].order == a.order)
    && (forall c :: c in db.challenges ==> c.authz.order !in lost && db.challenges[c].authz == c.authz)
  }

  function Beside(s: State, extra: Tables): State {
    s.(db := Merge(s.db, extra))
  }

  lemma OursByPlan(s: State, lost: set<nat>)
    requires RowsOk(s.db, s.h.plan) && forall o :: o in s.h.plan ==> o !in lost
    ensures Ours(s.db, lost)
  {
  }

  lemma SetOrderBeside(db: Tables, extra: Tables, o: nat, status: Status, certId: Option<nat>)
    requires o !in extra.orders
    ensures SetOrderStatus(Merge(db, extra), o, status, certId) == Merge(SetOrderStatus(db, o, status, certId), extra)
  {
  }

  lemma SetAuthzBeside(db: Tables, extra: Tables, a: AuthzId, status: Status)
    requires a !in extra.authzs
    ensures SetAuthzStatus(Merge(db, extra), a, status) == Merge(SetAuthzStatus(db, a, status), extra)
  {
  }

  lemma SetChallengeBeside(db: Tables, extra: Tables, c: ChallengeId, status: Status)
    requires c !in extra.challenges
    ensures SetChallengeStatus(Merge(db, extra), c, status) == Merge(SetChallengeStatus(db, c, status), extra)
  {
  }

  lemma ReadsBeside(db: Tables, extra: Tables, lost: set<nat>, o: nat)
    requires Ours(db, lost) && Untouched(extra, lost) && o !in lost
    ensures AllValid(Merge(db, extra), o) <==> AllValid(db, o)
    ensures o !in extra.orders && (o in db.orders ==> Merge(db, extra).orders[o] == db.orders[o])
    ensures forall a: AuthzId :: a.order == o ==>
              a !in extra.authzs && (a in db.authzs ==> Merge(db, extra).authzs[a] == db.authzs[a])
    ensures forall c: ChallengeId :: c.authz.order == o ==>
              c !in extra.challenges && (c in db.challenges ==> Merge(db, extra).challenges[c] == db.challenges[c])
  {
    var both := Merge(db, extra);
    assert forall a :: a in db.authzs ==> a in both.authzs && both.authzs[a] == db.authzs[a];
  }

  lemma ClaimableBeside(db: Tables, extra: Tables, lost: set<nat>, c: ChallengeId, a: AuthzId)
    requires Ours(db, lost) && Untouched(extra, lost) && c.authz == a && a.order !in lost
    ensures Claimable(Merge(db, extra), c, a) <==> Claimable(db, c, a)
  {
    var both := Merge(db, extra);
    assert forall d :: d in db.challenges ==> d in both.challenges && both.challenges[d] == db.challenges[d];
  }

  lemma Disjoint(db: Tables, extra: Tables, lost: set<nat>)
    requires Ours(db, lost) && Untouched(extra, lost)
    ensures db.orders.Keys !! extra.orders.Keys && db.authzs.Keys !! extra.authzs.Keys
    ensures db.challenges.Keys !! extra.challenges.Keys
  {
  }

  function KeepOrders(m: map<nat, Order>, cutoff: int): map<nat, Order> {
    map o | o in m && m[o].expires >= cutoff :: m[o]
  }

  function KeepAuthzs(m: map<AuthzId, Authz>, cutoff: int): map<AuthzId, Authz> {
    map a | a in m && m[a].expires >= cutoff :: m[a]
  }

  function KeepChallenges(m: map<ChallengeId, Challenge>, kept: set<AuthzId>): map<ChallengeId, Challenge> {
    map c | c in m && m[c].authz in kept :: m[c]
  }

  lemma OrdersFilter(a: map<nat, Order>, b: map<nat, Order>, cutoff: int)
    requires a.Keys !! b.Keys
    ensures KeepOrders(a + b, cutoff) == KeepOrders(a, cutoff) + KeepOrders(b, cutoff)
  {
  }

  lemma AuthzsFilter(a: map<AuthzId, Authz>, b: map<AuthzId, Authz>, cutoff: int)
    requires a.Keys !! b.Keys
    ensures KeepAuthzs(a + b, cutoff) == KeepAuthzs(a, cutoff) + KeepAuthzs(b, cutoff)
  {
  }

  lemma ChallengesFilter(a: map<ChallengeId, Challenge>, b: map<ChallengeId, Challenge>, kept: set<AuthzId>, more: set<AuthzId>)
    requires a.Keys !! b.Keys
    requires forall c :: c in a ==> a[c].authz !in more
    requires forall c :: c in b ==> b[c].authz !in kept
    ensures KeepChallenges(a + b, kept + more) == KeepChallenges(a, kept) + KeepChallenges(b, more)
  {
  }

  lemma Deletions(t: Tables, cutoff: int)
    ensures DeleteExpiredOrders(t, cutoff) == t.(orders := KeepOrders(t.orders, cutoff))
    ensures DeleteExpiredAuthzs(t, cutoff) == t.(authzs := KeepAuthzs(t.authzs, cutoff))
    ensures DeleteOrphanChallenges(t) == t.(challenges := KeepChallenges(t.challenges, t.authzs.Keys))
  {
  }

  lemma DeletionsLeaveUntouched(extra: Tables, lost: set<nat>, cutoff: int)
    requires Untouched(extra, lost)
    ensures Untouched(DeleteExpiredOrders(extra, cutoff), lost) && Untouched(DeleteExpiredAuthzs(extra, cutoff), lost)
    ensures Untouched(DeleteOrphanChallenges(extra), lost)
  {
  }

  lemma DeletedBeside(db: Tables, extra: Tables, lost: set<nat>, cutoff: int)
    requires Ours(db, lost) && Untouched(extra, lost)
    ensures DeleteExpiredOrders(Merge(db, extra), cutoff) == Merge(DeleteExpiredOrders(db, cutoff), DeleteExpiredOrders(extra, cutoff))
    ensures DeleteExpiredAuthzs(Merge(db, extra), cutoff) == Merge(DeleteExpiredAuthzs(db, cutoff), DeleteExpiredAuthzs(extra, cutoff))
    ensures DeleteOrphanChallenges(Merge(db, extra)) == Merge(DeleteOrphanChallenges(db), DeleteOrphanChallenges(extra))
  {
    hide KeepOrders, KeepAuthzs, KeepChallenges, Ours, Untouched, DeleteExpiredOrders, DeleteExpiredAuthzs,
         DeleteOrphanChallenges;
    Disjoint(db, extra, lost);
    ChallengesApart(db, extra, lost);
    Deletions(db, cutoff);
    Deletions(extra, cutoff);
    Deletions(Merge(db, extra), cutoff);
    OrdersFilter(db.orders, extra.orders, cutoff);
    AuthzsFilter(db.authzs, extra.authzs, cutoff);
    ChallengesFilter(db.challenges, extra.challenges, db.authzs.Keys, extra.authzs.Keys);
    assert (db.authzs + extra.authzs).Keys == db.authzs.Keys + extra.authzs.Keys;
  }

  lemma ChallengesApart(db: Tables, extra: Tables, lost: set<nat>)
    requires Ours(db, lost) && Untouched(extra, lost)
    ensures forall c :: c in db.challenges ==> db.challenges[c].authz !in extra.authzs
    ensures forall c :: c in extra.challenges ==> extra.challenges[c].authz !in db.authzs
  {
  }

  lemma MapsCommute<K, V>(a: map<K, V>, b: map<K, V>, c: map<K, V>)
    requires b.Keys !! c.Keys
    ensures a + b + c == a + c + b
  {
  }

  lemma InsertedBeside(db: Tables, extra: Tables, lost: set<nat>, o: nat, order: Order)
    requires Untouched(extra, lost) && o !in lost
    ensures InsertOrder(Merge(db, extra), o, order) == Merge(InsertOrder(db, o, order), extra)
  {
    hide Untouched, AuthzIds, ChallengeIds, AuthzRow;
    NotTheirs(extra, lost, o, order);
    NewAuthzsBeside(db, extra, o, order);
    NewChallengesBeside(db, extra, o, order);
    assert (db.orders + extra.orders)[o := order] == db.orders[o := order] + extra.orders;
    hide InsertAuthzs;
    InsertedOrders(db, o, order);
    InsertedOrders(Merge(db, extra), o, order);
  }

  lemma InsertedOrders(db: Tables, o: nat, order: Order)
    ensures InsertOrder(db, o, order).orders == db.orders[o := order]
  {
  }

  lemma NewAuthzsBeside(db: Tables, extra: Tables, o: nat, order: Order)
    requires AuthzIds(o, |order.identifiers|) !! extra.authzs.Keys
    ensures InsertOrder(Merge(db, extra), o, order).authzs == InsertOrder(db, o, order).authzs + extra.authzs
  {
    var more := map a | a in AuthzIds(o, |order.identifiers|) :: AuthzRow(o, order, a.index);
    hide AuthzIds, ChallengeIds, AuthzRow;
    assert InsertOrder(db, o, order).authzs == db.authzs + more;
    MapsCommute(db.authzs, extra.authzs, more);
  }

  lemma NewChallengesBeside(db: Tables, extra: Tables, o: nat, order: Order)
    requires ChallengeIds(o, order, |order.identifiers|) !! extra.challenges.Keys
    ensures InsertOrder(Merge(db, extra), o, order).challenges == InsertOrder(db, o, order).challenges + extra.challenges
  {
    var more := map c | c in ChallengeIds(o, order, |order.identifiers|) :: Challenge(c.authz, c.kind, Pending);
    hide AuthzIds, ChallengeIds, AuthzRow;
    assert InsertOrder(db, o, order).challenges == db.challenges + more;
    MapsCommute(db.challenges, extra.challenges, more);
  }

  lemma NotTheirs(extra: Tables, lost: set<nat>, o: nat, order: Order)
    requires Untouched(extra, lost) && o !in lost
    ensures o !in extra.orders && AuthzIds(o, |order.identifiers|) !! extra.authzs.Keys
    ensures ChallengeIds(o, order, |order.identifiers|) !! extra.challenges.Keys
  {
    hide AuthzIds, ChallengeIds;
  }

  // ---------------------------------------------------------------- steps beside the lost rows

  /** A step of thread `t` is the same beside the lost rows, and leaves them alone. */
  ghost predicate SameBeside(s: State, extra: Tables, t: nat, ok: bool)
    requires t in s.threads
  {
    StepThread(Beside(s, extra), t, ok) == Beside(StepThread(s, t, ok), extra)
  }

  lemma ChallengeBeside(s: State, extra: Tables, lost: set<nat>, t: nat, ok: bool)
    requires Ours(s.db, lost) && Untouched(extra, lost) && t in s.threads && Knows(s.threads[t], lost)
    requires ShapeOk(s.threads[t])
    requires s.threads[t].Lookup? || s.threads[t].LookupAuthz? || s.threads[t].Claiming?
    ensures SameBeside(s, extra, t, ok)
  {
    hide AllValid, Ours, Untouched, Claimable, SetChallengeStatus;
    match s.threads[t]
    case Lookup(_, c) => ReadsBeside(s.db, extra, lost, c.authz.order);
    case LookupAuthz(_, c, row) => ReadsBeside(s.db, extra, lost, c.authz.order);
    case Claiming(c, a, o) =>
      ReadsBeside(s.db, extra, lost, o);
      ClaimableBeside(s.db, extra, lost, c, a);
      SetChallengeBeside(s.db, extra, c, Processing);
  }

  lemma JobBeside(s: State, extra: Tables, lost: set<nat>, t: nat, ok: bool)
    requires Ours(s.db, lost) && Untouched(extra, lost) && t in s.threads && Knows(s.threads[t], lost)
    requires ShapeOk(s.threads[t]) && s.threads[t].Job?
    ensures SameBeside(s, extra, t, ok)
  {
    hide AllValid, Ours, Untouched, SetChallengeStatus, SetAuthzStatus, SetOrderStatus;
    var Job(phase, c, a, o) := s.threads[t];
    ReadsBeside(s.db, extra, lost, o);
    match phase
    case FailChallenge => SetChallengeBeside(s.db, extra, c, Invalid);
    case PassChallenge => SetChallengeBeside(s.db, extra, c, Valid);
    case FailAuthz => SetAuthzBeside(s.db, extra, a, Invalid);
    case PassAuthz => SetAuthzBeside(s.db, extra, a, Valid);
    case FailOrder => SetOrderBeside(s.db, extra, o, Invalid, None);
    case WriteReady => SetOrderBeside(s.db, extra, o, Ready, None);
    case _ =>
  }

  lemma FinalizeBeside(s: State, extra: Tables, lost: set<nat>, t: nat, ok: bool)
    requires Ours(s.db, lost) && Untouched(extra, lost) && t in s.threads && Knows(s.threads[t], lost)
    requires IsFinalize(s.threads[t])
    ensures SameBeside(s, extra, t, ok)
  {
    hide AllValid, Ours, Untouched, SetOrderStatus;
    var o := s.threads[t].o;
    ReadsBeside(s.db, extra, lost, o);
    match s.threads[t]
    case FinClaim(_) => if o in s.db.orders { SetOrderBeside(s.db, extra, o, Processing, s.db.orders[o].certId); }
    case FinWrite(_, status, certId) => SetOrderBeside(s.db, extra, o, status, certId);
    case _ =>
  }

  /** What a collection leaves of the lost rows. */
  function Swept(extra: Tables, thread: Thread, ok: bool): Tables {
    if !ok then extra else
    match thread
    case GcOrders(cutoff) => DeleteExpiredOrders(extra, cutoff)
    case GcAuthzs(cutoff) => DeleteExpiredAuthzs(extra, cutoff)
    case GcChallenges => DeleteOrphanChallenges(extra)
    case _ => extra
  }

  lemma GcBeside(s: State, extra: Tables, lost: set<nat>, t: nat, ok: bool)
    requires Ours(s.db, lost) && Untouched(extra, lost) && t in s.threads
    requires s.threads[t].GcOrders? || s.threads[t].GcAuthzs? || s.threads[t].GcChallenges?
    ensures StepGc(Beside(s, extra), t, ok) == Beside(StepGc(s, t, ok), Swept(extra, s.threads[t], ok))
    ensures Untouched(Swept(extra, s.threads[t], ok), lost)
  {
    hide Ours, Untouched, DeleteExpiredOrders, DeleteExpiredAuthzs, DeleteOrphanChallenges, Merge;
    var cutoff := if s.threads[t].GcChallenges? then 0 else s.threads[t].cutoff;
    DeletedBeside(s.db, extra, lost, cutoff);
    DeletionsLeaveUntouched(extra, lost, cutoff);
  }

  lemma StepBeside(s: State, extra: Tables, lost: set<nat>, t: nat, ok: bool)
    requires Ours(s.db, lost) && Untouched(extra, lost) && t in s.threads && Knows(s.threads[t], lost)
    requires ShapeOk(s.threads[t])
    ensures StepThread(Beside(s, extra), t, ok) == Beside(StepThread(s, t, ok), Swept(extra, s.threads[t], ok))
    ensures Untouched(Swept(extra, s.threads[t], ok), lost)
  {
    hide Ours, Untouched, DeleteExpiredOrders, DeleteExpiredAuthzs, DeleteOrphanChallenges, StepJob, StepChallenge, StepFinalize, StepGc, Beside;
    BesideThreads(s, extra);
    match s.threads[t]
    case GcOrders(_) => GcBeside(s, extra, lost, t, ok);
    case GcAuthzs(_) => GcBeside(s, extra, lost, t, ok);
    case GcChallenges => GcBeside(s, extra, lost, t, ok);
    case Job(_, _, _, _) => JobBeside(s, extra, lost, t, ok);
    case Lookup(_, _) => ChallengeBeside(s, extra, lost, t, ok);
    case LookupAuthz(_, _, _) => ChallengeBeside(s, extra, lost, t, ok);
    case Claiming(_, _, _) => ChallengeBeside(s, extra, lost, t, ok);
    case _ => FinalizeBeside(s, extra, lost, t, ok);
  }
  // ---------------------------------------------------------------- every run

  ghost predicate PlanApart(plan: map<nat, Order>, lost: set<nat>) {
    forall o :: o in plan ==> o !in lost
  }

  ghost predicate AllKnow(threads: map<nat, Thread>, lost: set<nat>) {
    forall t :: t in threads ==> Knows(threads[t], lost)
  }

  /** The machine without the failed requests, beside what is left of their rows. */
  ghost predicate Split(f: Full, s: State, extra: Tables) {
    && Reachable(s) && f.s == Beside(s, extra) && Untouched(extra, f.lost)
    && PlanApart(s.h.plan, f.lost) && AllKnow(s.threads, f.lost)
  }

  lemma NamesStay(s: State, t: nat, ok: bool, lost: set<nat>)
    requires Inv(s) && t in s.threads && AllKnow(s.threads, lost)
    ensures AllKnow(StepThread(s, t, ok).threads, lost)
  {
    hide CleanOk, OrdersOk, CommittedOk, KnownOk, GcOk, CertificatesOk, IssueCountOk, ReadyCountOk, ClaimCountOk,
         DecisionsOk, UndecidedOk, PromotersOk, VerdictsOk, TrialsOk, AttemptsOk, PlanOk, AllKnow, StepJob, StepChallenge,
         StepGc, StepFinalize;
    match s.threads[t]
    case Job(_, _, _, _) => JobThreads(s, t, ok); MovesKnow(s.threads, t, lost);
    case GcOrders(_) => GcNames(s, t, ok); MovesKnow(s.threads, t, lost);
    case GcAuthzs(_) => GcNames(s, t, ok); MovesKnow(s.threads, t, lost);
    case GcChallenges => GcNames(s, t, ok); MovesKnow(s.threads, t, lost);
    case Lookup(_, _) => ChallengeNames(s, t, ok); MovesKnow(s.threads, t, lost);
    case LookupAuthz(_, _, _) => ChallengeNames(s, t, ok); MovesKnow(s.threads, t, lost);
    case Claiming(_, _, _) => ChallengeNames(s, t, ok); MovesKnow(s.threads, t, lost);
    case _ => FinalizeNames(s, t, ok); MovesKnow(s.threads, t, lost);
  }

  /** A request goes on under the same name or ends. */
  ghost predicate SameName(threads: map<nat, Thread>, t: nat, after: map<nat, Thread>)
    requires t in threads
  {
    after == threads - {t}
    || (t in after && after == threads[t := after[t]] && (Named(after[t]) == Named(threads[t])))
  }

  lemma MovesKnow(threads: map<nat, Thread>, t: nat, lost: set<nat>)
    requires t in threads && AllKnow(threads, lost)
    ensures forall after: map<nat, Thread> :: SameName(threads, t, after) ==> AllKnow(after, lost)
  {
  }

  lemma GcNames(s: State, t: nat, ok: bool)
    requires t in s.threads && (s.threads[t].GcOrders? || s.threads[t].GcAuthzs? || s.threads[t].GcChallenges?)
    ensures SameName(s.threads, t, StepGc(s, t, ok).threads)
  {
  }

  lemma FinalizeNames(s: State, t: nat, ok: bool)
    requires t in s.threads && IsFinalize(s.threads[t])
    ensures SameName(s.threads, t, StepFinalize(s, t, ok).threads)
  {
  }

  lemma ChallengeNames(s: State, t: nat, ok: bool)
    requires RowsOk(s.db, s.h.plan) && ShapesOk(s.threads)
    requires t in s.threads && (s.threads[t].Lookup? || s.threads[t].LookupAuthz? || s.threads[t].Claiming?)
    ensures SameName(s.threads, t, StepChallenge(s, t, ok).threads)
  {
    hide Claimable;
    assert ShapeOk(s.threads[t]);
  }

  lemma SplitIsOurs(f: Full, s: State, extra: Tables)
    requires Split(f, s, extra)
    ensures Inv(s) && Ours(s.db, f.lost)
  {
    hide Reachable, Untouched, AllKnow;
    ReachableOk(s);
    OursByPlan(s, f.lost);
  }

  lemma StepSplits(f: Full, s: State, extra: Tables, t: nat, ok: bool) returns (swept: Tables)
    requires Split(f, s, extra) && t in s.threads
    ensures Split(f.(s := Next(f.s, Step(t, ok))), Next(s, Step(t, ok)), swept)
  {
    hide Reachable, Untouched, Ours, PlanApart, AllKnow, StepThread, Beside, Swept, Inv;
    swept := Swept(extra, s.threads[t], ok);
    SplitIsOurs(f, s, extra);
    ReachableNext(s, Step(t, ok));
    ThreadIsShaped(s, t);
    KnowsOne(s.threads, t, f.lost);
    StepBeside(s, extra, f.lost, t, ok);
    NamesStay(s, t, ok, f.lost);
    StepFrame(s, t, ok);
    BesideThreads(s, extra);
  }

  lemma BesideThreads(s: State, extra: Tables)
    ensures Beside(s, extra).threads == s.threads
  {
  }

  lemma ThreadIsShaped(s: State, t: nat)
    requires Inv(s) && t in s.threads
    ensures ShapeOk(s.threads[t])
  {
  }

  lemma KnowsOne(threads: map<nat, Thread>, t: nat, lost: set<nat>)
    requires AllKnow(threads, lost) && t in threads
    ensures Knows(threads[t], lost)
  {
  }

  lemma OtherSplits(f: Full, s: State, extra: Tables, e: Event)
    requires Split(f, s, extra) && MayAct(f, Do(e)) && !e.Step?
    ensures Split(f.(s := Next(f.s, e)), Next(s, e), extra)
  {
    hide Reachable, Untouched, InsertOrder;
    ReachableNext(s, e);
    if e.NewOrder? && Enabled(s, e) {
      InsertedBeside(s.db, extra, f.lost, s.nextOrder, NewOrderRow(s, e.account, e.names));
    }
  }

  lemma FailureSplits(f: Full, s: State, extra: Tables, a: Action)
    requires Split(f, s, extra) && a.FailOrder? && MayAct(f, a)
    ensures Split(Act(f, a), s, Merge(extra, a.rows))
  {
    hide Reachable, PartOf, Untouched, Merge;
    MergeTwice(s.db, extra, a.rows);
    var order := NewOrderRow(f.s, a.account, a.names);
    MoreUntouched(extra, a.rows, f.lost, a.o, order);
    KnowMore(s.threads, f.lost, a.o);
    hide AllKnow, Knows;
  }

  lemma MoreUntouched(extra: Tables, rows: Tables, lost: set<nat>, o: nat, order: Order)
    requires Untouched(extra, lost) && PartOf(rows, o, order) && order.status == Pending && order.certId == None
    ensures Untouched(Merge(extra, rows), lost + {o})
  {
  }

  lemma KnowMore(threads: map<nat, Thread>, lost: set<nat>, o: nat)
    requires AllKnow(threads, lost) && forall t :: t in threads ==> Knows(threads[t], {o})
    ensures AllKnow(threads, lost + {o})
  {
  }

  lemma ActSplits(f: Full, s: State, extra: Tables, a: Action) returns (s': State, extra': Tables)
    requires Split(f, s, extra)
    ensures Split(Act(f, a), s', extra')
  {
    hide Reachable, Untouched, PlanApart, AllKnow, Next, PartOf, Knows;
    s', extra' := s, extra;
    if MayAct(f, a) {
      match a
      case FailOrder(_, _, _, rows) => FailureSplits(f, s, extra, a); extra' := Merge(extra, rows);
      case Do(e) =>
        s' := Next(s, e);
        BesideThreads(s, extra);
        if !e.Step? { OtherSplits(f, s, extra, e); }
        else if e.tid in s.threads { extra' := StepSplits(f, s, extra, e.tid, e.ok); }
        else { NoThread(s, e); NoThread(f.s, e); }
    }
  }

  lemma NoThread(s: State, e: Event)
    requires e.Step? && e.tid !in s.threads
    ensures Next(s, e) == s
  {
  }

  /** Every run with failing requests is a run without them, beside rows nobody has touched. */
  lemma {:induction false} FailuresStandApart(f: Full, steps: nat) returns (s: State, extra: Tables)
    requires ReachedIn(f, steps)
    ensures Split(f, s, extra)
    decreases steps
  {
    hide Split, Act;
    if steps == 0 {
      s, extra := Init(f.s.now), Tables(map[], map[], map[]);
      StartSplits(f.s.now);
    } else {
      var before: Full, a: Action :| ReachedIn(before, steps - 1) && f == Act(before, a);
      var s0, extra0 := FailuresStandApart(before, steps - 1);
      s, extra := ActSplits(before, s0, extra0, a);
    }
  }

  lemma StartSplits(now: int)
    ensures Split(Full(Init(now), {}), Init(now), Tables(map[], map[], map[]))
  {
    InitReachable(now);
  }

  /** The order of a failed request is never ready, and neither are its authorizations decided. */
  lemma FailedOrderStaysPending(f: Full, o: nat)
    requires Reached(f) && o in f.lost
    ensures o in f.s.db.orders ==> f.s.db.orders[o].status == Pending && f.s.db.orders[o].certId == None
    ensures forall a :: a in f.s.db.authzs && f.s.db.authzs[a].order == o ==> f.s.db.authzs[a].status == Pending
    ensures f.s.h.ledger.readyWrites[o] == 0 && f.s.h.ledger.issuances[o] == 0
  {
    hide Reachable, ReachedIn;
    var steps: nat :| ReachedIn(f, steps);
    var s, extra := FailuresStandApart(f, steps);
    SplitIsOurs(f, s, extra);
    hide Inv;
    IssuancesBounded(s, o);
  }

  /** What is proved of an order's identifiers holds as well with failed requests around. */
  lemma ProofOfControlStands(f: Full, o: nat)
    requires Reached(f) && o in f.s.db.orders && Promoted(f.s.db.orders[o].status)
    ensures o !in f.lost
    ensures forall i :: 0 <= i < |f.s.db.orders[o].identifiers| ==> Controlled(f.s, o, i)
  {
    hide Reachable, ReachedIn, Controlled, AllKnow;
    var steps: nat :| ReachedIn(f, steps);
    var s, extra := FailuresStandApart(f, steps);
    SplitIsOurs(f, s, extra);
    hide Inv;
    ProofOfControl(s, o);
    forall i | 0 <= i < |f.s.db.orders[o].identifiers| ensures Controlled(f.s, o, i) {
      ControlledBeside(s, extra, f.lost, o, i);
    }
  }

  lemma ControlledBeside(s: State, extra: Tables, lost: set<nat>, o: nat, i: nat)
    requires Ours(s.db, lost) && Untouched(extra, lost) && o in s.db.orders && i < |s.db.orders[o].identifiers|
    requires Controlled(s, o, i)
    ensures o in Beside(s, extra).db.orders && Beside(s, extra).db.orders[o] == s.db.orders[o]
    ensures Controlled(Beside(s, extra), o, i)
  {
    var a := AuthzId(o, i);
    var c :| ProvedBy(s, a, c) && (s.db.authzs[a].wildcard ==> s.db.challenges[c].kind == Dns01);
    ReadsBeside(s.db, extra, lost, o);
    assert ProvedBy(Beside(s, extra), a, c) by { ProvedBeside(s, extra, lost, a, c); }
  }

  lemma ProvedBeside(s: State, extra: Tables, lost: set<nat>, a: AuthzId, c: ChallengeId)
    requires Ours(s.db, lost) && Untouched(extra, lost) && ProvedBy(s, a, c) && a.order !in lost
    ensures ProvedBy(Beside(s, extra), a, c)
  {
    var both := Merge(s.db, extra).challenges;
    assert forall d :: d in s.db.challenges ==> d in both && both[d] == s.db.challenges[d];
  }
}
