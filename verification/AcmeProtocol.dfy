/**
 The ACME handlers as one state machine: any number of requests and garbage
 collections run at once, and a step is one SQL statement of one of them.
 A step carries one bit, which is the verdict of the validator for a
 validation, the outcome of the CA for an issuance and "the statement
 succeeded" everywhere else.
 */
module AcmeProtocol {
  import opened Strings
  import opened AcmeTables

  const ORDER_TTL: int := 24 * 3600
  const GC_GRACE: int := 24 * 3600

  /** Where a challenge request stands once it has claimed its challenge. */
  datatype Phase =
    | Validating
    | FailChallenge | FailAuthz | FailOrder
    | PassChallenge | PassAuthz | ReadAuthzs | WriteReady

  /** A request (or a garbage collection) in flight: its program counter and the values it has read. */
  datatype Thread =
    | Lookup(account: nat, c: ChallengeId)
    | LookupAuthz(account: nat, c: ChallengeId, row: Challenge)
    | Claiming(c: ChallengeId, a: AuthzId, o: nat)
    | Job(phase: Phase, c: ChallengeId, a: AuthzId, o: nat)
    | FinLookup(account: nat, o: nat)
    | FinClaim(o: nat)
    | FinIssue(o: nat)
    | FinFetch(o: nat)
    | FinStore(o: nat)
    | FinWrite(o: nat, status: Status, certId: Option<nat>)
    | GcOrders(cutoff: int)
    | GcAuthzs(cutoff: int)
    | GcChallenges

  /** What has happened to the challenges so far. */
  datatype Trials = Trials(
    attempts: map<AuthzId, ChallengeId>,   // the challenge claimed last for an authorization
    attemptCount: multiset<AuthzId>,       // successful challenge claims
    proved: set<ChallengeId>,              // challenges whose validator said yes
    refuted: set<ChallengeId>)             // challenges whose validator said no

  /** What has happened to the orders so far. */
  datatype Ledger = Ledger(
    promoters: set<AuthzId>,               // authorizations whose request wrote "ready"
    readyWrites: multiset<nat>,            // "ready" writes an order has taken
    orderClaims: multiset<nat>,            // successful order claims
    issuances: multiset<nat>)              // times the CA was asked to issue for an order

  /** A record of the past; no step reads it. */
  datatype History = History(
    plan: map<nat, Order>,                 // every order ever created, as inserted
    trials: Trials,
    decisions: multiset<AuthzId>,          // status writes an authorization has taken
    ledger: Ledger,
    certificates: map<nat, nat>,           // certificate id -> order
    clean: bool)                           // no ignored status write has failed

  datatype State = State(db: Tables, threads: map<nat, Thread>, now: int, nextOrder: nat, nextCert: nat, h: History)

  datatype Event =
    | Tick(seconds: nat)
    | NewOrder(account: nat, names: seq<string>)
    | Start(tid: nat, thread: Thread)
    | Step(tid: nat, ok: bool)
    | Drop(tid: nat)

  function Init(now: int): State {
    State(Tables(map[], map[], map[]), map[], now, 0, 0,
          History(map[], Trials(map[], multiset{}, {}, {}), multiset{},
                  Ledger({}, multiset{}, multiset{}, multiset{}), map[], true))
  }

  // ---------------------------------------------------------------- steps

  function End(s: State, t: nat): State {
    s.(threads := s.threads - {t})
  }

  function Goto(s: State, t: nat, next: Thread): State {
    s.(threads := s.threads[t := next])
  }

  function NewOrderRow(s: State, account: nat, names: seq<string>): Order {
    Order(account, Pending, names, s.now + ORDER_TTL, None)
  }

  function CreateOrder(s: State, account: nat, names: seq<string>): State {
    var order := NewOrderRow(s, account, names);
    s.(db := InsertOrder(s.db, s.nextOrder, order),
       nextOrder := s.nextOrder + 1,
       h := s.h.(plan := s.h.plan[s.nextOrder := order]))
  }

  function ClaimChallenge(s: State, t: nat, c: ChallengeId, a: AuthzId, o: nat, ok: bool): State {
    if ok && Claimable(s.db, c, a) then
      Goto(s, t, Job(Validating, c, a, o)).(
        db := SetChallengeStatus(s.db, c, Processing),
        h := s.h.(trials := s.h.trials.(attempts := s.h.trials.attempts[a := c],
                                        attemptCount := s.h.trials.attemptCount + multiset{a})))
    else End(s, t)
  }

  /** Records the outcome of one of the status writes whose errors are ignored. */
  function Wrote(s: State, ok: bool): State {
    s.(h := s.h.(clean := s.h.clean && ok))
  }

  function WriteChallenge(s: State, c: ChallengeId, status: Status, ok: bool): State {
    Wrote(if ok then s.(db := SetChallengeStatus(s.db, c, status)) else s, ok)
  }

  function WriteAuthz(s: State, a: AuthzId, status: Status, ok: bool): State {
    Wrote(if ok && a in s.db.authzs
          then s.(db := SetAuthzStatus(s.db, a, status), h := s.h.(decisions := s.h.decisions + multiset{a}))
          else s, ok)
  }

  function WriteOrder(s: State, o: nat, status: Status, certId: Option<nat>, ok: bool): State {
    Wrote(if ok then s.(db := SetOrderStatus(s.db, o, status, certId)) else s, ok)
  }

  function Promote(s: State, a: AuthzId, o: nat, ok: bool): State {
    var s' := WriteOrder(s, o, Ready, None, ok);
    if ok && o in s.db.orders then
      s'.(h := s'.h.(ledger := s'.h.ledger.(promoters := s'.h.ledger.promoters + {a},
                                           readyWrites := s'.h.ledger.readyWrites + multiset{o})))
    else s'
  }

  /** A challenge request after its claim. */
  function StepJob(s: State, t: nat, ok: bool): State
    requires t in s.threads && s.threads[t].Job?
  {
    var Job(phase, c, a, o) := s.threads[t];
    match phase
    case Validating =>
      if ok then Goto(s, t, Job(PassChallenge, c, a, o)).(h := s.h.(trials := s.h.trials.(proved := s.h.trials.proved + {c})))
      else Goto(s, t, Job(FailChallenge, c, a, o)).(h := s.h.(trials := s.h.trials.(refuted := s.h.trials.refuted + {c})))
    case FailChallenge => Goto(WriteChallenge(s, c, Invalid, ok), t, Job(FailAuthz, c, a, o))
    case FailAuthz => Goto(WriteAuthz(s, a, Invalid, ok), t, Job(FailOrder, c, a, o))
    case FailOrder => End(WriteOrder(s, o, Invalid, None, ok), t)
    case PassChallenge => Goto(WriteChallenge(s, c, Valid, ok), t, Job(PassAuthz, c, a, o))
    case PassAuthz => Goto(WriteAuthz(s, a, Valid, ok), t, Job(ReadAuthzs, c, a, o))
    case ReadAuthzs => if ok && AllValid(s.db, o) then Goto(s, t, Job(WriteReady, c, a, o)) else End(s, t)
    case WriteReady => End(Promote(s, a, o, ok), t)
  }

  /** A challenge request up to its claim. */
  function StepChallenge(s: State, t: nat, ok: bool): State
    requires t in s.threads && (s.threads[t].Lookup? || s.threads[t].LookupAuthz? || s.threads[t].Claiming?)
  {
    match s.threads[t]
    case Lookup(account, c) =>
      if ok && c in s.db.challenges then Goto(s, t, LookupAuthz(account, c, s.db.challenges[c])) else End(s, t)
    case LookupAuthz(account, c, row) =>
      if && ok && row.authz in s.db.authzs && s.db.authzs[row.authz].account == account
         && row.status == Pending && s.db.authzs[row.authz].status == Pending
         && s.now <= s.db.authzs[row.authz].expires
      then Goto(s, t, Claiming(c, row.authz, s.db.authzs[row.authz].order))
      else End(s, t)
    case Claiming(c, a, o) => ClaimChallenge(s, t, c, a, o, ok)
  }

  predicate IsFinalize(thread: Thread) {
    thread.FinLookup? || thread.FinClaim? || thread.FinIssue? || thread.FinFetch? || thread.FinStore? || thread.FinWrite?
  }

  /** A finalize request. Signing and fetching the certificate are two commands of the CA. */
  function StepFinalize(s: State, t: nat, ok: bool): State
    requires t in s.threads && IsFinalize(s.threads[t])
  {
    match s.threads[t]
    case FinLookup(account, o) =>
      if ok && o in s.db.orders && s.db.orders[o].account == account && s.db.orders[o].status == Ready
      then Goto(s, t, FinClaim(o)) else End(s, t)
    case FinClaim(o) =>
      if ok && OrderClaimable(s.db, o, s.now) then
        Goto(s, t, FinIssue(o)).(
          db := SetOrderStatus(s.db, o, Processing, s.db.orders[o].certId),
          h := s.h.(ledger := s.h.ledger.(orderClaims := s.h.ledger.orderClaims + multiset{o})))
      else End(s, t)
    case FinIssue(o) =>
      Goto(s, t, if ok then FinFetch(o) else FinWrite(o, Invalid, None))
        .(h := s.h.(ledger := s.h.ledger.(issuances := s.h.ledger.issuances + multiset{o})))
    case FinFetch(o) => Goto(s, t, if ok then FinStore(o) else FinWrite(o, Invalid, None))
    case FinStore(o) =>
      if ok then
        Goto(s, t, FinWrite(o, Valid, Some(s.nextCert)))
          .(nextCert := s.nextCert + 1, h := s.h.(certificates := s.h.certificates[s.nextCert := o]))
      else End(s, t)
    case FinWrite(o, status, certId) => End(WriteOrder(s, o, status, certId, ok), t)
  }

  /** A garbage collection: orders first, then authorizations, then orphaned challenges. */
  function StepGc(s: State, t: nat, ok: bool): State
    requires t in s.threads && (s.threads[t].GcOrders? || s.threads[t].GcAuthzs? || s.threads[t].GcChallenges?)
  {
    if !ok then End(s, t) else
    match s.threads[t]
    case GcOrders(cutoff) => Goto(s, t, GcAuthzs(cutoff)).(db := DeleteExpiredOrders(s.db, cutoff))
    case GcAuthzs(cutoff) => Goto(s, t, GcChallenges).(db := DeleteExpiredAuthzs(s.db, cutoff))
    case GcChallenges => End(s, t).(db := DeleteOrphanChallenges(s.db))
  }

  function StepThread(s: State, t: nat, ok: bool): State
    requires t in s.threads
  {
    match s.threads[t]
    case Lookup(_, _) => StepChallenge(s, t, ok)
    case LookupAuthz(_, _, _) => StepChallenge(s, t, ok)
    case Claiming(_, _, _) => StepChallenge(s, t, ok)
    case Job(_, _, _, _) => StepJob(s, t, ok)
    case GcOrders(_) => StepGc(s, t, ok)
    case GcAuthzs(_) => StepGc(s, t, ok)
    case GcChallenges => StepGc(s, t, ok)
    case _ => StepFinalize(s, t, ok)
  }

  /** A request starts by naming any object it likes; a collection starts with the cutoff of its clock. */
  predicate MayStart(s: State, thread: Thread) {
    match thread
    case Lookup(_, _) => true
    case FinLookup(_, _) => true
    case GcOrders(cutoff) => cutoff == s.now - GC_GRACE
    case _ => false
  }

  predicate Enabled(s: State, e: Event) {
    match e
    case Tick(_) => true
    case NewOrder(_, names) => |names| > 0 && NoDuplicates(names)
    case Start(t, thread) => t !in s.threads && MayStart(s, thread)
    case Step(t, _) => t in s.threads
    case Drop(t) => t in s.threads
  }

  /** One step of the whole frontend. An event that cannot happen changes nothing. */
  function Next(s: State, e: Event): State {
    if !Enabled(s, e) then s else
    match e
    case Tick(seconds) => s.(now := s.now + seconds)
    case NewOrder(account, names) => CreateOrder(s, account, names)
    case Start(t, thread) => Goto(s, t, thread)
    case Step(t, ok) => StepThread(s, t, ok)
    case Drop(t) => End(s, t)
  }

  function Run(s: State, es: seq<Event>): State
    decreases |es|
  {
    if es == [] then s else Run(Next(s, es[0]), es[1..])
  }
}
