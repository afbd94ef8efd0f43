/**
 From the identifiers an account asks for to the names in the certificate it is
 given: the ACME machine with the requests' contents, beside the CA's store. Orders
 are made of checked identifiers, and a finalize goes on only if its CSR names the
 order's identifiers. The CA signs a certificate with the names of that CSR; a
 second command then fetches the newest live certificate of the same common name.
 Other commands issue and revoke meanwhile, and all else happens as in AcmeProtocol
 and Issuance, in any interleaving.
 */
module AcmeEndToEnd {
  import opened Strings
  import opened AcmeTables
  import opened AcmeProtocol
  import opened AcmeInvariant
  import opened AcmeSafety
  import opened AcmeSchedules
  import opened Hostnames
  import opened Names
  import Issuance

  const SERVER: string := "server"

  /** What an account may order: whether DNS validation is there for wildcards, and its patterns. */
  datatype Policy = Policy(dns01: bool, allowed: Option<seq<string>>)

  /**
   The certificate signed for a finalize and the one fetched after it, as rows of
   the CA's index. `stood` records whether, at the fetch, the signed one was live
   and no later one of its name and profile was.
   */
  datatype Receipt = Receipt(signed: nat, fetched: nat, stood: bool)

  datatype World = World(
    core: State,
    ca: Issuance.State,
    names: seq<Leaf>,                      // the names in the CA's certificates, row by row
    csrs: map<nat, Csr>,                   // the CSR of a finalize request
    signed: map<nat, nat>,                 // the row the CA added for it
    fetched: map<nat, Receipt>,            // what it fetched then
    receipts: map<nat, Receipt>,           // the same for the stored certificates
    policies: map<nat, Policy>)            // the policy an order was checked against

  datatype Action =
    | Ask(account: nat, ids: seq<Identifier>, policy: Policy)
    | Finalize(tid: nat, account: nat, o: nat, csr: Csr)
    | Sign(tid: nat, waiting: nat, checking: nat, signing: nat, reported: bool)
    | Fetch(tid: nat, row: nat)
    | Ca(command: Issuance.Event, leaf: Leaf)
    | Do(e: Event)

  function Begin(now: int, caNow: int): World {
    World(Init(now), Issuance.Init(caNow), [], map[], map[], map[], map[], map[])
  }

  predicate AllChecked(ids: seq<Identifier>, policy: Policy) {
    ids != [] && forall id <- ids :: Check(id, policy.dns01, policy.allowed).None?
  }

  function CaNext(w: World, e: Issuance.Event, leaf: Leaf): World {
    var after := Issuance.Next(w.ca, e);
    w.(ca := after, names := if |after.index| > |w.ca.index| then w.names + [leaf] else w.names)
  }

  /** The CA command signs for the CSR of thread `t`: it waits with that request and its subject. */
  ghost predicate MaySign(w: World, t: nat, command: nat) {
    && t in w.core.threads && w.core.threads[t].FinIssue? && t in w.csrs && CaAccepts(w.csrs[t], DnsCn, {})
    && command in w.ca.threads && w.ca.threads[command].voucher.Some?
    && Issuance.IsFor(Issuance.Issued(w.ca.threads[command], 0), CnFor(w.csrs[t]), SERVER)
  }

  /** The locked half of `sign`. Its success may be lost on the way back; a certificate it issued stays. */
  ghost function SignStep(w: World, t: nat, command: nat, checking: nat, signing: nat, reported: bool): World
    requires MaySign(w, t, command)
  {
    var w' := CaNext(w, Issuance.Commit(command, checking, signing), LeafOf(w.csrs[t], DnsCn));
    var issued := |w'.ca.index| > |w.ca.index|;
    w'.(core := Next(w.core, Step(t, issued && reported)),
        signed := if issued then w.signed[t := |w.ca.index|] else w.signed)
  }

  /** The fetch names the common name `sign` printed, and gets what the look-up finds now. */
  ghost predicate MayFetch(w: World, t: nat, row: nat) {
    && t in w.core.threads && w.core.threads[t].FinFetch? && t in w.signed && w.signed[t] < |w.names|
    && w.signed[t] < |w.ca.index| && Issuance.Found(w.ca, w.names[w.signed[t]].cn, SERVER, row)
  }

  ghost function FetchStep(w: World, t: nat, row: nat): World
    requires MayFetch(w, t, row)
  {
    var n := w.signed[t];
    w.(core := Next(w.core, Step(t, true)),
       fetched := w.fetched[t := Receipt(n, row, Issuance.Live(w.ca.index[n], w.ca.now) && !Issuance.Succeeded(w.ca, n))])
  }

  /** The tests on contents that the next statement of thread `t` waits for; a command that fails passes none. */
  predicate Passes(w: World, t: nat)
    requires t in w.core.threads
  {
    match w.core.threads[t]
    case FinLookup(_, o) =>
      t in w.csrs && o in w.core.db.orders && FinalizeTest(w.csrs[t], w.core.db.orders[o].identifiers)
    case FinIssue(_) => false
    case FinFetch(_) => false
    case FinStore(_) => t in w.fetched
    case _ => true
  }

  function StepWorld(w: World, t: nat, ok: bool): World
    requires t in w.core.threads
  {
    var goes := ok && Passes(w, t);
    w.(core := Next(w.core, Step(t, goes)),
       receipts := if w.core.threads[t].FinStore? && goes then w.receipts[w.core.nextCert := w.fetched[t]] else w.receipts)
  }

  ghost function Act(w: World, a: Action): World {
    match a
    case Ask(account, ids, policy) =>
      if !AllChecked(ids, policy) then w else
      w.(core := Next(w.core, NewOrder(account, FirstOccurrences(ids))), policies := w.policies[w.core.nextOrder := policy])
    case Finalize(t, account, o, csr) =>
      if t in w.core.threads then w else
      w.(core := Next(w.core, Start(t, FinLookup(account, o))), csrs := w.csrs[t := csr])
    case Sign(t, command, checking, signing, reported) =>
      if MaySign(w, t, command) then SignStep(w, t, command, checking, signing, reported) else w
    case Fetch(t, row) => if MayFetch(w, t, row) then FetchStep(w, t, row) else w
    case Ca(e, leaf) =>
      if e.Commit? && e.tid in w.ca.threads && w.ca.threads[e.tid].cn != leaf.cn then w else CaNext(w, e, leaf)
    case Do(e) =>
      if e.NewOrder? || (e.Start? && e.thread.FinLookup?) then w
      else if e.Step? && e.tid in w.core.threads then StepWorld(w, e.tid, e.ok)
      else w.(core := Next(w.core, e))
  }

  ghost predicate ReachedIn(w: World, steps: nat)
    decreases steps
  {
    if steps == 0 then w == Begin(w.core.now, w.ca.now) else
    exists before: World, a: Action :: ReachedIn(before, steps - 1) && w == Act(before, a)
  }

  ghost predicate Reached(w: World) {
    exists steps: nat :: ReachedIn(w, steps)
  }

  // ---------------------------------------------------------------- the invariant

  /** Case aside the leaf carries exactly these DNS names, no other kind of name, and one of them as its CN. */
  predicate Bears(leaf: Leaf, identifiers: seq<string>) {
    && LowerAll(leaf.dns) == Elements(identifiers)
    && leaf.emails == {} && leaf.ips == {} && leaf.uris == {} && Lower(leaf.cn) in identifiers
  }

  ghost predicate Permitted(name: string, policy: Policy) {
    var (base, wildcard) := CutWildcard(name);
    LowerDnsName(base) && (wildcard ==> policy.dns01) && AllowedBy(policy.allowed, name)
  }

  /** Row `n` is a server certificate with the names of order `o`. */
  predicate SignedFor(w: World, n: nat, o: nat) {
    && n < |w.names| && n < |w.ca.index| && Issuance.IsFor(w.ca.index[n], w.names[n].cn, SERVER)
    && o in w.core.h.plan && Bears(w.names[n], w.core.h.plan[o].identifiers)
  }

  /** The fetched row is a server certificate of the same common name, and the signed one itself exactly when that stood. */
  predicate ReceiptFor(w: World, r: Receipt, o: nat) {
    && SignedFor(w, r.signed, o) && r.fetched < |w.names| && r.fetched < |w.ca.index|
    && w.names[r.fetched].cn == w.names[r.signed].cn && w.ca.index[r.fetched].kind == SERVER
    && (r.fetched == r.signed <==> r.stood)
  }

  ghost predicate Carries(w: World, t: nat)
    requires t in w.core.threads
  {
    match w.core.threads[t]
    case FinClaim(o) => t in w.csrs && o in w.core.h.plan && FinalizeTest(w.csrs[t], w.core.h.plan[o].identifiers)
    case FinIssue(o) => t in w.csrs && o in w.core.h.plan && FinalizeTest(w.csrs[t], w.core.h.plan[o].identifiers)
    case FinFetch(o) => t in w.signed && SignedFor(w, w.signed[t], o)
    case FinStore(o) => t in w.fetched && ReceiptFor(w, w.fetched[t], o)
    case _ => true
  }

  ghost predicate AllCarry(w: World) {
    forall t :: t in w.core.threads ==> Carries(w, t)
  }

  ghost predicate AllBear(w: World) {
    forall k :: k in w.core.h.certificates ==>
      k in w.receipts && ReceiptFor(w, w.receipts[k], w.core.h.certificates[k])
  }

  ghost predicate AllPermitted(w: World) {
    forall o :: o in w.core.h.plan ==>
      o in w.policies && forall name <- w.core.h.plan[o].identifiers :: Permitted(name, w.policies[o])
  }

  /** A row's common name is the one among its names. */
  predicate NamesMatch(names: seq<Leaf>, index: seq<Issuance.Row>) {
    |names| == |index| && forall i :: 0 <= i < |index| ==> index[i].cn == names[i].cn
  }

  ghost predicate Kept(w: World) {
    AllCarry(w) && AllBear(w) && AllPermitted(w) && NamesMatch(w.names, w.ca.index)
  }

  ghost predicate Traced(w: World) {
    Reachable(w.core) && Issuance.Reachable(w.ca) && Kept(w)
  }

  // ---------------------------------------------------------------- steps of other requests

  predicate Finalizing(thread: Thread) {
    thread.FinClaim? || thread.FinIssue? || thread.FinFetch? || thread.FinStore?
  }

  /** The step changes no record of orders or certificates, and what it leaves of thread `t` is not finalizing. */
  predicate Aside(s: State, t: nat, s': State) {
    && s'.h.plan == s.h.plan && s'.h.certificates == s.h.certificates && s'.nextCert == s.nextCert
    && s'.threads.Keys <= s.threads.Keys + {t}
    && (forall u :: u in s'.threads && Finalizing(s'.threads[u]) ==> u in s.threads && s'.threads[u] == s.threads[u])
  }

  lemma ChallengeAside(s: State, t: nat, ok: bool)
    requires t in s.threads && (s.threads[t].Lookup? || s.threads[t].LookupAuthz? || s.threads[t].Claiming?)
    ensures Aside(s, t, StepChallenge(s, t, ok))
  {
    hide Claimable;
  }

  lemma GcAside(s: State, t: nat, ok: bool)
    requires t in s.threads && (s.threads[t].GcOrders? || s.threads[t].GcAuthzs? || s.threads[t].GcChallenges?)
    ensures Aside(s, t, StepGc(s, t, ok))
  {
  }

  lemma JobAside(s: State, t: nat, ok: bool)
    requires t in s.threads && s.threads[t].Job?
    ensures Aside(s, t, StepJob(s, t, ok))
  {
    hide StepJob;
    JobThreads(s, t, ok);
    JobKeepsOrders(s, t, ok);
    JobKeepsCertificates(s, t, ok);
  }

  lemma JobKeepsCertificates(s: State, t: nat, ok: bool)
    requires t in s.threads && s.threads[t].Job?
    ensures StepJob(s, t, ok).h.certificates == s.h.certificates && StepJob(s, t, ok).nextCert == s.nextCert
  {
    hide AllValid, SetOrderStatus, SetChallengeStatus, SetAuthzStatus;
  }

  lemma OthersAside(s: State, t: nat, ok: bool)
    requires t in s.threads && !IsFinalize(s.threads[t])
    ensures Aside(s, t, Next(s, Step(t, ok)))
  {
    hide StepJob, StepChallenge, StepGc, StepFinalize, Aside;
    match s.threads[t]
    case Job(_, _, _, _) => JobAside(s, t, ok);
    case Lookup(_, _) => ChallengeAside(s, t, ok);
    case LookupAuthz(_, _, _) => ChallengeAside(s, t, ok);
    case Claiming(_, _, _) => ChallengeAside(s, t, ok);
    case GcOrders(_) => GcAside(s, t, ok);
    case GcAuthzs(_) => GcAside(s, t, ok);
    case GcChallenges => GcAside(s, t, ok);
  }

  /** The CA's store may have grown; what was there keeps its place and its names. */
  predicate Continues(w: World, w': World) {
    && w.names <= w'.names && |w.ca.index| <= |w'.ca.index| && NamesMatch(w'.names, w'.ca.index)
    && (forall i :: 0 <= i < |w.ca.index| ==> w'.ca.index[i].kind == w.ca.index[i].kind && w'.ca.index[i].cn == w.ca.index[i].cn)
    && w'.policies == w.policies
  }

  predicate SameRecords(w: World, w': World, u: nat) {
    && (u in w.csrs ==> u in w'.csrs && w'.csrs[u] == w.csrs[u])
    && (u in w.signed ==> u in w'.signed && w'.signed[u] == w.signed[u])
    && (u in w.fetched ==> u in w'.fetched && w'.fetched[u] == w.fetched[u])
  }

  lemma SignedStays(w: World, w': World, n: nat, o: nat)
    requires Continues(w, w') && w'.core.h.plan == w.core.h.plan && SignedFor(w, n, o)
    ensures SignedFor(w', n, o)
  {
    hide Bears, NamesMatch;
  }

  lemma ReceiptStays(w: World, w': World, r: Receipt, o: nat)
    requires Continues(w, w') && w'.core.h.plan == w.core.h.plan && ReceiptFor(w, r, o)
    ensures ReceiptFor(w', r, o)
  {
    hide Bears, NamesMatch;
  }

  lemma CarriesStays(w: World, w': World, u: nat)
    requires Continues(w, w') && w'.core.h.plan == w.core.h.plan && u in w.core.threads && Carries(w, u)
    requires u in w'.core.threads && w'.core.threads[u] == w.core.threads[u] && SameRecords(w, w', u)
    ensures Carries(w', u)
  {
    hide FinalizeTest, SignedFor, ReceiptFor, Continues;
    match w.core.threads[u]
    case FinFetch(o) => SignedStays(w, w', w.signed[u], o);
    case FinStore(o) => ReceiptStays(w, w', w.fetched[u], o);
    case _ =>
  }

  lemma BearsStays(w: World, w': World)
    requires Continues(w, w') && w'.core.h.plan == w.core.h.plan && AllBear(w) && w'.receipts == w.receipts
    requires w'.core.h.certificates == w.core.h.certificates
    ensures AllBear(w')
  {
    hide SignedFor, ReceiptFor, Continues;
    forall k | k in w'.core.h.certificates
      ensures k in w'.receipts && ReceiptFor(w', w'.receipts[k], w'.core.h.certificates[k])
    {
      ReceiptStays(w, w', w.receipts[k], w.core.h.certificates[k]);
    }
  }

  /** What a step does to one thread leaves what the others carry. */
  lemma OneThreadCarries(w: World, t: nat, w': World)
    requires AllCarry(w) && Continues(w, w') && w'.core.h.plan == w.core.h.plan
    requires forall u :: u in w'.core.threads && u != t ==>
               u in w.core.threads && w'.core.threads[u] == w.core.threads[u] && SameRecords(w, w', u)
    requires t in w'.core.threads ==> Carries(w', t)
    ensures AllCarry(w')
  {
    hide Carries, Continues, SameRecords;
    forall u | u in w'.core.threads ensures Carries(w', u) {
      if u != t { CarriesStays(w, w', u); }
    }
  }

  lemma PolicyKept(w: World, w': World)
    requires AllPermitted(w) && Continues(w, w') && w'.core.h.plan == w.core.h.plan
    ensures AllPermitted(w') && NamesMatch(w'.names, w'.ca.index)
  {
    hide Permitted;
  }

  lemma AsideKeeps(w: World, t: nat, w': World)
    requires Kept(w) && Aside(w.core, t, w'.core) && Continues(w, w') && w'.receipts == w.receipts
    requires forall u :: u in w.core.threads ==> SameRecords(w, w', u)
    ensures Kept(w')
  {
    hide Carries, SignedFor, ReceiptFor, Continues, SameRecords, AllBear, AllPermitted;
    PolicyKept(w, w');
    BearsStays(w, w');
    forall u | u in w'.core.threads ensures Carries(w', u) {
      if Finalizing(w'.core.threads[u]) { CarriesStays(w, w', u); } else { NothingCarried(w', u); }
    }
  }

  lemma NothingCarried(w: World, u: nat)
    requires u in w.core.threads && !Finalizing(w.core.threads[u])
    ensures Carries(w, u)
  {
  }

  lemma Unchanged(w: World, w': World)
    requires Kept(w) && w'.ca.index == w.ca.index && w'.names == w.names && w'.policies == w.policies
    ensures Continues(w, w')
  {
  }

  // ---------------------------------------------------------------- steps of a finalize

  lemma PlanIsTheRow(s: State, o: nat)
    requires Reachable(s) && o in s.db.orders
    ensures o in s.h.plan && s.h.plan[o].identifiers == s.db.orders[o].identifiers && NoDuplicates(s.h.plan[o].identifiers)
  {
    hide Reachable, CleanOk, OrdersOk, CommittedOk, KnownOk, GcOk, CertificatesOk, IssueCountOk, ReadyCountOk, ClaimCountOk,
         DecisionsOk, UndecidedOk, PromotersOk, VerdictsOk, ShapesOk, TrialsOk, AttemptsOk;
    ReachableOk(s);
  }

  lemma LookupTraced(w: World, t: nat, ok: bool)
    requires Traced(w) && t in w.core.threads && w.core.threads[t].FinLookup?
    ensures Kept(StepWorld(w, t, ok))
  {
    hide Reachable, FinalizeTest, SignedFor, ReceiptFor, Continues, AllBear, AllPermitted, StepJob, StepChallenge, StepGc;
    var o, w' := w.core.threads[t].o, StepWorld(w, t, ok);
    if o in w.core.db.orders { PlanIsTheRow(w.core, o); }
    Unchanged(w, w');
    PolicyKept(w, w');
    BearsStays(w, w');
    OneThreadCarries(w, t, w');
  }

  lemma ClaimTraced(w: World, t: nat, ok: bool)
    requires Traced(w) && t in w.core.threads && (w.core.threads[t].FinClaim? || w.core.threads[t].FinWrite?)
    ensures Kept(StepWorld(w, t, ok))
  {
    hide Reachable, FinalizeTest, SignedFor, ReceiptFor, Continues, AllBear, AllPermitted, StepJob, StepChallenge, StepGc,
         SetOrderStatus;
    var w' := StepWorld(w, t, ok);
    assert Carries(w, t);
    Unchanged(w, w');
    PolicyKept(w, w');
    BearsStays(w, w');
    OneThreadCarries(w, t, w');
  }

  /** A command of the CA that fails leaves the request to write "invalid". */
  lemma CommandFailsTraced(w: World, t: nat, ok: bool)
    requires Traced(w) && t in w.core.threads && (w.core.threads[t].FinIssue? || w.core.threads[t].FinFetch?)
    ensures Kept(StepWorld(w, t, ok))
  {
    hide Reachable, FinalizeTest, SignedFor, ReceiptFor, Continues, AllBear, AllPermitted, StepJob, StepChallenge, StepGc;
    var w' := StepWorld(w, t, ok);
    Unchanged(w, w');
    PolicyKept(w, w');
    BearsStays(w, w');
    OneThreadCarries(w, t, w');
  }

  lemma PlanRepeatsNothing(s: State, o: nat)
    requires Reachable(s) && o in s.h.plan
    ensures NoDuplicates(s.h.plan[o].identifiers)
  {
    hide Reachable, RowsOk, CleanOk, OrdersOk, CommittedOk, KnownOk, GcOk, CertificatesOk, IssueCountOk, ReadyCountOk,
         ClaimCountOk, DecisionsOk, UndecidedOk, PromotersOk, VerdictsOk, ShapesOk, TrialsOk, AttemptsOk;
    ReachableOk(s);
  }

  lemma CaContinues(w: World, e: Issuance.Event, leaf: Leaf)
    requires NamesMatch(w.names, w.ca.index)
    requires e.Commit? && e.tid in w.ca.threads ==> w.ca.threads[e.tid].cn == leaf.cn
    ensures Continues(w, CaNext(w, e, leaf))
  {
    hide Issuance.Next;
    Issuance.IndexGrows(w.ca, e);
  }

  lemma SignTraced(w: World, t: nat, command: nat, checking: nat, signing: nat, reported: bool)
    requires Traced(w) && MaySign(w, t, command)
    ensures Kept(SignStep(w, t, command, checking, signing, reported))
  {
    hide Reachable, Issuance.Reachable, FinalizeTest, CaAccepts, Bears, Continues, AllBear, AllPermitted, NamesMatch, StepJob,
         StepChallenge, StepGc, Issuance.Next;
    var leaf, w' := LeafOf(w.csrs[t], DnsCn), SignStep(w, t, command, checking, signing, reported);
    CaContinues(w, Issuance.Commit(command, checking, signing), leaf);
    Grown(w, CaNext(w, Issuance.Commit(command, checking, signing), leaf), w');
    PolicyKept(w, w');
    BearsStays(w, w');
    if |w'.ca.index| > |w.ca.index| {
      Issuance.IndexGrows(w.ca, Issuance.Commit(command, checking, signing));
      assert Carries(w, t);
      SignedNames(w, t, w.core.threads[t].o);
      NamesAre(w, w');
    }
    OneThreadCarries(w, t, w');
  }

  lemma Grown(w: World, w1: World, w': World)
    requires Continues(w, w1) && w'.names == w1.names && w'.ca == w1.ca && w'.policies == w1.policies
    ensures Continues(w, w')
  {
  }

  lemma NamesAre(w: World, w': World)
    requires Continues(w, w')
    ensures |w'.names| == |w'.ca.index| && |w.names| <= |w'.names|
  {
  }

  lemma SignedNames(w: World, t: nat, o: nat)
    requires Reachable(w.core) && t in w.csrs && CaAccepts(w.csrs[t], DnsCn, {}) && o in w.core.h.plan
    requires FinalizeTest(w.csrs[t], w.core.h.plan[o].identifiers)
    ensures w.csrs[t].cns != [] || w.csrs[t].dns != []
    ensures Bears(LeafOf(w.csrs[t], DnsCn), w.core.h.plan[o].identifiers)
  {
    hide Reachable, FinalizeTest, CaAccepts, LowerAll, Lower;
    PlanRepeatsNothing(w.core, o);
    LeafBearsTheNames(w.csrs[t], {}, w.core.h.plan[o].identifiers);
  }

  lemma FetchTraced(w: World, t: nat, row: nat)
    requires Traced(w) && MayFetch(w, t, row)
    ensures Kept(FetchStep(w, t, row))
  {
    hide Reachable, Issuance.Reachable, Bears, Continues, AllBear, AllPermitted, StepJob, StepChallenge, StepGc,
         Issuance.Succeeded;
    var w' := FetchStep(w, t, row);
    assert Carries(w, t);
    Issuance.LookupFindsExactlyWhen(w.ca, w.signed[t], row);
    Unchanged(w, w');
    PolicyKept(w, w');
    BearsStays(w, w');
    OneThreadCarries(w, t, w');
  }

  lemma StoreTraced(w: World, t: nat, ok: bool)
    requires Traced(w) && t in w.core.threads && w.core.threads[t].FinStore?
    ensures Kept(StepWorld(w, t, ok))
  {
    hide Reachable, FinalizeTest, SignedFor, Continues, AllPermitted, StepJob, StepChallenge, StepGc;
    var w' := StepWorld(w, t, ok);
    assert Carries(w, t);
    CertificatesAreOld(w.core);
    Unchanged(w, w');
    PolicyKept(w, w');
    hide ReceiptFor;
    OneThreadCarries(w, t, w');
    forall k | k in w'.core.h.certificates
      ensures k in w'.receipts && ReceiptFor(w', w'.receipts[k], w'.core.h.certificates[k])
    {
      ReceiptStays(w, w', w'.receipts[k], w'.core.h.certificates[k]);
    }
  }

  lemma CertificatesAreOld(s: State)
    requires Reachable(s)
    ensures s.nextCert !in s.h.certificates
  {
    hide Reachable, RowsOk, CleanOk, OrdersOk, CommittedOk, KnownOk, GcOk, PlanOk, IssueCountOk, ReadyCountOk,
         ClaimCountOk, DecisionsOk, UndecidedOk, PromotersOk, VerdictsOk, ShapesOk, TrialsOk, AttemptsOk;
    ReachableOk(s);
  }

  lemma StepTraced(w: World, t: nat, ok: bool)
    requires Traced(w) && t in w.core.threads
    ensures Traced(StepWorld(w, t, ok))
  {
    hide Reachable, Issuance.Reachable, Kept, Passes, Next;
    ReachableNext(w.core, Step(t, ok && Passes(w, t)));
    if IsFinalize(w.core.threads[t]) { FinalizeStepTraced(w, t, ok); } else { OtherStepTraced(w, t, ok); }
  }

  lemma FinalizeStepTraced(w: World, t: nat, ok: bool)
    requires Traced(w) && t in w.core.threads && IsFinalize(w.core.threads[t])
    ensures Kept(StepWorld(w, t, ok))
  {
    hide Traced, Kept, StepWorld;
    match w.core.threads[t]
    case FinLookup(_, _) => LookupTraced(w, t, ok);
    case FinClaim(_) => ClaimTraced(w, t, ok);
    case FinWrite(_, _, _) => ClaimTraced(w, t, ok);
    case FinIssue(_) => CommandFailsTraced(w, t, ok);
    case FinFetch(_) => CommandFailsTraced(w, t, ok);
    case FinStore(_) => StoreTraced(w, t, ok);
  }

  lemma OtherStepTraced(w: World, t: nat, ok: bool)
    requires Traced(w) && t in w.core.threads && !IsFinalize(w.core.threads[t])
    ensures Kept(StepWorld(w, t, ok))
  {
    hide Reachable, Issuance.Reachable, Passes, Next, Aside, Continues, AllCarry, AllBear, AllPermitted;
    OthersAside(w.core, t, ok && Passes(w, t));
    Unchanged(w, StepWorld(w, t, ok));
    AsideKeeps(w, t, StepWorld(w, t, ok));
  }

  // ---------------------------------------------------------------- every run

  lemma AskedIsPermitted(ids: seq<Identifier>, policy: Policy, name: string)
    requires AllChecked(ids, policy) && name in FirstOccurrences(ids)
    ensures Permitted(name, policy)
  {
    assert name in Elements(FirstOccurrences(ids));
    var i :| 0 <= i < |ids| && Lower(ids[i].value) == name;
    assert ids[i] in ids;
    hide Lower, LowerDnsName, AllowedBy;
  }

  lemma AskTraced(w: World, account: nat, ids: seq<Identifier>, policy: Policy)
    requires Traced(w) && AllChecked(ids, policy)
    ensures Kept(Act(w, Ask(account, ids, policy)))
  {
    hide Reachable, Issuance.Reachable, AllChecked, AllPermitted, AllCarry, AllBear, InsertOrder, FirstOccurrences;
    NextOrderIsNew(w.core);
    NamesAskedFor(ids, policy);
    NewOrderCarries(w, account, ids, policy);
    NewOrderPermitted(w, account, ids, policy);
  }

  lemma NewOrderCarries(w: World, account: nat, ids: seq<Identifier>, policy: Policy)
    requires Kept(w) && w.core.nextOrder !in w.core.h.plan && AllChecked(ids, policy) && |FirstOccurrences(ids)| > 0
    ensures AllCarry(Act(w, Ask(account, ids, policy))) && AllBear(Act(w, Ask(account, ids, policy)))
  {
    hide AllChecked, FinalizeTest, Bears, AllPermitted, InsertOrder, FirstOccurrences, NamesMatch;
  }

  lemma NewOrderPermitted(w: World, account: nat, ids: seq<Identifier>, policy: Policy)
    requires Kept(w) && w.core.nextOrder !in w.core.h.plan && AllChecked(ids, policy) && |FirstOccurrences(ids)| > 0
    ensures AllPermitted(Act(w, Ask(account, ids, policy)))
  {
    hide AllChecked, Permitted, AllCarry, AllBear, InsertOrder, FirstOccurrences, NamesMatch;
    forall name <- FirstOccurrences(ids) ensures Permitted(name, policy) { AskedIsPermitted(ids, policy, name); }
  }

  lemma NamesAskedFor(ids: seq<Identifier>, policy: Policy)
    requires AllChecked(ids, policy)
    ensures |FirstOccurrences(ids)| > 0
  {
    hide Lower;
    assert Lower(ids[0].value) in Elements(FirstOccurrences(ids));
  }

  lemma NextOrderIsNew(s: State)
    requires Reachable(s)
    ensures s.nextOrder !in s.h.plan
  {
    hide Reachable, RowsOk, CleanOk, OrdersOk, CommittedOk, KnownOk, GcOk, CertificatesOk, IssueCountOk, ReadyCountOk,
         ClaimCountOk, DecisionsOk, UndecidedOk, PromotersOk, VerdictsOk, ShapesOk, TrialsOk, AttemptsOk;
    ReachableOk(s);
  }

  lemma IdleAside(s: State, e: Event, t: nat)
    requires e.Tick? || e.Drop? || e.Step? || e.Start?
    requires (e.Step? ==> e.tid !in s.threads) && (e.Start? ==> e.tid == t)
    ensures Aside(s, t, Next(s, e))
  {
  }

  lemma CaTraced(w: World, e: Issuance.Event, leaf: Leaf)
    requires Traced(w) && (e.Commit? && e.tid in w.ca.threads ==> w.ca.threads[e.tid].cn == leaf.cn)
    ensures Traced(CaNext(w, e, leaf))
  {
    hide Reachable, Issuance.Reachable, Issuance.Next, Continues, AllCarry, AllBear, AllPermitted, NamesMatch;
    Issuance.ReachableNext(w.ca, e);
    CaContinues(w, e, leaf);
    AsideKeeps(w, 0, CaNext(w, e, leaf));
  }

  lemma ActTraced(w: World, a: Action)
    requires Traced(w)
    ensures Traced(Act(w, a))
  {
    hide Reachable, Issuance.Reachable, Kept, Next, Issuance.Next, Aside, AllChecked, MaySign, MayFetch, Continues,
         SameRecords;
    match a
    case Ask(account, ids, policy) =>
      if AllChecked(ids, policy) {
        ReachableNext(w.core, NewOrder(account, FirstOccurrences(ids)));
        AskTraced(w, account, ids, policy);
      }
    case Finalize(t, account, o, csr) => if t !in w.core.threads { FinalizeTraced(w, a); }
    case Sign(t, command, checking, signing, reported) =>
      if MaySign(w, t, command) {
        SignTraced(w, t, command, checking, signing, reported);
        ReachableNext(w.core, Step(t, |Act(w, a).ca.index| > |w.ca.index| && reported));
        Issuance.ReachableNext(w.ca, Issuance.Commit(command, checking, signing));
      }
    case Fetch(t, row) =>
      if MayFetch(w, t, row) {
        FetchTraced(w, t, row);
        ReachableNext(w.core, Step(t, true));
      }
    case Ca(e, leaf) =>
      if !(e.Commit? && e.tid in w.ca.threads && w.ca.threads[e.tid].cn != leaf.cn) { CaTraced(w, e, leaf); }
    case Do(e) =>
      if e.Step? && e.tid in w.core.threads { StepTraced(w, e.tid, e.ok); }
      else if !(e.NewOrder? || (e.Start? && e.thread.FinLookup?)) { IdleTraced(w, e); }
  }

  lemma FinalizeTraced(w: World, a: Action)
    requires Traced(w) && a.Finalize? && a.tid !in w.core.threads
    ensures Traced(Act(w, a))
  {
    hide Reachable, Issuance.Reachable, Next, Aside, Continues, AllCarry, AllBear, AllPermitted;
    ReachableNext(w.core, Start(a.tid, FinLookup(a.account, a.o)));
    IdleAside(w.core, Start(a.tid, FinLookup(a.account, a.o)), a.tid);
    Unchanged(w, Act(w, a));
    AsideKeeps(w, a.tid, Act(w, a));
  }

  lemma IdleTraced(w: World, e: Event)
    requires Traced(w) && !e.NewOrder? && !(e.Start? && e.thread.FinLookup?) && !(e.Step? && e.tid in w.core.threads)
    ensures Traced(Act(w, Do(e)))
  {
    hide Reachable, Issuance.Reachable, Next, Aside, Continues, AllCarry, AllBear, AllPermitted;
    var t := if e.Start? then e.tid else 0;
    ReachableNext(w.core, e);
    IdleAside(w.core, e, t);
    Unchanged(w, Act(w, Do(e)));
    AsideKeeps(w, t, Act(w, Do(e)));
  }

  lemma {:induction false} ReachedInIsTraced(w: World, steps: nat)
    requires ReachedIn(w, steps)
    ensures Traced(w)
    decreases steps
  {
    hide Traced, Act;
    if steps == 0 {
      BeginTraced(w.core.now, w.ca.now);
    } else {
      var before: World, a: Action :| ReachedIn(before, steps - 1) && w == Act(before, a);
      ReachedInIsTraced(before, steps - 1);
      ActTraced(before, a);
    }
  }

  lemma BeginTraced(now: int, caNow: int)
    ensures Traced(Begin(now, caNow))
  {
    InitReachable(now);
    assert Issuance.Init(caNow) == Issuance.Run(Issuance.Init(caNow), []);
  }

  /** The receipt of an order's certificate. */
  predicate Received(w: World, o: nat) {
    && o in w.core.db.orders && w.core.db.orders[o].certId.Some? && w.core.db.orders[o].certId.value in w.receipts
    && w.receipts[w.core.db.orders[o].certId.value].signed < |w.names|
    && w.receipts[w.core.db.orders[o].certId.value].fetched < |w.names|
  }

  function ReceiptOf(w: World, o: nat): Receipt
    requires Received(w, o)
  {
    w.receipts[w.core.db.orders[o].certId.value]
  }

  /** The names in the certificate the client downloads. */
  function Served(w: World, o: nat): Leaf
    requires Received(w, o)
  {
    w.names[ReceiptOf(w, o).fetched]
  }

  lemma ReceivedReceipt(w: World, k: nat, o: nat)
    requires Kept(w) && k in w.core.h.certificates && w.core.h.certificates[k] == o && o in w.core.h.plan
    ensures k in w.receipts && w.receipts[k].signed < |w.names| && w.receipts[k].fetched < |w.names|
    ensures Bears(w.names[w.receipts[k].signed], w.core.h.plan[o].identifiers)
    ensures w.names[w.receipts[k].fetched].cn == w.names[w.receipts[k].signed].cn
    ensures w.receipts[k].fetched == w.receipts[k].signed <==> w.receipts[k].stood
  {
    hide Bears, AllCarry, AllPermitted;
    assert ReceiptFor(w, w.receipts[k], o);
  }

  /**
   The CA signed for a valid order a certificate that carries, case aside, exactly
   its identifiers: each a host name the account's policy allowed when it was
   ordered, each with its valid authorization and the one challenge that proved
   control of it, by DNS for a wildcard. The certificate served has the same common
   name, and is that one exactly when that one was live at the fetch and without a
   live successor.
   */
  lemma ValidOrderEndToEnd(w: World, o: nat)
    requires Reached(w) && o in w.core.db.orders && w.core.db.orders[o].status == Valid
    ensures Received(w, o)
    ensures Bears(w.names[ReceiptOf(w, o).signed], w.core.db.orders[o].identifiers)
    ensures Served(w, o).cn == w.names[ReceiptOf(w, o).signed].cn
    ensures ReceiptOf(w, o).fetched == ReceiptOf(w, o).signed <==> ReceiptOf(w, o).stood
    ensures o in w.policies
    ensures forall i :: 0 <= i < |w.core.db.orders[o].identifiers| ==>
              Controlled(w.core, o, i) && Permitted(w.core.db.orders[o].identifiers[i], w.policies[o])
  {
    hide Reachable, Issuance.Reachable, Bears, Permitted, Controlled, ReachedIn, HasCertificate, AllCarry, AllBear;
    var steps: nat :| ReachedIn(w, steps);
    ReachedInIsTraced(w, steps);
    PlanIsTheRow(w.core, o);
    ValidOrderHasItsCertificate(w.core, o);
    CertificateIsOf(w.core.db.orders[o].certId, o, w.core.h.certificates);
    ReceivedReceipt(w, w.core.db.orders[o].certId.value, o);
    ProofOfControl(w.core, o);
  }

  lemma CertificateIsOf(certId: Option<nat>, o: nat, certificates: map<nat, nat>)
    requires HasCertificate(certId, o, certificates)
    ensures certId.Some? && certId.value in certificates && certificates[certId.value] == o
  {
  }

  lemma ProvedIdentifier(w: World, o: nat, name: string) returns (i: nat)
    requires Reached(w) && o in w.core.db.orders && w.core.db.orders[o].status == Valid
    requires name in w.core.db.orders[o].identifiers
    ensures i < |w.core.db.orders[o].identifiers| && w.core.db.orders[o].identifiers[i] == name && Controlled(w.core, o, i)
  {
    hide Reached, Controlled, Permitted, Bears, Received;
    ValidOrderEndToEnd(w, o);
    i :| 0 <= i < |w.core.db.orders[o].identifiers| && w.core.db.orders[o].identifiers[i] == name;
  }

  /** Of a certificate that stood at its fetch, every DNS name is an identifier that was proved. */
  lemma EveryNameWasProved(w: World, o: nat, d: string) returns (i: nat)
    requires Reached(w) && o in w.core.db.orders && w.core.db.orders[o].status == Valid
    requires Received(w, o) && ReceiptOf(w, o).stood && d in Served(w, o).dns
    ensures i < |w.core.db.orders[o].identifiers| && w.core.db.orders[o].identifiers[i] == Lower(d)
    ensures Controlled(w.core, o, i)
  {
    hide Reached, Controlled, Lower, Permitted;
    ValidOrderEndToEnd(w, o);
    assert Lower(d) in LowerAll(Served(w, o).dns);
    assert Lower(d) in Elements(w.core.db.orders[o].identifiers);
    i := ProvedIdentifier(w, o, Lower(d));
  }

  /** Whichever certificate is served, its common name was proved. */
  lemma CommonNameWasProved(w: World, o: nat) returns (i: nat)
    requires Reached(w) && o in w.core.db.orders && w.core.db.orders[o].status == Valid
    ensures Received(w, o)
    ensures i < |w.core.db.orders[o].identifiers| && w.core.db.orders[o].identifiers[i] == Lower(Served(w, o).cn)
    ensures Controlled(w.core, o, i)
  {
    hide Reached, Controlled, Lower, Permitted;
    ValidOrderEndToEnd(w, o);
    i := ProvedIdentifier(w, o, Lower(Served(w, o).cn));
  }

  /** In every run, a fetch gets the certificate just signed exactly while it is live and no successor is. */
  lemma FetchGetsTheSignedExactlyWhen(w: World, t: nat, row: nat)
    requires Reached(w) && MayFetch(w, t, row)
    ensures row == w.signed[t] <==>
              Issuance.Live(w.ca.index[w.signed[t]], w.ca.now) && !Issuance.Succeeded(w.ca, w.signed[t])
  {
    hide Reachable, Issuance.Reachable, ReachedIn, Issuance.Succeeded, Issuance.Found, Bears, AllBear, AllPermitted;
    var steps: nat :| ReachedIn(w, steps);
    ReachedInIsTraced(w, steps);
    assert Carries(w, t);
    Issuance.LookupFindsExactlyWhen(w.ca, w.signed[t], row);
  }

  /** A fetch that comes before the signed certificate's own renewal window gets it exactly when it is not revoked. */
  lemma EarlyFetchExactlyUnrevoked(w: World, t: nat, row: nat)
    requires Reached(w) && MayFetch(w, t, row)
    requires Issuance.Blocks(w.ca.index[w.signed[t]].(revoked := false), w.ca.now)
    ensures row == w.signed[t] <==> !w.ca.index[w.signed[t]].revoked
  {
    hide Reachable, Issuance.Reachable, ReachedIn, Issuance.Blocks, Issuance.Found, Bears, AllBear, AllPermitted;
    var steps: nat :| ReachedIn(w, steps);
    ReachedInIsTraced(w, steps);
    assert Carries(w, t);
    Issuance.OutsideTheWindowExactlyUnrevoked(w.ca, w.signed[t], row);
  }
}
