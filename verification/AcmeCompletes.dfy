/**
 Runs that end with a valid order. For every list of identifiers the frontend
 accepts and every CSR that finalize and the CA accept for them, one serves exactly
 those names. But the certificate is fetched by its common name after it is signed,
 so two others serve a certificate that was not signed for the order: one revoked
 in between gives way to an older one, and one in its renewal window to a newer one.
 */
module AcmeCompletes {
  import opened Strings
  import opened AcmeTables
  import opened AcmeProtocol
  import opened AcmeSafety
  import opened AcmeBound
  import opened AcmeEndToEnd
  import opened Names
  import Issuance

  lemma ReachedNext(w: World, a: Action)
    requires Reached(w)
    ensures Reached(Act(w, a))
  {
    hide Act;
    var steps: nat :| ReachedIn(w, steps);
    assert ReachedIn(Act(w, a), steps + 1);
  }

  // ---------------------------------------------------------------- steps that carry no contents

  /** No finalize is in flight. */
  predicate Quiet(s: State) {
    forall t :: t in s.threads ==> !IsFinalize(s.threads[t])
  }

  /** Of a quiet state, a challenge request's step is the same with or without contents. */
  lemma PlainStep(w: World, t: nat) returns (w': World)
    requires Reached(w) && Quiet(w.core)
    ensures Reached(w') && Quiet(w'.core) && w' == w.(core := Next(w.core, Step(t, true)))
  {
    hide Next;
    w' := Act(w, Do(Step(t, true)));
    ReachedNext(w, Do(Step(t, true)));
    StepIsQuiet(w.core, t);
  }

  lemma StepIsQuiet(s: State, t: nat)
    requires Quiet(s)
    ensures Quiet(Next(s, Step(t, true)))
  {
    hide StepJob, StepFinalize, StepGc, StepChallenge;
    if t in s.threads {
      match s.threads[t]
      case Job(_, _, _, _) => JobThreads(s, t, true);
      case Lookup(_, _) => ChallengeIsQuiet(s, t);
      case LookupAuthz(_, _, _) => ChallengeIsQuiet(s, t);
      case Claiming(_, _, _) => ChallengeIsQuiet(s, t);
      case GcOrders(_) => GcIsQuiet(s, t);
      case GcAuthzs(_) => GcIsQuiet(s, t);
      case GcChallenges => GcIsQuiet(s, t);
    }
  }

  lemma ChallengeIsQuiet(s: State, t: nat)
    requires Quiet(s) && t in s.threads && (s.threads[t].Lookup? || s.threads[t].LookupAuthz? || s.threads[t].Claiming?)
    ensures Quiet(StepChallenge(s, t, true))
  {
    hide Claimable;
  }

  lemma GcIsQuiet(s: State, t: nat)
    requires Quiet(s) && t in s.threads && (s.threads[t].GcOrders? || s.threads[t].GcAuthzs? || s.threads[t].GcChallenges?)
    ensures Quiet(StepGc(s, t, true))
  {
  }

  lemma PlainThreeSteps(w: World, t: nat) returns (w': World)
    requires Reached(w) && Quiet(w.core)
    ensures Reached(w') && Quiet(w'.core) && w' == w.(core := ThreeSteps(w.core, t))
  {
    hide Reached, Quiet, Next;
    var w1 := PlainStep(w, t);
    var w2 := PlainStep(w1, t);
    w' := PlainStep(w2, t);
  }

  lemma PlainStart(w: World, t: nat, account: nat, c: ChallengeId) returns (w': World)
    requires Reached(w) && Quiet(w.core)
    ensures Reached(w') && Quiet(w'.core) && w' == w.(core := Next(w.core, Start(t, Lookup(account, c))))
  {
    w' := Act(w, Do(Start(t, Lookup(account, c))));
    ReachedNext(w, Do(Start(t, Lookup(account, c))));
  }

  // ---------------------------------------------------------------- up to "ready"

  /** The frontend has not begun; the CA may have. */
  ghost predicate Fresh(w: World) {
    Reached(w) && w.core == Init(0)
  }

  lemma Asked(w0: World, ids: seq<Identifier>, policy: Policy) returns (w: World)
    requires Fresh(w0) && AllChecked(ids, policy)
    ensures Reached(w) && Quiet(w.core) && Deciding(w.core, FirstOccurrences(ids), 0) && SameCa(w0, w)
  {
    hide AllChecked, Deciding, FirstOccurrences;
    NamesAskedFor(ids, policy);
    w := Act(w0, Ask(0, ids, policy));
    ReachedNext(w0, Ask(0, ids, policy));
    Opens(FirstOccurrences(ids));
  }

  predicate SameCa(w: World, w': World) {
    w'.ca == w.ca && w'.names == w.names
  }

  lemma {:induction false} DecidedWorld(w0: World, ids: seq<Identifier>, policy: Policy, k: nat) returns (w: World)
    requires Fresh(w0) && AllChecked(ids, policy) && k <= |FirstOccurrences(ids)|
    ensures Reached(w) && Quiet(w.core) && Deciding(w.core, FirstOccurrences(ids), k) && SameCa(w0, w)
  {
    hide AllChecked, Deciding, Reached, Quiet, FirstOccurrences, Next;
    if k == 0 {
      w := Asked(w0, ids, policy);
    } else {
      var w1 := DecidedWorld(w0, ids, policy, k - 1);
      var s := Decides(w1.core, FirstOccurrences(ids), k - 1);
      var w2 := PlainStart(w1, k - 1, 0, C(k - 1));
      var w3 := PlainThreeSteps(w2, k - 1);
      w := PlainThreeSteps(w3, k - 1);
    }
  }

  /** Ready to be finalized, with thread `f` free. */
  ghost predicate ReadyFor(w: World, names: seq<string>, f: nat) {
    && Reached(w) && f !in w.core.threads && 0 in w.core.db.orders
    && w.core.db.orders[0].status == Ready && w.core.db.orders[0].account == 0
    && w.core.db.orders[0].identifiers == names && w.core.db.orders[0].expires > w.core.now
  }

  lemma Promoted(w0: World, ids: seq<Identifier>, policy: Policy) returns (w: World)
    requires Fresh(w0) && AllChecked(ids, policy)
    ensures ReadyFor(w, FirstOccurrences(ids), |FirstOccurrences(ids)|) && SameCa(w0, w)
  {
    hide AllChecked, Fresh, Reached, Quiet, FirstOccurrences, Next, Deciding, Reading, ReadyFor;
    var names := FirstOccurrences(ids);
    NamesAskedFor(ids, policy);
    var w1 := DecidedWorld(w0, ids, policy, |names|);
    NowTheyRead(w1.core, names);
    Reads(w1.core, names, 0);
    var w2 := PlainStep(w1, 0);
    w := PlainStep(w2, 0);
    BecomesReady(w2, names, w);
  }

  lemma BecomesReady(w: World, names: seq<string>, w': World)
    requires Reading(w.core, names, 1) && |names| > 0 && w' == w.(core := Next(w.core, Step(0, true))) && Reached(w')
    ensures ReadyFor(w', names, |names|)
  {
    hide Reachable, Reached, Next, AllValid;
    ReadyIsWritten(w.core, 0);
    RowIsPlanned(w.core);
  }

  lemma RowIsPlanned(s: State)
    requires Reachable(s) && 0 in s.db.orders
    ensures 0 in s.h.plan && s.db.orders[0].identifiers == s.h.plan[0].identifiers
  {
    PlanIsTheRow(s, 0);
  }

  // ---------------------------------------------------------------- up to the signature

  lemma LooksUp(w: World, names: seq<string>, f: nat, csr: Csr) returns (w': World)
    requires ReadyFor(w, names, f) && FinalizeTest(csr, names)
    ensures Reached(w') && w'.core == w.core.(threads := w.core.threads[f := FinClaim(0)]) && SameCa(w, w')
    ensures f in w'.csrs && w'.csrs[f] == csr
  {
    hide FinalizeTest, Reached, StepJob, StepChallenge, StepGc;
    var w1 := Act(w, Finalize(f, 0, 0, csr));
    ReachedNext(w, Finalize(f, 0, 0, csr));
    assert w1.core == w.core.(threads := w.core.threads[f := FinLookup(0, 0)]);
    w' := Act(w1, Do(Step(f, true)));
    ReachedNext(w1, Do(Step(f, true)));
    assert w.core.threads[f := FinLookup(0, 0)][f := FinClaim(0)] == w.core.threads[f := FinClaim(0)];
  }

  /** Thread `f` is at `thread` of order 0, which is for these names. */
  ghost predicate At(w: World, f: nat, thread: Thread, names: seq<string>) {
    && Reached(w) && f in w.core.threads && w.core.threads[f] == thread
    && 0 in w.core.db.orders && w.core.db.orders[0].identifiers == names
  }

  lemma ClaimsOrder(w: World, f: nat, names: seq<string>) returns (w': World)
    requires At(w, f, FinClaim(0), names) && f in w.csrs
    requires w.core.db.orders[0].status == Ready && w.core.db.orders[0].expires > w.core.now
    ensures At(w', f, FinIssue(0), names) && w'.csrs == w.csrs && SameCa(w, w')
  {
    hide Reached, StepJob, StepChallenge, StepGc;
    w' := Act(w, Do(Step(f, true)));
    ReachedNext(w, Do(Step(f, true)));
  }

  /** From a fresh frontend to the call of the CA, which has not moved. */
  lemma Finalizes(w0: World, ids: seq<Identifier>, policy: Policy, csr: Csr) returns (w: World, f: nat)
    requires Fresh(w0) && AllChecked(ids, policy) && FinalizeTest(csr, FirstOccurrences(ids))
    ensures At(w, f, FinIssue(0), FirstOccurrences(ids)) && f in w.csrs && w.csrs[f] == csr && SameCa(w0, w)
  {
    hide Fresh, AllChecked, FinalizeTest, Reached, FirstOccurrences;
    var w1 := Promoted(w0, ids, policy);
    f := |FirstOccurrences(ids)|;
    var w2 := LooksUp(w1, FirstOccurrences(ids), f, csr);
    w := ClaimsOrder(w2, f, FirstOccurrences(ids));
  }

  // ---------------------------------------------------------------- the CA's part

  lemma CaActs(w: World, e: Issuance.Event, leaf: Leaf) returns (w': World)
    requires Reached(w) && !(e.Commit? && e.tid in w.ca.threads && w.ca.threads[e.tid].cn != leaf.cn)
    ensures Reached(w') && w' == CaNext(w, e, leaf)
  {
    hide Issuance.Next;
    w' := Act(w, Ca(e, leaf));
    ReachedNext(w, Ca(e, leaf));
  }

  /** Another command of the CA issues for `leaf`, with no nonce, and `seconds` pass. */
  lemma OtherIssues(w: World, leaf: Leaf, life: nat, seconds: nat) returns (w': World)
    requires Reached(w) && |w.names| == |w.ca.index| && w.ca.threads == map[] && life >= Issuance.MIN_LIFE
    requires !Issuance.Blocked(w.ca.index, leaf.cn, SERVER, w.ca.now)
    ensures Reached(w') && w'.core == w.core && w'.csrs == w.csrs && w'.signed == w.signed
    ensures w'.names == w.names + [leaf] && w'.ca.threads == map[] && w'.ca.rows == w.ca.rows && w'.ca.printed == w.ca.printed
    ensures w'.ca.now == w.ca.now + seconds
    ensures w'.ca.index == w.ca.index + [Issuance.Row(leaf.cn, SERVER, w.ca.now, w.ca.now + life, false)]
  {
    hide Reached;
    var r := Issuance.Request(leaf.cn, SERVER, life, None);
    var w1 := CaActs(w, Issuance.Begin(0, r), leaf);
    assert w1.ca == w.ca.(threads := map[0 := r]);
    var w2 := CaActs(w1, Issuance.Commit(0, 0, 0), leaf);
    assert w2.ca.threads == map[];
    w' := CaActs(w2, Issuance.Tick(seconds), leaf);
  }

  const VOUCHER: Issuance.Voucher := Issuance.Voucher("acme", "nonce")

  /** The frontend's own identity has a nonce and its `sign` waits for the lock. */
  lemma SignWaits(w: World, cn: string, life: nat) returns (w': World)
    requires Reached(w) && w.ca.threads == map[] && w.ca.rows == map[] && w.ca.printed == map[] && cn != ""
    requires life >= Issuance.MIN_LIFE && !Issuance.Blocked(w.ca.index, cn, SERVER, w.ca.now)
    ensures Reached(w') && w'.core == w.core && w'.csrs == w.csrs && w'.names == w.names
    ensures w'.ca.index == w.ca.index && w'.ca.now == w.ca.now
    ensures w'.ca.threads == map[0 := Issuance.Request(cn, SERVER, life, Some(VOUCHER))]
    ensures Issuance.Passes(w'.ca, w'.ca.threads[0], 0)
  {
    hide Reached, Issuance.Blocked;
    var r, leaf := Issuance.Request(cn, SERVER, life, Some(VOUCHER)), Leaf(cn, {}, {}, {}, {});
    var w1 := CaActs(w, Issuance.Enroll("acme"), leaf);
    var w2 := CaActs(w1, Issuance.GetNonce("acme", "nonce"), leaf);
    assert w2.ca.rows["acme"] == Issuance.Rotated("nonce", w.ca.now);
    w' := CaActs(w2, Issuance.Begin(0, r), leaf);
  }

  /** `sign` adds the certificate for the CSR of thread `f`. */
  lemma Signs(w: World, f: nat, names: seq<string>, life: nat) returns (w': World)
    requires At(w, f, FinIssue(0), names) && f in w.csrs && CaAccepts(w.csrs[f], DnsCn, {})
    requires |w.names| == |w.ca.index| && w.ca.threads == map[] && w.ca.rows == map[] && w.ca.printed == map[]
    requires life >= Issuance.MIN_LIFE && !Issuance.Blocked(w.ca.index, CnFor(w.csrs[f]), SERVER, w.ca.now)
    ensures At(w', f, FinFetch(0), names) && f in w'.signed && w'.signed[f] == |w.ca.index|
    ensures w'.names == w.names + [LeafOf(w.csrs[f], DnsCn)] && w'.ca.threads == map[] && w'.ca.now == w.ca.now
    ensures w'.ca.index
         == w.ca.index + [Issuance.Row(CnFor(w.csrs[f]), SERVER, w.ca.now, w.ca.now + life, false)]
  {
    hide Reached, CaAccepts, Issuance.Blocked, Issuance.Passes;
    var cn := CnFor(w.csrs[f]);
    assert cn != "" by { AcceptedCn(w.csrs[f], {}); EmptyLower(cn); }
    var w1 := SignWaits(w, cn, life);
    w' := Act(w1, Sign(f, 0, 0, 0, true));
    ReachedNext(w1, Sign(f, 0, 0, 0, true));
    Commits(w1.ca, 0);
    hide Issuance.Next;
    ReportedSign(w1, f);
    assert w'.ca.threads == map[];
  }

  lemma EmptyLower(s: string)
    requires Lower(s) != ""
    ensures s != ""
  {
  }

  lemma Commits(s: Issuance.State, t: nat)
    requires t in s.threads && Issuance.Passes(s, s.threads[t], 0)
    ensures var s' := Issuance.Next(s, Issuance.Commit(t, 0, 0));
            && s'.index == s.index + [Issuance.Issued(s.threads[t], s.now)] && s'.threads == s.threads - {t} && s'.now == s.now
  {
    hide Issuance.Passes;
  }

  lemma ReportedSign(w: World, f: nat)
    requires f in w.core.threads && w.core.threads[f] == FinIssue(0)
    ensures Next(w.core, Step(f, true)).db == w.core.db && f in Next(w.core, Step(f, true)).threads
    ensures Next(w.core, Step(f, true)).threads[f] == FinFetch(0)
  {
    hide StepJob, StepChallenge, StepGc;
  }

  // ---------------------------------------------------------------- from the fetch to the end

  lemma Fetches(w: World, f: nat, names: seq<string>, row: nat) returns (w': World)
    requires At(w, f, FinFetch(0), names) && MayFetch(w, f, row)
    ensures At(w', f, FinStore(0), names) && w'.names == w.names
    ensures f in w'.fetched && w'.fetched[f].fetched == row && w'.fetched[f].signed == w.signed[f]
  {
    hide Reached, MayFetch, StepJob, StepChallenge, StepGc;
    w' := Act(w, Fetch(f, row));
    ReachedNext(w, Fetch(f, row));
  }

  lemma Stores(w: World, f: nat, names: seq<string>) returns (w': World, k: nat)
    requires At(w, f, FinStore(0), names) && f in w.fetched
    ensures At(w', f, FinWrite(0, Valid, Some(k)), names) && w'.names == w.names
    ensures k in w'.receipts && w'.receipts[k] == w.fetched[f]
  {
    hide Reached, StepJob, StepChallenge, StepGc;
    k := w.core.nextCert;
    w' := Act(w, Do(Step(f, true)));
    ReachedNext(w, Do(Step(f, true)));
  }

  lemma WritesValid(w: World, f: nat, names: seq<string>, k: nat) returns (w': World)
    requires At(w, f, FinWrite(0, Valid, Some(k)), names)
    ensures Reached(w') && 0 in w'.core.db.orders && w'.core.db.orders[0].status == Valid
    ensures w'.core.db.orders[0].identifiers == names && w'.core.db.orders[0].certId == Some(k)
    ensures w'.names == w.names && w'.receipts == w.receipts
  {
    hide Reached, StepJob, StepChallenge, StepGc;
    w' := Act(w, Do(Step(f, true)));
    ReachedNext(w, Do(Step(f, true)));
  }

  /** Whatever the fetch finds, the order becomes valid with it. */
  lemma Serves(w: World, f: nat, names: seq<string>, row: nat) returns (w': World)
    requires At(w, f, FinFetch(0), names) && MayFetch(w, f, row) && row < |w.names|
    ensures Reached(w') && 0 in w'.core.db.orders && w'.core.db.orders[0].status == Valid
    ensures w'.core.db.orders[0].identifiers == names && w'.names == w.names
    ensures Received(w', 0) && ReceiptOf(w', 0).fetched == row && ReceiptOf(w', 0).signed == w.signed[f]
  {
    hide Reached, MayFetch;
    assert w.signed[f] < |w.names| by { SignedIsNamed(w, f, row); }
    var w1 := Fetches(w, f, names, row);
    var w2, k := Stores(w1, f, names);
    w' := WritesValid(w2, f, names, k);
  }

  lemma SignedIsNamed(w: World, f: nat, row: nat)
    requires MayFetch(w, f, row)
    ensures f in w.signed && w.signed[f] < |w.names|
  {
  }

  /** Some run answers the request for `ids`, finalized with this CSR, with a certificate of exactly those names. */
  lemma EveryCheckedOrderCanBeIssued(ids: seq<Identifier>, policy: Policy, csr: Csr) returns (w: World)
    requires AllChecked(ids, policy) && FinalizeTest(csr, FirstOccurrences(ids)) && CaAccepts(csr, DnsCn, {})
    ensures Reached(w) && 0 in w.core.db.orders && w.core.db.orders[0].status == Valid
    ensures Received(w, 0) && Bears(Served(w, 0), FirstOccurrences(ids))
  {
    hide AllChecked, FinalizeTest, CaAccepts, Reached, Bears, FirstOccurrences, Controlled, Permitted;
    var w0 := Begin(0, 0);
    BeginIsFresh();
    var w1, f := Finalizes(w0, ids, policy, csr);
    var w2 := Signs(w1, f, FirstOccurrences(ids), 1000);
    w := Serves(w2, f, FirstOccurrences(ids), 0);
    ValidOrderEndToEnd(w, 0);
  }

  lemma BeginIsFresh()
    ensures Fresh(Begin(0, 0))
  {
    assert ReachedIn(Begin(0, 0), 0);
  }

  /** Revoking the newer of two live certificates leaves the older one to be found. */
  lemma RevokesSecond(w: World, f: nat, names: seq<string>, older: Leaf) returns (w': World)
    requires At(w, f, FinFetch(0), names) && f in w.signed && w.signed[f] == 1 && |w.names| == |w.ca.index| == 2
    requires w.names[0] == older && w.names[1].cn == older.cn
    requires Issuance.IsFor(w.ca.index[0], older.cn, SERVER) && Issuance.Live(w.ca.index[0], w.ca.now)
    requires Issuance.Live(w.ca.index[1], w.ca.now)
    ensures At(w', f, FinFetch(0), names) && MayFetch(w', f, 0) && w'.names == w.names && w'.signed == w.signed
  {
    hide Reached;
    w' := CaActs(w, Issuance.Revoke(1), older);
  }

  /**
   An older certificate of the common name is in its renewal window, and the new one
   is revoked between `sign` and the fetch: the order becomes valid with the older
   certificate, whatever its other names.
   */
  lemma AnOlderOneCanBeServed(ids: seq<Identifier>, policy: Policy, csr: Csr, older: Leaf) returns (w: World)
    requires AllChecked(ids, policy) && FinalizeTest(csr, FirstOccurrences(ids)) && CaAccepts(csr, DnsCn, {})
    requires (csr.cns != [] || csr.dns != []) && older.cn == CnFor(csr)
    ensures Reached(w) && 0 in w.core.db.orders && w.core.db.orders[0].status == Valid
    ensures w.core.db.orders[0].identifiers == FirstOccurrences(ids) && Received(w, 0) && Served(w, 0) == older
    ensures ReceiptOf(w, 0).fetched != ReceiptOf(w, 0).signed
  {
    hide AllChecked, FinalizeTest, CaAccepts, Reached, FirstOccurrences;
    BeginIsFresh();
    var w0 := OtherIssues(Begin(0, 0), older, 1000, 700);
    var w1, f := Finalizes(w0, ids, policy, csr);
    var w2 := Signs(w1, f, FirstOccurrences(ids), 1000);
    var w3 := RevokesSecond(w2, f, FirstOccurrences(ids), older);
    w := Serves(w3, f, FirstOccurrences(ids), 0);
  }

  /** With a short life the new one is in its own window by the fetch, and another command has issued a successor. */
  lemma AYoungerOneCanBeServed(ids: seq<Identifier>, policy: Policy, csr: Csr, younger: Leaf) returns (w: World)
    requires AllChecked(ids, policy) && FinalizeTest(csr, FirstOccurrences(ids)) && CaAccepts(csr, DnsCn, {})
    requires (csr.cns != [] || csr.dns != []) && younger.cn == CnFor(csr)
    ensures Reached(w) && 0 in w.core.db.orders && w.core.db.orders[0].status == Valid
    ensures w.core.db.orders[0].identifiers == FirstOccurrences(ids) && Received(w, 0) && Served(w, 0) == younger
    ensures ReceiptOf(w, 0).fetched != ReceiptOf(w, 0).signed
  {
    hide AllChecked, FinalizeTest, CaAccepts, Reached, FirstOccurrences;
    BeginIsFresh();
    var w1, f := Finalizes(Begin(0, 0), ids, policy, csr);
    var w2 := Signs(w1, f, FirstOccurrences(ids), Issuance.MIN_LIFE);
    var w3 := CaActs(w2, Issuance.Tick(201), younger);
    var w4 := OtherIssues(w3, younger, 1000, 0);
    w := Serves(w4, f, FirstOccurrences(ids), 1);
  }
}
