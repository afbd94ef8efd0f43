/**
 The bound on requests to the CA is reached: for any list of names there is a run in which
 the order for them is sent to the CA once per name. Every request decides its
 authorization, then all of them read, then each one's "ready" is finalized.
 */
module AcmeBound {
  import opened Strings
  import opened AcmeTables
  import opened AcmeProtocol
  import opened AcmeInvariant
  import opened AcmeSafety
  import opened AcmeStatus
  import opened AcmeSchedules

  function A(i: nat): AuthzId { AuthzId(0, i) }
  function C(i: nat): ChallengeId { ChallengeId(A(i), Dns01) }

  /** Order 0 of account 0, for `names`, and nothing else in the tables. */
  ghost predicate OnlyOrder(s: State, names: seq<string>) {
    Reachable(s) && s.now == 0 && 0 in s.h.plan && s.h.plan[0].identifiers == names && OneOrderRows(s.db, |names|)
  }

  ghost predicate OneOrderRows(db: Tables, n: nat) {
    && 0 in db.orders && db.orders[0].account == 0 && db.orders[0].expires == ORDER_TTL
    && (forall i :: 0 <= i < n ==> A(i) in db.authzs && C(i) in db.challenges)
    && (forall a :: a in db.authzs ==> a.order == 0 && a.index < n && db.authzs[a].order == 0
                                       && db.authzs[a].account == 0 && db.authzs[a].expires == ORDER_TTL)
    && (forall c :: c in db.challenges ==> db.challenges[c].authz == c.authz)
  }

  /** Authorizations below `k` are valid; nothing has happened to the others. */
  ghost predicate DecidedRows(db: Tables, k: nat) {
    && (forall a :: a in db.authzs ==> db.authzs[a].status == if a.index < k then Valid else Pending)
    && (forall c :: c in db.challenges && c.authz.index >= k ==> db.challenges[c].status == Pending)
  }

  /** Requests below `k` have decided their authorization and are about to read. */
  ghost predicate Deciding(s: State, names: seq<string>, k: nat) {
    && OnlyOrder(s, names) && k <= |names| && s.h.ledger.issuances[0] == 0
    && DecidedRows(s.db, k)
    && (forall t :: t in s.threads ==> t < k)
    && (forall t :: 0 <= t < k ==> t in s.threads && s.threads[t] == Job(ReadAuthzs, C(t), A(t), 0))
  }

  /** All authorizations are valid; requests below `k` have seen it. */
  ghost predicate Reading(s: State, names: seq<string>, k: nat) {
    && OnlyOrder(s, names) && k <= |names| && s.h.ledger.issuances[0] == 0 && AllValid(s.db, 0)
    && (forall t :: t in s.threads ==> t < |names|)
    && (forall t :: 0 <= t < |names| ==>
          t in s.threads && s.threads[t] == Job(if t < k then WriteReady else ReadAuthzs, C(t), A(t), 0))
  }

  /** `k` requests have promoted the order and each time it was sent to the CA. */
  ghost predicate Issued(s: State, names: seq<string>, k: nat) {
    && OnlyOrder(s, names) && k <= |names| && s.h.ledger.issuances[0] == k
    && (forall t :: t in s.threads ==> t < |names|)
    && (forall t :: k <= t < |names| ==> t in s.threads && s.threads[t] == Job(WriteReady, C(t), A(t), 0))
  }

  lemma Opens(names: seq<string>)
    requires NoDuplicates(names) && |names| > 0
    ensures Deciding(Next(Init(0), NewOrder(0, names)), names, 0)
  {
    InitReachable(0);
    ReachableNext(Init(0), NewOrder(0, names));
    hide Reachable, AuthzIds, ChallengeIds, DecidedRows, OneOrderRows;
    RowsOpen(NewOrderRow(Init(0), 0, names));
  }

  lemma RowsOpen(order: Order)
    requires order.account == 0 && order.expires == ORDER_TTL
    ensures var db := InsertOrder(Tables(map[], map[], map[]), 0, order);
            OneOrderRows(db, |order.identifiers|) && DecidedRows(db, 0)
  {
    hide AuthzIds, ChallengeIds;
    assert forall i :: 0 <= i < |order.identifiers| ==>
        IsAuthzOf(A(i), 0, |order.identifiers|) && IsChallengeOf(C(i), 0, order, |order.identifiers|);
  }

  function ThreeSteps(s: State, t: nat): State {
    Next(Next(Next(s, Step(t, true)), Step(t, true)), Step(t, true))
  }

  /** The look-ups and the claim of request `k`. */
  lemma Claims(s: State, names: seq<string>, k: nat) returns (s': State)
    requires Deciding(s, names, k) && k < |names|
    ensures Reachable(s') && s'.threads == s.threads[k := Job(Validating, C(k), A(k), 0)]
    ensures s'.db == SetChallengeStatus(s.db, C(k), Processing) && s'.now == s.now && s'.db.authzs == s.db.authzs
    ensures s'.h.plan == s.h.plan && s'.h.ledger == s.h.ledger
    ensures s' == ThreeSteps(Next(s, Start(k, Lookup(0, C(k)))), k)
  {
    hide Reachable;
    var s1 := Next(s, Start(k, Lookup(0, C(k))));
    ReachableNext(s, Start(k, Lookup(0, C(k))));
    var s2 := Next(s1, Step(k, true));
    ReachableNext(s1, Step(k, true));
    assert s2.threads == s.threads[k := LookupAuthz(0, C(k), s.db.challenges[C(k)])];
    var s3 := Next(s2, Step(k, true));
    ReachableNext(s2, Step(k, true));
    assert s3.threads == s.threads[k := Claiming(C(k), A(k), 0)];
    assert forall d :: d in s.db.challenges && s.db.challenges[d].authz == A(k) ==> s.db.challenges[d].status == Pending;
    s' := Next(s3, Step(k, true));
    ReachableNext(s3, Step(k, true));
  }

  /** Its validation and its two status writes. */
  lemma Validates(s: State, k: nat) returns (s': State)
    requires Reachable(s) && k in s.threads && s.threads[k] == Job(Validating, C(k), A(k), 0) && A(k) in s.db.authzs
    ensures Reachable(s') && s'.threads == s.threads[k := Job(ReadAuthzs, C(k), A(k), 0)]
    ensures s'.db == SetAuthzStatus(SetChallengeStatus(s.db, C(k), Valid), A(k), Valid) && s'.now == s.now
    ensures s'.h.plan == s.h.plan && s'.h.ledger == s.h.ledger
    ensures s' == ThreeSteps(s, k)
  {
    hide Reachable, AllValid;
    var s5 := Next(s, Step(k, true));
    ReachableNext(s, Step(k, true));
    assert s5.threads == s.threads[k := Job(PassChallenge, C(k), A(k), 0)];
    var s6 := Next(s5, Step(k, true));
    ReachableNext(s5, Step(k, true));
    assert s6.threads == s.threads[k := Job(PassAuthz, C(k), A(k), 0)];
    s' := Next(s6, Step(k, true));
    ReachableNext(s6, Step(k, true));
  }

  lemma Decides(s: State, names: seq<string>, k: nat) returns (s': State)
    requires Deciding(s, names, k) && k < |names|
    ensures Deciding(s', names, k + 1) && s' == ThreeSteps(ThreeSteps(Next(s, Start(k, Lookup(0, C(k)))), k), k)
  {
    hide Reachable, OneOrderRows, DecidedRows, SetChallengeStatus, SetAuthzStatus, AllValid, Next;
    var s4 := Claims(s, names, k);
    RowsDecide(s.db, |names|, k);
    s' := Validates(s4, k);
    assert s'.threads == s.threads[k := Job(ReadAuthzs, C(k), A(k), 0)];
    assert OnlyOrder(s', names);
  }

  lemma RowsDecide(db: Tables, n: nat, k: nat)
    requires OneOrderRows(db, n) && DecidedRows(db, k) && k < n
    ensures var db' := SetAuthzStatus(SetChallengeStatus(SetChallengeStatus(db, C(k), Processing), C(k), Valid), A(k), Valid);
            OneOrderRows(db', n) && DecidedRows(db', k + 1)
    ensures A(k) in db.authzs
  {
  }

  lemma Reads(s: State, names: seq<string>, k: nat)
    requires Reading(s, names, k) && k < |names|
    ensures Reading(Next(s, Step(k, true)), names, k + 1)
  {
    hide Reachable, OneOrderRows, AllValid;
    ReachableNext(s, Step(k, true));
    ReadsNext(s, k);
    hide Next;
  }

  lemma ReadsNext(s: State, k: nat)
    requires k in s.threads && s.threads[k] == Job(ReadAuthzs, C(k), A(k), 0) && AllValid(s.db, 0)
    ensures Next(s, Step(k, true)) == Goto(s, k, Job(WriteReady, C(k), A(k), 0))
  {
    hide AllValid;
  }

  /** Request `k` writes "ready". */
  lemma WritesReady(s: State, names: seq<string>, k: nat) returns (s': State)
    requires Issued(s, names, k) && k < |names|
    ensures Reachable(s') && s'.threads == s.threads - {k} && s'.db == SetOrderStatus(s.db, 0, Ready, None)
    ensures s'.now == s.now && s'.h.plan == s.h.plan && s'.h.ledger.issuances == s.h.ledger.issuances
  {
    hide Reachable;
    s' := Next(s, Step(k, true));
    ReachableNext(s, Step(k, true));
  }

  /** A client finalizes on thread `f`. */
  lemma Finalized(s: State, f: nat) returns (s': State)
    requires Reachable(s) && f !in s.threads && 0 in s.db.orders && s.db.orders[0].status == Ready
    requires s.db.orders[0].account == 0 && s.db.orders[0].expires > s.now
    ensures Reachable(s') && s'.threads == s.threads && s'.now == s.now && s'.h.plan == s.h.plan
    ensures s'.db == SetOrderStatus(s.db, 0, Processing, s.db.orders[0].certId)
    ensures s'.h.ledger.issuances == s.h.ledger.issuances + multiset{0}
  {
    hide Reachable;
    var s2 := Next(s, Start(f, FinLookup(0, 0)));
    ReachableNext(s, Start(f, FinLookup(0, 0)));
    var s3 := Next(s2, Step(f, true));
    ReachableNext(s2, Step(f, true));
    assert s3.threads == s.threads[f := FinClaim(0)];
    var s4 := Next(s3, Step(f, true));
    ReachableNext(s3, Step(f, true));
    assert s4.threads == s.threads[f := FinIssue(0)];
    var s5 := Next(s4, Step(f, true));
    ReachableNext(s4, Step(f, true));
    assert s5.threads == s.threads[f := FinFetch(0)];
    s' := Next(s5, Drop(f));
    ReachableNext(s5, Drop(f));
    assert s'.threads == s.threads;
  }

  lemma Issues(s: State, names: seq<string>, k: nat) returns (s': State)
    requires Issued(s, names, k) && k < |names|
    ensures Issued(s', names, k + 1)
  {
    hide Reachable;
    var s1 := WritesReady(s, names, k);
    s' := Finalized(s1, |names|);
    assert s'.db.authzs == s.db.authzs && s'.db.challenges == s.db.challenges;
  }

  lemma {:induction false} Decided(names: seq<string>, k: nat) returns (s: State)
    requires NoDuplicates(names) && |names| > 0 && k <= |names|
    ensures Deciding(s, names, k)
  {
    if k == 0 {
      s := Next(Init(0), NewOrder(0, names));
      Opens(names);
    } else {
      var s0 := Decided(names, k - 1);
      s := Decides(s0, names, k - 1);
    }
  }

  lemma NowTheyRead(s: State, names: seq<string>)
    requires Deciding(s, names, |names|)
    ensures Reading(s, names, 0)
  {
    hide Reachable;
  }

  lemma {:induction false} AllRead(names: seq<string>, k: nat) returns (s: State)
    requires NoDuplicates(names) && |names| > 0 && k <= |names|
    ensures Reading(s, names, k)
  {
    hide Deciding, Reading, Next;
    if k == 0 {
      s := Decided(names, |names|);
      NowTheyRead(s, names);
    } else {
      var s0 := AllRead(names, k - 1);
      Reads(s0, names, k - 1);
      s := Next(s0, Step(k - 1, true));
    }
  }

  lemma {:induction false} IssuedTimes(names: seq<string>, k: nat) returns (s: State)
    requires NoDuplicates(names) && |names| > 0 && k <= |names|
    ensures Issued(s, names, k)
  {
    if k == 0 {
      s := AllRead(names, |names|);
    } else {
      var s0 := IssuedTimes(names, k - 1);
      s := Issues(s0, names, k - 1);
    }
  }

  lemma BoundIsReached(names: seq<string>) returns (s: State)
    requires NoDuplicates(names) && |names| > 0
    ensures Reachable(s) && 0 in s.h.plan && s.h.plan[0].identifiers == names
    ensures s.h.ledger.issuances[0] == |names|
  {
    s := IssuedTimes(names, |names|);
  }

  /** No run sends an order for these names to the CA twice. */
  ghost predicate IssuesAtMostOnce(names: seq<string>) {
    forall s, o :: Reachable(s) && o in s.h.plan && s.h.plan[o].identifiers == names ==> s.h.ledger.issuances[o] <= 1
  }

  /** At most one request to the CA in every run is a property of exactly the orders for one name. */
  lemma AtMostOnceExactlyForOneName(names: seq<string>)
    requires NoDuplicates(names) && |names| > 0
    ensures IssuesAtMostOnce(names) <==> |names| == 1
  {
    if |names| == 1 {
      forall s, o | Reachable(s) && o in s.h.plan && s.h.plan[o].identifiers == names ensures s.h.ledger.issuances[o] <= 1 {
        SingleIdentifierIssuesOnce(s, o);
      }
    } else {
      var s := BoundIsReached(names);
      assert s.h.ledger.issuances[0] > 1;
    }
    hide Reachable;
  }
  // ---------------------------------------------------------------- off the machine

  /** Every step of every run moves an order for these names as the machine allows. */
  ghost predicate FollowsItsMachine(names: seq<string>) {
    forall s, e, o :: Reachable(s) && o in s.db.orders && s.db.orders[o].identifiers == names && o in Next(s, e).db.orders ==>
      OrderMoves(s.db.orders[o].status, Next(s, e).db.orders[o].status)
  }

  /** While the order is processed, a second request that read all authorizations valid writes "ready". */
  lemma ProcessingGoesBack(names: seq<string>) returns (s: State)
    requires NoDuplicates(names) && |names| > 1
    ensures Reachable(s) && 0 in s.db.orders && s.db.orders[0].identifiers == names && s.db.orders[0].status == Processing
    ensures 0 in Next(s, Step(1, true)).db.orders && Next(s, Step(1, true)).db.orders[0].status == Ready
  {
    hide Reachable, Next, Inv;
    var s0 := IssuedTimes(names, 0);
    var s1 := WritesReady(s0, names, 0);
    s := Finalized(s1, |names|);
    ReachableOk(s);
    PlanIsRow(s, 0);
    ReadyIsWritten(s, 1);
  }

  lemma PlanIsRow(s: State, o: nat)
    requires Inv(s) && o in s.db.orders
    ensures o in s.h.plan && s.db.orders[o].identifiers == s.h.plan[o].identifiers
  {
    hide CleanOk, OrdersOk, CommittedOk, KnownOk, GcOk, CertificatesOk, IssueCountOk, ReadyCountOk, ClaimCountOk,
         DecisionsOk, UndecidedOk, PromotersOk, VerdictsOk, ShapesOk, TrialsOk, AttemptsOk;
  }

  lemma ReadyIsWritten(s: State, t: nat)
    requires t in s.threads && s.threads[t] == Job(WriteReady, C(t), A(t), 0) && 0 in s.db.orders
    ensures Next(s, Step(t, true)).db == SetOrderStatus(s.db, 0, Ready, None)
    ensures Next(s, Step(t, true)).threads == s.threads - {t} && Next(s, Step(t, true)).now == s.now
  {
  }

  /** The order machine of section 7.1.6 of RFC 8555 is kept in every run for exactly the orders for one name. */
  lemma FollowsItsMachineExactlyForOneName(names: seq<string>)
    requires NoDuplicates(names) && |names| > 0
    ensures FollowsItsMachine(names) <==> |names| == 1
  {
    hide Reachable, Next;
    if |names| == 1 {
      forall s, e, o | Reachable(s) && o in s.db.orders && s.db.orders[o].identifiers == names && o in Next(s, e).db.orders
        ensures OrderMoves(s.db.orders[o].status, Next(s, e).db.orders[o].status)
      {
        SingleIdentifierFollowsItsMachine(s, e, o);
      }
    } else {
      var s := ProcessingGoesBack(names);
      assert !OrderMoves(s.db.orders[0].status, Next(s, Step(1, true)).db.orders[0].status);
    }
  }
}
