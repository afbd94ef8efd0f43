/**
 The ACME handlers as the program runs them: a database object whose methods
 are the SQL statements, and handlers that call them in order. A handler that
 nobody interrupts leaves the tables as the corresponding steps of the protocol
 machine do.
 */
module AcmeHandlers {
  import opened Strings
  import opened AcmeTables
  import opened AcmeProtocol
  import opened Names

  /** The challenges created for identifier `i`. */
  function ChallengesFor(o: nat, order: Order, i: nat): (ids: set<ChallengeId>)
    requires i < |order.identifiers|
    ensures forall c :: c in ids <==> c.authz == AuthzId(o, i) && Offered(order, i, c.kind)
  {
    var dns, http := ChallengeId(AuthzId(o, i), Dns01), ChallengeId(AuthzId(o, i), Http01);
    assert forall c: ChallengeId :: c == ChallengeId(c.authz, c.kind) && (c.kind == Http01 || c.kind == Dns01);
    if Offered(order, i, Http01) then {http, dns} else {dns}
  }

  /** The tables with the rows of identifier `i` added. */
  function WithAuthz(t: Tables, o: nat, order: Order, i: nat): Tables
    requires i < |order.identifiers|
  {
    t.(authzs := t.authzs[AuthzId(o, i) := AuthzRow(o, order, i)],
       challenges := t.challenges + map c | c in ChallengesFor(o, order, i) :: Challenge(c.authz, c.kind, Pending))
  }

  /** The challenge types on offer for identifier `i`. */
  function Kinds(order: Order, i: nat): seq<ChallengeType>
    requires i < |order.identifiers|
  {
    if CutWildcard(order.identifiers[i]).1 then [Dns01] else [Http01, Dns01]
  }

  /** How many inserts the first `n` identifiers take. */
  function Inserts(order: Order, n: nat): nat
    requires n <= |order.identifiers|
  {
    if n == 0 then 0 else Inserts(order, n - 1) + 1 + |Kinds(order, n - 1)|
  }

  /** Some of the rows of a new order were added, and nothing else happened. */
  ghost predicate PartlyInserted(t: Tables, after: Tables, o: nat, order: Order) {
    exists rows :: PartOf(rows, o, order) && after == Merge(t, rows)
  }

  class Database {
    var orders: map<nat, Order>
    var authzs: map<AuthzId, Authz>
    var challenges: map<ChallengeId, Challenge>

    function Rows(): Tables
      reads this
    {
      Tables(orders, authzs, challenges)
    }

    constructor ()
      ensures Rows() == Tables(map[], map[], map[])
    {
      orders, authzs, challenges := map[], map[], map[];
    }

    method ClaimChallenge(c: ChallengeId, a: AuthzId) returns (claimed: bool)
      modifies this
      ensures claimed == Claimable(old(Rows()), c, a)
      ensures Rows() == if claimed then SetChallengeStatus(old(Rows()), c, Processing) else old(Rows())
      ensures claimed <==>
                && c in old(challenges) && old(challenges)[c].status == Pending
                && (forall d :: d in old(challenges) && old(challenges)[d].authz == a ==> old(challenges)[d].status == Pending)
                && a in authzs && authzs[a].status == Pending
      ensures orders == old(orders) && authzs == old(authzs)
      ensures challenges == if claimed then old(challenges)[c := old(challenges)[c].(status := Processing)] else old(challenges)
    {
      claimed := c in challenges && challenges[c].status == Pending && a in authzs && authzs[a].status == Pending;
      var siblings := challenges.Keys;
      while claimed && siblings != {}
        invariant siblings <= challenges.Keys
        invariant forall d :: d in challenges && d !in siblings && challenges[d].authz == a && challenges[d].status != Pending
                              ==> !claimed
        invariant !claimed ==> !Claimable(Rows(), c, a)
        invariant claimed ==> c in challenges && challenges[c].status == Pending && a in authzs && authzs[a].status == Pending
        decreases siblings
      {
        var d :| d in siblings;
        siblings := siblings - {d};
        if challenges[d].authz == a && challenges[d].status != Pending { claimed := false; }
      }
      if claimed { challenges := challenges[c := challenges[c].(status := Processing)]; }
    }

    method ClaimOrder(o: nat, now: int) returns (claimed: bool)
      modifies this`orders
      ensures claimed == OrderClaimable(old(Rows()), o, now)
      ensures Rows() == if claimed then SetOrderStatus(old(Rows()), o, Processing, old(orders)[o].certId) else old(Rows())
      ensures claimed <==> o in old(orders) && old(orders)[o].status == Ready && now < old(orders)[o].expires
      ensures orders == if claimed then old(orders)[o := old(orders)[o].(status := Processing)] else old(orders)
    {
      claimed := o in orders && orders[o].status == Ready && orders[o].expires > now;
      if claimed { orders := orders[o := orders[o].(status := Processing)]; }
    }

    method WriteOrderStatus(o: nat, status: Status, certId: Option<nat>)
      modifies this`orders
      ensures Rows() == SetOrderStatus(old(Rows()), o, status, certId)
      ensures orders == if o in old(orders) then old(orders)[o := old(orders)[o].(status := status, certId := certId)] else old(orders)
    {
      if o in orders { orders := orders[o := orders[o].(status := status, certId := certId)]; }
    }

    method WriteAuthzStatus(a: AuthzId, status: Status)
      modifies this`authzs
      ensures Rows() == SetAuthzStatus(old(Rows()), a, status)
      ensures authzs == if a in old(authzs) then old(authzs)[a := old(authzs)[a].(status := status)] else old(authzs)
    {
      if a in authzs { authzs := authzs[a := authzs[a].(status := status)]; }
    }

    method WriteChallengeStatus(c: ChallengeId, status: Status)
      modifies this`challenges
      ensures Rows() == SetChallengeStatus(old(Rows()), c, status)
      ensures challenges == if c in old(challenges) then old(challenges)[c := old(challenges)[c].(status := status)] else old(challenges)
    {
      if c in challenges { challenges := challenges[c := challenges[c].(status := status)]; }
    }

    /** The ids of an order's authorizations; their order is of no consequence. */
    method AuthzsByOrder(o: nat) returns (rows: seq<AuthzId>)
      ensures forall a :: a in rows <==> a in authzs && authzs[a].order == o
    {
      rows := [];
      var rest := authzs.Keys;
      while rest != {}
        invariant rest <= authzs.Keys
        invariant forall a :: a in rows <==> a in authzs && a !in rest && authzs[a].order == o
        decreases rest
      {
        var a :| a in rest;
        rest := rest - {a};
        if authzs[a].order == o { rows := rows + [a]; }
      }
    }

    /**
     The rows of one identifier: the authorization, then a challenge of each type on
     offer. The insert after `left` others fails.
     */
    method InsertAuthz(o: nat, order: Order, i: nat, left: nat) returns (ok: bool, rest: nat)
      requires i < |order.identifiers|
      modifies this`authzs, this`challenges
      ensures ok <==> left > |Kinds(order, i)|
      ensures ok ==> Rows() == WithAuthz(old(Rows()), o, order, i) && rest == left - 1 - |Kinds(order, i)|
      ensures !ok ==> PartlyInserted(old(Rows()), Rows(), o, order)
      ensures ok ==> var a, name := AuthzId(o, i), order.identifiers[i];
                && a in authzs && AuthorizesName(authzs[a], o, order.account, name, order.expires) && authzs[a].status == Pending
                && authzs == old(authzs)[a := authzs[a]]
                && (forall c :: c in challenges <==> c in old(challenges) || (c.authz == a && (IsWildcard(name) ==> c.kind == Dns01)))
                && (forall c :: c in challenges ==> challenges[c] == if c.authz == a && (IsWildcard(name) ==> c.kind == Dns01)
                                                                    then Challenge(a, c.kind, Pending) else old(challenges)[c])
    {
      ok, rest := false, left;
      hide PartlyInserted;
      NothingInserted(Rows(), o, order);
      if rest == 0 { return; }
      var (base, wildcard) := CutWildcard(order.identifiers[i]);
      var a := AuthzId(o, i);
      authzs := authzs[a := Authz(o, order.account, base, Pending, order.expires, wildcard)];
      rest := rest - 1;
      var kinds := if wildcard then [Dns01] else [Http01, Dns01];
      assert kinds == Kinds(order, i);
      hide FirstKinds, CutWildcard, ChallengesFor, Kinds;
      for k := 0 to |kinds|
        invariant authzs == old(authzs)[a := AuthzRow(o, order, i)] && rest == left - 1 - k
        invariant challenges == WithKinds(old(challenges), a, kinds, k)
      {
        if rest == 0 {
          PartOfOne(old(Rows()), o, order, i, k);
          return;
        }
        challenges := challenges[ChallengeId(a, kinds[k]) := Challenge(a, kinds[k], Pending)];
        rest := rest - 1;
        NextChallenge(old(challenges), a, kinds, k);
      }
      ok := true;
      AllKinds(o, order, i, kinds);
      RowsOfOne(old(challenges), o, order, i);
      hide AuthzRow;
    }

    static lemma RowsOfOne(base: map<ChallengeId, Challenge>, o: nat, order: Order, i: nat)
      requires i < |order.identifiers|
      ensures AuthorizesName(AuthzRow(o, order, i), o, order.account, order.identifiers[i], order.expires)
      ensures AuthzRow(o, order, i).status == Pending
      ensures var a, name := AuthzId(o, i), order.identifiers[i];
              var challenges := base + map c | c in ChallengesFor(o, order, i) :: Challenge(c.authz, c.kind, Pending);
              && (forall c :: c in challenges <==> c in base || (c.authz == a && (IsWildcard(name) ==> c.kind == Dns01)))
              && (forall c :: c in challenges ==> challenges[c] == if c.authz == a && (IsWildcard(name) ==> c.kind == Dns01)
                                                                  then Challenge(a, c.kind, Pending) else base[c])
    {
      hide ChallengesFor, CutWildcard;
      WildcardIsCut(order.identifiers[i]);
    }

    static lemma NothingInserted(t: Tables, o: nat, order: Order)
      ensures PartlyInserted(t, t, o, order)
    {
      var rows := Tables(map[], map[], map[]);
      assert PartOf(rows, o, order) && Merge(t, rows) == t;
    }

    static lemma PartOfOne(t: Tables, o: nat, order: Order, i: nat, k: nat)
      requires i < |order.identifiers| && k <= |Kinds(order, i)|
      ensures PartlyInserted(t, t.(authzs := t.authzs[AuthzId(o, i) := AuthzRow(o, order, i)],
                                   challenges := WithKinds(t.challenges, AuthzId(o, i), Kinds(order, i), k)), o, order)
    {
      var a := AuthzId(o, i);
      var rows := Tables(map[], map[a := AuthzRow(o, order, i)],
                         map c | c in FirstKinds(a, Kinds(order, i), k) :: Challenge(c.authz, c.kind, Pending));
      OneIsPart(rows, o, order, i, k);
      hide PartOf, FirstKinds, AuthzRow, Kinds;
      AddedIsUpdated(t.authzs, a, AuthzRow(o, order, i));
      assert t.orders + map[] == t.orders;
    }

    static lemma OneIsPart(rows: Tables, o: nat, order: Order, i: nat, k: nat)
      requires i < |order.identifiers| && k <= |Kinds(order, i)| && rows.orders == map[]
      requires rows.authzs == map[AuthzId(o, i) := AuthzRow(o, order, i)]
      requires rows.challenges
            == map c | c in FirstKinds(AuthzId(o, i), Kinds(order, i), k) :: Challenge(c.authz, c.kind, Pending)
      ensures PartOf(rows, o, order)
    {
      hide AuthzRow;
    }

    static ghost function WithKinds(
        base: map<ChallengeId, Challenge>, a: AuthzId, kinds: seq<ChallengeType>, k: nat): map<ChallengeId, Challenge>
      requires k <= |kinds|
    {
      base + map c | c in FirstKinds(a, kinds, k) :: Challenge(c.authz, c.kind, Pending)
    }

    static lemma NextChallenge(base: map<ChallengeId, Challenge>, a: AuthzId, kinds: seq<ChallengeType>, k: nat)
      requires k < |kinds|
      ensures WithKinds(base, a, kinds, k + 1)
           == WithKinds(base, a, kinds, k)[ChallengeId(a, kinds[k]) := Challenge(a, kinds[k], Pending)]
    {
      NextKind(a, kinds, k);
    }

    static lemma NextKind(a: AuthzId, kinds: seq<ChallengeType>, k: nat)
      requires k < |kinds|
      ensures FirstKinds(a, kinds, k + 1) == FirstKinds(a, kinds, k) + {ChallengeId(a, kinds[k])}
    {
    }

    static lemma AllKinds(o: nat, order: Order, i: nat, kinds: seq<ChallengeType>)
      requires i < |order.identifiers|
      requires kinds == Kinds(order, i)
      ensures FirstKinds(AuthzId(o, i), kinds, |kinds|) == ChallengesFor(o, order, i)
    {
      var a := AuthzId(o, i);
      NextKind(a, kinds, 0);
      if |kinds| == 2 { NextKind(a, kinds, 1); }
    }

    static ghost function FirstKinds(a: AuthzId, kinds: seq<ChallengeType>, k: nat): set<ChallengeId>
      requires k <= |kinds|
    {
      set j | 0 <= j < k :: ChallengeId(a, kinds[j])
    }

    /** One garbage collection, orders before authorizations before orphaned challenges. */
    method Gc(cutoff: int)
      modifies this
      ensures Rows() == DeleteOrphanChallenges(DeleteExpiredAuthzs(DeleteExpiredOrders(old(Rows()), cutoff), cutoff))
      ensures forall o :: o in orders <==> o in old(orders) && old(orders)[o].expires >= cutoff
      ensures forall a :: a in authzs <==> a in old(authzs) && old(authzs)[a].expires >= cutoff
      ensures forall c :: c in challenges <==> c in old(challenges) && old(challenges)[c].authz in authzs
      ensures (forall o :: o in orders ==> orders[o] == old(orders)[o]) && (forall a :: a in authzs ==> authzs[a] == old(authzs)[a])
      ensures forall c :: c in challenges ==> challenges[c] == old(challenges)[c]
    {
      orders := map o | o in orders && orders[o].expires >= cutoff :: orders[o];
      authzs := map a | a in authzs && authzs[a].expires >= cutoff :: authzs[a];
      challenges := map c | c in challenges && challenges[c].authz in authzs :: challenges[c];
    }
  }

  // ---------------------------------------------------------------- newOrder

  /** The request as a whole; the insert after `left` others fails, and what was inserted before it stays. */
  method HandleNewOrder(db: Database, o: nat, account: nat, now: int, ids: seq<Identifier>, dns01: bool,
                        policy: Option<seq<string>>, left: nat) returns (r: OrderNames, ok: bool)
    modifies db
    ensures r.Accepted? <==> ids != [] && forall id <- ids :: Check(id, dns01, policy).None?
    ensures r.Accepted? ==>
              var order := Order(account, Pending, r.names, now + ORDER_TTL, None);
              && r.names == FirstOccurrences(ids)
              && (ok <==> left > Inserts(order, |r.names|))
              && (ok ==> db.Rows() == InsertOrder(old(db.Rows()), o, order))
              && (!ok ==> PartlyInserted(old(db.Rows()), db.Rows(), o, order))
              && (ok ==> Adds(old(db.Rows()), db.Rows(), o, account, r.names, now + 86400))
              && (!ok ==> AddsSome(old(db.Rows()), db.Rows(), o, account, r.names, now + 86400))
    ensures r.Refused? ==> !ok && db.Rows() == old(db.Rows())
  {
    ok := false;
    r := NamesOfOrder(ids, dns01, policy);
    if r.Refused? { return; }
    hide PartlyInserted, InsertOrder, Inserts, Check, FirstOccurrences, Adds, AddsSome;
    var order := Order(account, Pending, r.names, now + ORDER_TTL, None);
    ok := InsertNewOrder(db, o, order, left);
    InsertOrderAdds(old(db.Rows()), o, order);
    if !ok { PartAddsSome(old(db.Rows()), db.Rows(), o, order); }
  }

  /** What is there now was there before, or is a row that newOrder adds; and nothing is gone. */
  ghost predicate AddsSome(t: Tables, after: Tables, o: nat, account: nat, names: seq<string>, expires: int) {
    exists full :: Adds(t, full, o, account, names, expires) && Between(t, after, full)
  }

  ghost predicate Between(t: Tables, after: Tables, full: Tables) {
    && KeptOrAdded(t.orders, after.orders, full.orders) && KeptOrAdded(t.authzs, after.authzs, full.authzs)
    && KeptOrAdded(t.challenges, after.challenges, full.challenges)
  }

  ghost predicate KeptOrAdded<K(!new), V(!new)>(rows: map<K, V>, after: map<K, V>, full: map<K, V>) {
    && (forall k :: k in rows ==> k in after)
    && (forall k :: k in after ==> SameAt(rows, after, k) || SameAt(full, after, k))
  }

  ghost predicate SameAt<K, V>(rows: map<K, V>, after: map<K, V>, k: K)
    requires k in after
  {
    k in rows && after[k] == rows[k]
  }

  lemma PartAddsSome(t: Tables, after: Tables, o: nat, order: Order)
    requires order.status == Pending && order.certId == None && PartlyInserted(t, after, o, order)
    ensures AddsSome(t, after, o, order.account, order.identifiers, order.expires)
  {
    hide Adds;
    InsertOrderAdds(t, o, order);
    var rows :| PartOf(rows, o, order) && after == Merge(t, rows);
    PartIsBetween(t, rows, o, order);
    hide Between;
  }

  lemma PartIsBetween(t: Tables, rows: Tables, o: nat, order: Order)
    requires PartOf(rows, o, order)
    ensures Between(t, Merge(t, rows), InsertOrder(t, o, order))
  {
    PartIsInFull(t, rows, o, order);
    hide InsertOrder, KeptOrAdded, SameAt, PartOf;
    var full := InsertOrder(t, o, order);
    MergedIsKeptOrAdded(t.orders, rows.orders, full.orders);
    MergedIsKeptOrAdded(t.authzs, rows.authzs, full.authzs);
    MergedIsKeptOrAdded(t.challenges, rows.challenges, full.challenges);
  }

  lemma PartIsInFull(t: Tables, rows: Tables, o: nat, order: Order)
    requires PartOf(rows, o, order)
    ensures var full := InsertOrder(t, o, order);
            && (forall p :: p in rows.orders ==> SameAt(full.orders, rows.orders, p))
            && (forall a :: a in rows.authzs ==> SameAt(full.authzs, rows.authzs, a))
            && (forall c :: c in rows.challenges ==> SameAt(full.challenges, rows.challenges, c))
  {
    hide AuthzIds, ChallengeIds, AuthzRow;
  }

  lemma MergedIsKeptOrAdded<K(!new), V(!new)>(rows: map<K, V>, more: map<K, V>, full: map<K, V>)
    requires forall k :: k in more ==> SameAt(full, more, k)
    ensures KeptOrAdded(rows, rows + more, full)
  {
  }

  method InsertNewOrder(db: Database, o: nat, order: Order, left: nat) returns (ok: bool)
    modifies db
    ensures ok <==> left > Inserts(order, |order.identifiers|)
    ensures ok ==> db.Rows() == InsertOrder(old(db.Rows()), o, order)
    ensures !ok ==> PartlyInserted(old(db.Rows()), db.Rows(), o, order)
  {
    hide PartlyInserted, InsertAuthzs, Kinds;
    ok := false;
    Database.NothingInserted(db.Rows(), o, order);
    if left == 0 { return; }
    db.orders := db.orders[o := order];
    var rest: nat := left - 1;
    ghost var t0 := db.Rows();
    NoAuthzs(t0, o, order);
    for i := 0 to |order.identifiers|
      invariant db.Rows() == InsertAuthzs(t0, o, order, i) && rest == left - 1 - Inserts(order, i)
    {
      InsertOne(t0, o, order, i);
      InsertsGrow(order, i + 1, |order.identifiers|);
      ghost var before := db.Rows();
      var inserted;
      inserted, rest := db.InsertAuthz(o, order, i, rest);
      if !inserted {
        PartThenPart(old(db.Rows()), o, order, i, before, db.Rows());
        return;
      }
    }
    ok := true;
  }

  lemma NoAuthzs(t: Tables, o: nat, order: Order)
    ensures InsertAuthzs(t, o, order, 0) == t
  {
  }

  lemma {:induction false} InsertsGrow(order: Order, m: nat, n: nat)
    requires m <= n <= |order.identifiers|
    ensures Inserts(order, m) <= Inserts(order, n)
  {
    if m < n { InsertsGrow(order, m, n - 1); }
  }

  /** The rows of the order and of its first identifiers. */
  ghost function FirstRows(o: nat, order: Order, i: nat): Tables
    requires i <= |order.identifiers|
  {
    Tables(map[o := order], map a | a in AuthzIds(o, i) :: AuthzRow(o, order, a.index),
           map c | c in ChallengeIds(o, order, i) :: Challenge(c.authz, c.kind, Pending))
  }

  lemma FirstMerged(t: Tables, o: nat, order: Order, i: nat)
    requires i <= |order.identifiers|
    ensures InsertAuthzs(t.(orders := t.orders[o := order]), o, order, i) == Merge(t, FirstRows(o, order, i))
  {
    hide AuthzIds, ChallengeIds, AuthzRow;
    AddedIsUpdated(t.orders, o, order);
  }

  lemma AddedIsUpdated<K, V>(m: map<K, V>, k: K, v: V)
    ensures m + map[k := v] == m[k := v]
  {
  }

  lemma FirstIsPart(o: nat, order: Order, i: nat)
    requires i <= |order.identifiers|
    ensures PartOf(FirstRows(o, order, i), o, order)
  {
    hide AuthzIds, ChallengeIds, AuthzRow;
  }

  /** The rows of the first identifiers, then part of the next. */
  lemma PartThenPart(t: Tables, o: nat, order: Order, i: nat, before: Tables, after: Tables)
    requires i <= |order.identifiers| && before == InsertAuthzs(t.(orders := t.orders[o := order]), o, order, i)
    requires PartlyInserted(before, after, o, order)
    ensures PartlyInserted(t, after, o, order)
  {
    hide PartOf, Merge, InsertAuthzs, FirstRows;
    var more :| PartOf(more, o, order) && after == Merge(before, more);
    FirstMerged(t, o, order, i);
    FirstIsPart(o, order, i);
    PartsTogether(FirstRows(o, order, i), more, o, order);
    MergeTwice(t, FirstRows(o, order, i), more);
  }

  lemma PartsTogether(a: Tables, b: Tables, o: nat, order: Order)
    requires PartOf(a, o, order) && PartOf(b, o, order)
    ensures PartOf(Merge(a, b), o, order)
  {
    hide AuthzRow;
  }

  lemma IdsGrow(o: nat, order: Order, i: nat)
    requires i < |order.identifiers|
    ensures AuthzIds(o, i + 1) == AuthzIds(o, i) + {AuthzId(o, i)}
    ensures ChallengeIds(o, order, i + 1) == ChallengeIds(o, order, i) + ChallengesFor(o, order, i)
  {
    hide AuthzIds, ChallengeIds, ChallengesFor, Offered;
    assert forall c :: IsChallengeOf(c, o, order, i + 1) <==>
        IsChallengeOf(c, o, order, i) || (c.authz == AuthzId(o, i) && Offered(order, i, c.kind));
  }

  lemma ChallengesGrow(base: map<ChallengeId, Challenge>, ids: set<ChallengeId>, more: set<ChallengeId>)
    ensures base + (map c | c in ids + more :: Challenge(c.authz, c.kind, Pending))
         == base + (map c | c in ids :: Challenge(c.authz, c.kind, Pending))
                 + (map c | c in more :: Challenge(c.authz, c.kind, Pending))
  {
  }

  lemma AuthzsGrow(base: map<AuthzId, Authz>, ids: set<AuthzId>, o: nat, order: Order, i: nat)
    requires i < |order.identifiers| && forall a :: a in ids ==> a.index < i
    ensures base + (map a | a in ids + {AuthzId(o, i)} :: AuthzRow(o, order, a.index))
         == (base + (map a | a in ids :: AuthzRow(o, order, a.index)))[AuthzId(o, i) := AuthzRow(o, order, i)]
  {
    hide AuthzRow;
  }

  lemma InsertOne(t0: Tables, o: nat, order: Order, i: nat)
    requires i < |order.identifiers|
    ensures InsertAuthzs(t0, o, order, i + 1) == WithAuthz(InsertAuthzs(t0, o, order, i), o, order, i)
  {
    hide AuthzIds, ChallengeIds, ChallengesFor, AuthzRow;
    ChallengesGrow(t0.challenges, ChallengeIds(o, order, i), ChallengesFor(o, order, i));
    AuthzsGrow(t0.authzs, AuthzIds(o, i), o, order, i);
    IdsGrow(o, order, i);
  }

  // ---------------------------------------------------------------- a challenge request

  /** Which of a challenge request's statements succeed; it goes on after a failed status write. */
  datatype Statements = Statements(challenge: bool, authz: bool, read: bool, order: bool)

  function Decided(t: Tables, c: ChallengeId, a: AuthzId, o: nat, verdict: bool, ok: Statements): Tables {
    var status := if verdict then Valid else Invalid;
    var t1 := if ok.challenge then SetChallengeStatus(t, c, status) else t;
    var t2 := if ok.authz then SetAuthzStatus(t1, a, status) else t1;
    if !ok.order || (verdict && !(ok.read && AllValid(t2, o))) then t2 else
    SetOrderStatus(t2, o, if verdict then Ready else Invalid, None)
  }

  /** What an uninterrupted challenge request does to the tables, given the validator's verdict. */
  function ChallengeEffect(t: Tables, now: int, account: nat, c: ChallengeId, verdict: bool, ok: Statements): Tables {
    if c !in t.challenges then t else
    var row := t.challenges[c];
    var a := row.authz;
    if a !in t.authzs || t.authzs[a].account != account || row.status != Pending
       || t.authzs[a].status != Pending || now > t.authzs[a].expires || !Claimable(t, c, a) then t else
    Decided(SetChallengeStatus(t, c, Processing), c, a, t.authzs[a].order, verdict, ok)
  }

  lemma AllValidMeans(t: Tables, o: nat)
    ensures AllValid(t, o) <==> forall a :: a in t.authzs && t.authzs[a].order == o ==> t.authzs[a].status == Valid
  {
  }

  /** The effect column by column. */
  lemma ChallengeEffectMeans(t: Tables, now: int, account: nat, c: ChallengeId, verdict: bool, ok: Statements)
    ensures var after := ChallengeEffect(t, now, account, c, verdict, ok);
            var (orders, authzs, challenges) := (t.orders, t.authzs, t.challenges);
            if !(&& c in challenges && challenges[c].status == Pending && challenges[c].authz in authzs
                 && (forall d :: d in challenges && challenges[d].authz == challenges[c].authz ==> challenges[d].status == Pending)
                 && authzs[challenges[c].authz].account == account && authzs[challenges[c].authz].status == Pending
                 && now <= authzs[challenges[c].authz].expires)
            then after == t
            else var a, status := challenges[c].authz, if verdict then Valid else Invalid;
                 var o := authzs[a].order;
                 && after.challenges == challenges[c := challenges[c].(status := if ok.challenge then status else Processing)]
                 && after.authzs == (if ok.authz then authzs[a := authzs[a].(status := status)] else authzs)
                 && after.orders ==
                      if !ok.order || o !in orders then orders
                      else if !verdict then orders[o := orders[o].(status := Invalid, certId := None)]
                      else if ok.read && forall b :: b in after.authzs && after.authzs[b].order == o ==> after.authzs[b].status == Valid
                      then orders[o := orders[o].(status := Ready, certId := None)] else orders
  {
  }

  method HandleChallenge(db: Database, now: int, account: nat, c: ChallengeId, verdict: bool, ok: Statements)
    modifies db
    ensures db.Rows() == ChallengeEffect(old(db.Rows()), now, account, c, verdict, ok)
    ensures var (orders, authzs, challenges) := (old(db.orders), old(db.authzs), old(db.challenges));
            if !(&& c in challenges && challenges[c].status == Pending && challenges[c].authz in authzs
                 && (forall d :: d in challenges && challenges[d].authz == challenges[c].authz ==> challenges[d].status == Pending)
                 && authzs[challenges[c].authz].account == account && authzs[challenges[c].authz].status == Pending
                 && now <= authzs[challenges[c].authz].expires)
            then db.Rows() == old(db.Rows())
            else var a, status := challenges[c].authz, if verdict then Valid else Invalid;
                 var o := authzs[a].order;
                 && db.challenges == challenges[c := challenges[c].(status := if ok.challenge then status else Processing)]
                 && db.authzs == (if ok.authz then authzs[a := authzs[a].(status := status)] else authzs)
                 && db.orders ==
                      if !ok.order || o !in orders then orders
                      else if !verdict then orders[o := orders[o].(status := Invalid, certId := None)]
                      else if ok.read && forall b :: b in db.authzs && db.authzs[b].order == o ==> db.authzs[b].status == Valid
                      then orders[o := orders[o].(status := Ready, certId := None)] else orders
  {
    ChallengeEffectMeans(db.Rows(), now, account, c, verdict, ok);
    hide AllValid;
    if c !in db.challenges { return; }
    var row := db.challenges[c];
    if row.authz !in db.authzs { return; }
    var authz := db.authzs[row.authz];
    if authz.account != account { return; }
    if row.status != Pending { return; }
    if authz.status != Pending { return; }
    if now > authz.expires { return; }
    var claimed := db.ClaimChallenge(c, row.authz);
    if !claimed { return; }
    if !verdict {
      if ok.challenge { db.WriteChallengeStatus(c, Invalid); }
      if ok.authz { db.WriteAuthzStatus(row.authz, Invalid); }
      if ok.order { db.WriteOrderStatus(authz.order, Invalid, None); }
      return;
    }
    if ok.challenge { db.WriteChallengeStatus(c, Valid); }
    if ok.authz { db.WriteAuthzStatus(row.authz, Valid); }
    if !ok.read { return; }
    var rows := db.AuthzsByOrder(authz.order);
    var ready := true;
    for i := 0 to |rows|
      invariant ready <==> forall j :: 0 <= j < i ==> db.authzs[rows[j]].status == Valid
    {
      if db.authzs[rows[i]].status != Valid {
        ready := false;
        break;
      }
    }
    assert ready <==> AllValid(db.Rows(), authz.order) by {
      AllValidMeans(db.Rows(), authz.order);
      assert forall a :: a in db.authzs && db.authzs[a].order == authz.order ==> a in rows;
    }
    if ready && ok.order { db.WriteOrderStatus(authz.order, Ready, None); }
  }

  /** Steps of thread `t` with nobody in between, each with its bit. */
  function Steps(s: State, t: nat, bits: seq<bool>): State
    decreases |bits|
  {
    if bits == [] then s else Steps(Next(s, Step(t, bits[0])), t, bits[1..])
  }

  lemma TwoSteps(s: State, t: nat, bits: seq<bool>)
    requires |bits| >= 2
    ensures Steps(s, t, bits) == Steps(Next(Next(s, Step(t, bits[0])), Step(t, bits[1])), t, bits[2..])
    ensures |bits| == 2 ==> Steps(s, t, bits) == Next(Next(s, Step(t, bits[0])), Step(t, bits[1]))
  {
    hide Next;
    var s1 := Next(s, Step(t, bits[0]));
    assert bits[1..][1..] == bits[2..];
    assert Steps(s1, t, bits[1..]) == Steps(Next(s1, Step(t, bits[1])), t, bits[2..]);
  }

  lemma OneStep(s: State, t: nat, bit: bool)
    ensures Steps(s, t, [bit]) == Next(s, Step(t, bit))
  {
    hide Next;
    assert [bit][1..] == [];
    assert Steps(Next(s, Step(t, bit)), t, []) == Next(s, Step(t, bit));
  }

  lemma {:induction false} EndedStays(s: State, t: nat, bits: seq<bool>)
    requires t !in s.threads
    ensures Steps(s, t, bits) == s
    decreases |bits|
  {
    hide StepThread;
    if bits != [] { EndedStays(s, t, bits[1..]); }
  }

  /** A challenge request on thread `t` from start to end with nobody in between. */
  function ChallengeAlone(s: State, t: nat, account: nat, c: ChallengeId, verdict: bool, ok: Statements): State {
    var claimed := Steps(Next(s, Start(t, Lookup(account, c))), t, [true, true, true]);
    Steps(Next(claimed, Step(t, verdict)), t, [ok.challenge, ok.authz, if verdict then ok.read else ok.order, ok.order])
  }

  lemma FirstWrites(s: State, t: nat, c: ChallengeId, a: AuthzId, o: nat, verdict: bool, ok: Statements)
    requires t in s.threads && a in s.db.authzs
    requires s.threads[t] == Job(if verdict then PassChallenge else FailChallenge, c, a, o)
    ensures var s', status := Next(Next(s, Step(t, ok.challenge)), Step(t, ok.authz)), if verdict then Valid else Invalid;
            var t1 := if ok.challenge then SetChallengeStatus(s.db, c, status) else s.db;
            && s'.db == (if ok.authz then SetAuthzStatus(t1, a, status) else t1)
            && s'.threads == s.threads[t := Job(if verdict then ReadAuthzs else FailOrder, c, a, o)]
  {
    hide Next, SetAuthzStatus;
    ChallengeWritten(s, t, c, a, o, verdict, ok.challenge);
    AuthzWritten(Next(s, Step(t, ok.challenge)), t, c, a, o, verdict, ok.authz);
  }

  lemma ChallengeWritten(s: State, t: nat, c: ChallengeId, a: AuthzId, o: nat, verdict: bool, ok: bool)
    requires t in s.threads && s.threads[t] == Job(if verdict then PassChallenge else FailChallenge, c, a, o)
    ensures var s', status := Next(s, Step(t, ok)), if verdict then Valid else Invalid;
            && s'.db == (if ok then SetChallengeStatus(s.db, c, status) else s.db)
            && s'.threads == s.threads[t := Job(if verdict then PassAuthz else FailAuthz, c, a, o)]
  {
    hide AllValid, SetChallengeStatus, SetAuthzStatus, SetOrderStatus;
  }

  lemma AuthzWritten(s: State, t: nat, c: ChallengeId, a: AuthzId, o: nat, verdict: bool, ok: bool)
    requires t in s.threads && s.threads[t] == Job(if verdict then PassAuthz else FailAuthz, c, a, o) && a in s.db.authzs
    ensures var s', status := Next(s, Step(t, ok)), if verdict then Valid else Invalid;
            && s'.db == (if ok then SetAuthzStatus(s.db, a, status) else s.db)
            && s'.threads == s.threads[t := Job(if verdict then ReadAuthzs else FailOrder, c, a, o)]
  {
    hide AllValid, SetChallengeStatus, SetAuthzStatus, SetOrderStatus;
  }

  lemma LastWrites(s: State, t: nat, c: ChallengeId, a: AuthzId, o: nat, verdict: bool, ok: Statements)
    requires t in s.threads && s.threads[t] == Job(if verdict then ReadAuthzs else FailOrder, c, a, o)
    ensures var s' := Next(Next(s, Step(t, if verdict then ok.read else ok.order)), Step(t, ok.order));
            && s'.threads == s.threads - {t}
            && s'.db == if !ok.order || (verdict && !(ok.read && AllValid(s.db, o))) then s.db
                        else SetOrderStatus(s.db, o, if verdict then Ready else Invalid, None)
  {
    hide AllValid;
  }

  lemma VerdictAlone(s: State, t: nat, c: ChallengeId, a: AuthzId, o: nat, verdict: bool, ok: Statements)
    requires t in s.threads && s.threads[t] == Job(Validating, c, a, o) && a in s.db.authzs
    ensures var bits := [ok.challenge, ok.authz, if verdict then ok.read else ok.order, ok.order];
            var s' := Steps(Next(s, Step(t, verdict)), t, bits);
            s'.threads == s.threads - {t} && s'.db == Decided(s.db, c, a, o, verdict, ok)
  {
    hide AllValid, Next, Steps, SetChallengeStatus, SetAuthzStatus, SetOrderStatus;
    var s1 := Next(s, Step(t, verdict));
    VerdictGiven(s, t, c, a, o, verdict);
    var bits := [ok.challenge, ok.authz, if verdict then ok.read else ok.order, ok.order];
    TwoSteps(s1, t, bits);
    FirstWrites(s1, t, c, a, o, verdict, ok);
    var s3 := Next(Next(s1, Step(t, ok.challenge)), Step(t, ok.authz));
    TwoSteps(s3, t, bits[2..]);
    LastWrites(s3, t, c, a, o, verdict, ok);
    assert s.threads[t := Job(if verdict then ReadAuthzs else FailOrder, c, a, o)] - {t} == s.threads - {t};
  }

  lemma VerdictGiven(s: State, t: nat, c: ChallengeId, a: AuthzId, o: nat, verdict: bool)
    requires t in s.threads && s.threads[t] == Job(Validating, c, a, o)
    ensures var s' := Next(s, Step(t, verdict));
            && s'.db == s.db
            && s'.threads == s.threads[t := Job(if verdict then PassChallenge else FailChallenge, c, a, o)]
  {
    hide AllValid;
  }

  /** The look-ups and the claim. */
  lemma ClaimedAlone(s: State, t: nat, account: nat, c: ChallengeId)
    requires t !in s.threads
    ensures var s0 := Next(s, Start(t, Lookup(account, c)));
            var s3 := Next(Next(Next(s0, Step(t, true)), Step(t, true)), Step(t, true));
            if && c in s.db.challenges && s.db.challenges[c].authz in s.db.authzs
               && s.db.authzs[s.db.challenges[c].authz].account == account && s.db.challenges[c].status == Pending
               && s.db.authzs[s.db.challenges[c].authz].status == Pending
               && s.now <= s.db.authzs[s.db.challenges[c].authz].expires && Claimable(s.db, c, s.db.challenges[c].authz)
            then var a := s.db.challenges[c].authz;
                 s3.threads == s.threads[t := Job(Validating, c, a, s.db.authzs[a].order)]
                 && s3.db == SetChallengeStatus(s.db, c, Processing)
            else s3.threads == s.threads && s3.db == s.db
  {
    hide AllValid, StepJob, StepFinalize, StepGc, SetChallengeStatus, Claimable;
  }

  /** The handler, run alone, is the run of its steps, whichever of its statements fail. */
  lemma ChallengeHandlerIsItsSteps(s: State, t: nat, account: nat, c: ChallengeId, verdict: bool, ok: Statements)
    requires t !in s.threads
    ensures var s' := ChallengeAlone(s, t, account, c, verdict, ok);
            s'.db == ChallengeEffect(s.db, s.now, account, c, verdict, ok) && s'.threads == s.threads
  {
    hide AllValid, Decided, StepThread, Steps, Next, Claimable, SetChallengeStatus;
    var s0 := Next(s, Start(t, Lookup(account, c)));
    var s2 := Next(Next(s0, Step(t, true)), Step(t, true));
    var s3 := Next(s2, Step(t, true));
    TwoSteps(s0, t, [true, true, true]);
    assert [true, true, true][2..] == [true];
    OneStep(s2, t, true);
    ClaimedAlone(s, t, account, c);
    if t in s3.threads {
      var a := s.db.challenges[c].authz;
      ClaimSparesAuthzs(s.db, c);
      VerdictAlone(s3, t, c, a, s.db.authzs[a].order, verdict, ok);
      assert s.threads[t := Job(Validating, c, a, s.db.authzs[a].order)] - {t} == s.threads;
    } else {
      EndedStep(s3, t, verdict);
      EndedStays(s3, t, [ok.challenge, ok.authz, if verdict then ok.read else ok.order, ok.order]);
    }
  }

  lemma ClaimSparesAuthzs(t: Tables, c: ChallengeId)
    ensures SetChallengeStatus(t, c, Processing).authzs == t.authzs
  {
  }

  lemma EndedStep(s: State, t: nat, bit: bool)
    requires t !in s.threads
    ensures Next(s, Step(t, bit)) == s
  {
  }

  // ---------------------------------------------------------------- a finalize request

  /** One of the CA's commands fails, before or after it signed; or the database keeps the certificate or does not. */
  datatype Issuance = Failed(signed: bool) | Unstored | Stored(certId: nat)

  /** What an uninterrupted finalize does; an order whose certificate could not be stored stays processing. */
  function FinalizeEffect(t: Tables, now: int, account: nat, o: nat, csr: Csr, result: Issuance, wrote: bool): Tables {
    if o !in t.orders || t.orders[o].account != account || t.orders[o].status != Ready
       || !FinalizeTest(csr, t.orders[o].identifiers) || t.orders[o].expires <= now then t
    else if result.Unstored? || !wrote then SetOrderStatus(t, o, Processing, t.orders[o].certId)
    else if result.Failed? then SetOrderStatus(t, o, Invalid, None)
    else SetOrderStatus(t, o, Valid, Some(result.certId))
  }

  method HandleFinalize(db: Database, now: int, account: nat, o: nat, csr: Csr, result: Issuance, wrote: bool)
    modifies db
    ensures db.Rows() == FinalizeEffect(old(db.Rows()), now, account, o, csr, result, wrote)
    ensures db.authzs == old(db.authzs) && db.challenges == old(db.challenges)
    ensures var orders := old(db.orders);
            db.orders ==
              if !(&& o in orders && orders[o].account == account && orders[o].status == Ready && now < orders[o].expires
                   && FinalizeTest(csr, orders[o].identifiers)) then orders
              else if result.Unstored? || !wrote then orders[o := orders[o].(status := Processing)]
              else if result.Failed? then orders[o := orders[o].(status := Invalid, certId := None)]
              else orders[o := orders[o].(status := Valid, certId := Some(result.certId))]
  {
    if o !in db.orders { return; }
    var order := db.orders[o];
    if order.account != account { return; }
    if order.status != Ready { return; }
    var accepted := FinalizeAccepts(csr, order.identifiers);
    if !accepted { return; }
    var claimed := db.ClaimOrder(o, now);
    if !claimed { return; }
    if result.Failed? {
      if wrote { db.WriteOrderStatus(o, Invalid, None); }
      return;
    }
    if result.Unstored? { return; }
    if wrote { db.WriteOrderStatus(o, Valid, Some(result.certId)); }
  }

  /** The bits of the steps after the claim: `sign`, `get`, the certificate's insert, the outcome's write. */
  function Bits(result: Issuance, wrote: bool): seq<bool> {
    match result
    case Failed(signed) => if signed then [true, false, wrote] else [false, wrote]
    case Unstored => [true, true, false]
    case Stored(_) => [true, true, true, wrote]
  }

  /** A finalize request on thread `t` with nobody in between; a refused CSR ends it after the look-up. */
  function FinalizeAlone(s: State, t: nat, account: nat, o: nat, accepted: bool, result: Issuance, wrote: bool): State {
    var s1 := Next(Next(s, Start(t, FinLookup(account, o))), Step(t, true));
    if !accepted then Next(s1, Drop(t)) else Steps(Next(s1, Step(t, true)), t, Bits(result, wrote))
  }

  lemma IssueAlone(s: State, t: nat, o: nat, result: Issuance, wrote: bool)
    requires t in s.threads && s.threads[t] == FinIssue(o) && (result.Stored? ==> result.certId == s.nextCert)
    ensures var s' := Steps(s, t, Bits(result, wrote));
            && s'.threads == s.threads - {t}
            && s'.db == if result.Unstored? || !wrote then s.db
                        else if result.Failed? then SetOrderStatus(s.db, o, Invalid, None)
                        else SetOrderStatus(s.db, o, Valid, Some(result.certId))
  {
    hide Steps, Next, SetOrderStatus;
    var bits := Bits(result, wrote);
    TwoSteps(s, t, bits);
    var signed := !(result.Failed? && !result.signed);
    Signed(s, t, o, signed);
    var s1 := Next(s, Step(t, bits[0]));
    if !signed {
      OutcomeWritten(s1, t, o, Invalid, None, wrote);
    } else {
      Fetched(s1, t, o, !result.Failed?);
      FetchedAlone(Next(s1, Step(t, bits[1])), t, o, result, wrote);
    }
  }

  /** From the fetched chain, or the failure to fetch it, to the end. */
  lemma FetchedAlone(s: State, t: nat, o: nat, result: Issuance, wrote: bool)
    requires t in s.threads && (result.Failed? ==> result.signed) && (result.Stored? ==> result.certId == s.nextCert)
    requires s.threads[t] == if result.Failed? then FinWrite(o, Invalid, None) else FinStore(o)
    ensures var s' := Steps(s, t, Bits(result, wrote)[2..]);
            && s'.threads == s.threads - {t}
            && s'.db == if result.Unstored? || !wrote then s.db
                        else if result.Failed? then SetOrderStatus(s.db, o, Invalid, None)
                        else SetOrderStatus(s.db, o, Valid, Some(result.certId))
  {
    hide Steps, Next, SetOrderStatus;
    match result
    case Failed(_) =>
      assert Bits(result, wrote)[2..] == [wrote];
      OneStep(s, t, wrote);
      OutcomeWritten(s, t, o, Invalid, None, wrote);
    case Unstored =>
      assert Bits(result, wrote)[2..] == [false];
      OneStep(s, t, false);
      CertificateKept(s, t, o, false);
    case Stored(certId) =>
      assert Bits(result, wrote)[2..] == [true, wrote];
      TwoSteps(s, t, [true, wrote]);
      CertificateKept(s, t, o, true);
      OutcomeWritten(Next(s, Step(t, true)), t, o, Valid, Some(certId), wrote);
  }

  lemma Signed(s: State, t: nat, o: nat, ok: bool)
    requires t in s.threads && s.threads[t] == FinIssue(o)
    ensures var s' := Next(s, Step(t, ok));
            && s'.threads == s.threads[t := if ok then FinFetch(o) else FinWrite(o, Invalid, None)]
            && s'.db == s.db && s'.nextCert == s.nextCert
  {
    hide StepJob, StepChallenge, StepGc;
  }

  lemma Fetched(s: State, t: nat, o: nat, ok: bool)
    requires t in s.threads && s.threads[t] == FinFetch(o)
    ensures var s' := Next(s, Step(t, ok));
            && s'.threads == s.threads[t := if ok then FinStore(o) else FinWrite(o, Invalid, None)]
            && s'.db == s.db && s'.nextCert == s.nextCert
  {
    hide StepJob, StepChallenge, StepGc;
  }

  lemma CertificateKept(s: State, t: nat, o: nat, ok: bool)
    requires t in s.threads && s.threads[t] == FinStore(o)
    ensures var s' := Next(s, Step(t, ok));
            && s'.db == s.db
            && s'.threads == if ok then s.threads[t := FinWrite(o, Valid, Some(s.nextCert))] else s.threads - {t}
  {
    hide StepJob, StepChallenge, StepGc;
  }

  lemma OutcomeWritten(s: State, t: nat, o: nat, status: Status, certId: Option<nat>, ok: bool)
    requires t in s.threads && s.threads[t] == FinWrite(o, status, certId)
    ensures var s' := Next(s, Step(t, ok));
            && s'.threads == s.threads - {t}
            && s'.db == if ok then SetOrderStatus(s.db, o, status, certId) else s.db
  {
    hide StepJob, StepChallenge, StepGc, SetOrderStatus;
  }

  /** The look-up and the claim. */
  lemma ClaimAlone(s: State, t: nat, account: nat, o: nat)
    requires t !in s.threads
    ensures var s1 := Next(Next(s, Start(t, FinLookup(account, o))), Step(t, true));
            var s2 := Next(s1, Step(t, true));
            var ready := o in s.db.orders && s.db.orders[o].account == account && s.db.orders[o].status == Ready;
            && s1.db == s.db && s1.threads - {t} == s.threads && s2.nextCert == s.nextCert
            && (if ready && s.db.orders[o].expires > s.now then
                  s2.threads == s.threads[t := FinIssue(o)]
                  && s2.db == SetOrderStatus(s.db, o, Processing, s.db.orders[o].certId)
                else s2.threads == s.threads && s2.db == s.db)
  {
    hide StepJob, StepChallenge, StepGc, AllValid;
  }

  lemma FinalizeHandlerIsItsSteps(s: State, t: nat, account: nat, o: nat, csr: Csr, result: Issuance, wrote: bool)
    requires t !in s.threads && (result.Stored? ==> result.certId == s.nextCert)
    ensures var accepted := o in s.db.orders && FinalizeTest(csr, s.db.orders[o].identifiers);
            var s' := FinalizeAlone(s, t, account, o, accepted, result, wrote);
            s'.db == FinalizeEffect(s.db, s.now, account, o, csr, result, wrote) && s'.threads == s.threads
  {
    hide FinalizeTest, StepThread, Steps;
    var s1 := Next(Next(s, Start(t, FinLookup(account, o))), Step(t, true));
    var s2 := Next(s1, Step(t, true));
    ClaimAlone(s, t, account, o);
    if t in s2.threads {
      IssueAlone(s2, t, o, result, wrote);
      assert s2.threads - {t} == s.threads;
    } else {
      EndedStays(s2, t, Bits(result, wrote));
    }
  }
}
