/**
 The order, authorization and challenge tables of the ACME frontend and the SQL
 statements that change them. Each statement is one atomic step: the pool holds
 a single connection.

 Row ids are drawn at random and never repeat. They are modelled as structured
 names (an order number, a position in the order, a challenge type), which makes
 them distinct by construction; the columns a statement looks at are kept in the
 rows beside them.
 */
module AcmeTables {
  import opened Strings

  datatype Status = Pending | Ready | Processing | Valid | Invalid
  datatype ChallengeType = Http01 | Dns01
  datatype AuthzId = AuthzId(order: nat, index: nat)
  datatype ChallengeId = ChallengeId(authz: AuthzId, kind: ChallengeType)

  datatype Order = Order(account: nat, status: Status, identifiers: seq<string>, expires: int, certId: Option<nat>)
  datatype Authz = Authz(order: nat, account: nat, identifier: string, status: Status, expires: int, wildcard: bool)
  datatype Challenge = Challenge(authz: AuthzId, kind: ChallengeType, status: Status)

  datatype Tables = Tables(
    orders: map<nat, Order>,
    authzs: map<AuthzId, Authz>,
    challenges: map<ChallengeId, Challenge>)

  // ---------------------------------------------------------------- statements

  function SetOrderStatus(t: Tables, o: nat, status: Status, certId: Option<nat>): Tables {
    if o in t.orders then t.(orders := t.orders[o := t.orders[o].(status := status, certId := certId)]) else t
  }

  function SetAuthzStatus(t: Tables, a: AuthzId, status: Status): Tables {
    if a in t.authzs then t.(authzs := t.authzs[a := t.authzs[a].(status := status)]) else t
  }

  function SetChallengeStatus(t: Tables, c: ChallengeId, status: Status): Tables {
    if c in t.challenges then t.(challenges := t.challenges[c := t.challenges[c].(status := status)]) else t
  }

  /** The WHERE clause of the challenge claim. */
  predicate Claimable(t: Tables, c: ChallengeId, a: AuthzId) {
    && c in t.challenges && t.challenges[c].status == Pending
    && (forall d :: d in t.challenges && t.challenges[d].authz == a ==> t.challenges[d].status == Pending)
    && a in t.authzs && t.authzs[a].status == Pending
  }

  /** The WHERE clause of the order claim. */
  predicate OrderClaimable(t: Tables, o: nat, now: int) {
    o in t.orders && t.orders[o].status == Ready && t.orders[o].expires > now
  }

  /** What the loop over an order's authorizations computes; true of an order without any. */
  predicate AllValid(t: Tables, o: nat) {
    forall a :: a in t.authzs && t.authzs[a].order == o ==> t.authzs[a].status == Valid
  }

  function DeleteExpiredOrders(t: Tables, cutoff: int): Tables {
    t.(orders := map o | o in t.orders && t.orders[o].expires >= cutoff :: t.orders[o])
  }

  function DeleteExpiredAuthzs(t: Tables, cutoff: int): Tables {
    t.(authzs := map a | a in t.authzs && t.authzs[a].expires >= cutoff :: t.authzs[a])
  }

  function DeleteOrphanChallenges(t: Tables): Tables {
    t.(challenges := map c | c in t.challenges && t.challenges[c].authz in t.authzs :: t.challenges[c])
  }

  // ---------------------------------------------------------------- new orders

  /** The row inserted for identifier `i` of order `o`: the base name plus a flag. */
  function AuthzRow(o: nat, order: Order, i: nat): Authz
    requires i < |order.identifiers|
  {
    var (base, wildcard) := CutWildcard(order.identifiers[i]);
    Authz(o, order.account, base, Pending, order.expires, wildcard)
  }

  /** Whether a challenge of this type is created for identifier `i`. */
  predicate Offered(order: Order, i: nat, kind: ChallengeType)
    requires i < |order.identifiers|
  {
    CutWildcard(order.identifiers[i]).1 ==> kind == Dns01
  }

  predicate IsAuthzOf(a: AuthzId, o: nat, n: nat) {
    a.order == o && a.index < n
  }

  predicate IsChallengeOf(c: ChallengeId, o: nat, order: Order, n: nat)
    requires n <= |order.identifiers|
  {
    IsAuthzOf(c.authz, o, n) && Offered(order, c.authz.index, c.kind)
  }

  /** The authorization ids of the first `n` identifiers of an order. */
  function AuthzIds(o: nat, n: nat): (ids: set<AuthzId>)
    ensures forall a :: a in ids <==> IsAuthzOf(a, o, n)
  {
    var ids := set i | 0 <= i < n :: AuthzId(o, i);
    assert forall a :: IsAuthzOf(a, o, n) ==> a == AuthzId(o, a.index);
    ids
  }

  /** Their challenge ids: a wildcard is offered dns-01 alone. */
  function ChallengeIds(o: nat, order: Order, n: nat): (ids: set<ChallengeId>)
    requires n <= |order.identifiers|
    ensures forall c :: c in ids <==> IsChallengeOf(c, o, order, n)
  {
    ChallengeIdsOf(o, order, n, Http01) + ChallengeIdsOf(o, order, n, Dns01)
  }

  function ChallengeIdsOf(o: nat, order: Order, n: nat, kind: ChallengeType): (ids: set<ChallengeId>)
    requires n <= |order.identifiers|
    ensures forall c :: c in ids <==> IsChallengeOf(c, o, order, n) && c.kind == kind
  {
    var ids := set i | 0 <= i < n && Offered(order, i, kind) :: ChallengeId(AuthzId(o, i), kind);
    assert forall c :: IsChallengeOf(c, o, order, n) ==> c == ChallengeId(AuthzId(o, c.authz.index), c.kind);
    ids
  }

  /** The rows of the first `n` identifiers. */
  function InsertAuthzs(t: Tables, o: nat, order: Order, n: nat): Tables
    requires n <= |order.identifiers|
  {
    t.(authzs := t.authzs + map a | a in AuthzIds(o, n) :: AuthzRow(o, order, a.index),
       challenges := t.challenges + map c | c in ChallengeIds(o, order, n) :: Challenge(c.authz, c.kind, Pending))
  }

  function InsertOrder(t: Tables, o: nat, order: Order): Tables {
    InsertAuthzs(t.(orders := t.orders[o := order]), o, order, |order.identifiers|)
  }

  /** Two sets of rows side by side. */
  function Merge(t: Tables, more: Tables): Tables {
    Tables(t.orders + more.orders, t.authzs + more.authzs, t.challenges + more.challenges)
  }

  lemma MergeTwice(t: Tables, more: Tables, yet: Tables)
    ensures Merge(Merge(t, more), yet) == Merge(t, Merge(more, yet))
  {
    assert t.orders + more.orders + yet.orders == t.orders + (more.orders + yet.orders);
    assert t.authzs + more.authzs + yet.authzs == t.authzs + (more.authzs + yet.authzs);
    assert t.challenges + more.challenges + yet.challenges == t.challenges + (more.challenges + yet.challenges);
  }

  /** Some of the rows of a new order. */
  ghost predicate PartOf(rows: Tables, o: nat, order: Order) {
    && (forall p :: p in rows.orders ==> p == o && rows.orders[p] == order)
    && (forall a :: a in rows.authzs ==>
          IsAuthzOf(a, o, |order.identifiers|) && rows.authzs[a] == AuthzRow(o, order, a.index))
    && (forall c :: c in rows.challenges ==>
          IsChallengeOf(c, o, order, |order.identifiers|) && rows.challenges[c] == Challenge(c.authz, c.kind, Pending))
  }

  // ---------------------------------------------------------------- what a new order adds

  /** The authorization of one name: that name without its wildcard label, a flag for the label, the order's terms. */
  predicate AuthorizesName(row: Authz, o: nat, account: nat, name: string, expires: int) {
    && row.order == o && row.account == account && row.expires == expires
    && row.wildcard == IsWildcard(name)
    && name == if row.wildcard then "*." + row.identifier else row.identifier
  }

  /**
   The rows that newOrder adds: a pending order without a certificate; for its i-th
   name one pending authorization of that name; for that one pending challenge by
   DNS and, without a wildcard, one by HTTP. Nothing else changes.
   */
  ghost predicate Adds(t: Tables, after: Tables, o: nat, account: nat, names: seq<string>, expires: int) {
    && after.orders == t.orders[o := Order(account, Pending, names, expires, None)]
    && AddsAuthzs(t.authzs, after.authzs, o, account, names, expires)
    && AddsChallenges(t.challenges, after.challenges, o, names)
  }

  ghost predicate AddsAuthzs(
      rows: map<AuthzId, Authz>, after: map<AuthzId, Authz>, o: nat, account: nat, names: seq<string>, expires: int)
  {
    && (forall a :: a in after <==> a in rows || (a.order == o && a.index < |names|))
    && (forall a :: a in rows && !(a.order == o && a.index < |names|) ==> after[a] == rows[a])
    && (forall a :: a in after && a.order == o && a.index < |names| ==>
          AuthorizesName(after[a], o, account, names[a.index], expires) && after[a].status == Pending)
  }

  ghost predicate AddsChallenges(
      rows: map<ChallengeId, Challenge>, after: map<ChallengeId, Challenge>, o: nat, names: seq<string>)
  {
    && (forall c :: c in after <==> c in rows || NewChallenge(c, o, names))
    && (forall c :: c in rows && !NewChallenge(c, o, names) ==> after[c] == rows[c])
    && (forall c :: c in after && NewChallenge(c, o, names) ==> after[c] == Challenge(c.authz, c.kind, Pending))
  }

  predicate NewChallenge(c: ChallengeId, o: nat, names: seq<string>) {
    c.authz.order == o && c.authz.index < |names| && (IsWildcard(names[c.authz.index]) ==> c.kind == Dns01)
  }

  lemma InsertOrderAdds(t: Tables, o: nat, order: Order)
    requires order.status == Pending && order.certId == None
    ensures Adds(t, InsertOrder(t, o, order), o, order.account, order.identifiers, order.expires)
  {
    hide AuthzIds, ChallengeIds, AuthzRow, AddsAuthzs, AddsChallenges, AuthorizesName;
    var n := |order.identifiers|;
    InsertedAuthzs(t.authzs, o, order);
    InsertedChallenges(t.challenges, o, order);
  }

  lemma InsertedAuthzs(rows: map<AuthzId, Authz>, o: nat, order: Order)
    ensures AddsAuthzs(rows, rows + map a | a in AuthzIds(o, |order.identifiers|) :: AuthzRow(o, order, a.index),
                       o, order.account, order.identifiers, order.expires)
  {
    hide AuthzIds;
    forall i | 0 <= i < |order.identifiers|
      ensures AuthorizesName(AuthzRow(o, order, i), o, order.account, order.identifiers[i], order.expires)
      ensures AuthzRow(o, order, i).status == Pending
    {
      WildcardIsCut(order.identifiers[i]);
    }
    hide AuthzRow, AuthorizesName;
  }

  lemma InsertedChallenges(rows: map<ChallengeId, Challenge>, o: nat, order: Order)
    ensures AddsChallenges(
              rows, rows + map c | c in ChallengeIds(o, order, |order.identifiers|) :: Challenge(c.authz, c.kind, Pending),
              o, order.identifiers)
  {
    hide ChallengeIds;
    forall c ensures NewChallenge(c, o, order.identifiers) <==> IsChallengeOf(c, o, order, |order.identifiers|) {
      if c.authz.index < |order.identifiers| { WildcardIsCut(order.identifiers[c.authz.index]); }
    }
    hide NewChallenge, IsChallengeOf;
  }
}
