/**
 Issuing end-entity certificates: `create` and `sign` commands run at once, each
 checking twice, first without the write lock and again under it. A signing
 request spends the pending nonce of an enrolled identity; both kinds respect the
 renewal window of the certificates already in the index.
 */
module Issuance {
  import opened Strings

  const RENEW_WINDOW_PCT: int := 33
  const NONCE_MINUTES: int := 5
  const ROTATE_FLOOR: int := 60
  const ROTATE_PCT: int := 20
  const MIN_LIFE: int := 5 * 60

  // ---------------------------------------------------------------- the index

  datatype Row = Row(cn: string, kind: string, notBefore: int, notAfter: int, revoked: bool)

  /** Active and not expired. */
  predicate Live(r: Row, now: int) {
    !r.revoked && r.notAfter > now
  }

  /** Live, and with more than the renewal window of its life left. */
  predicate Blocks(r: Row, now: int) {
    Live(r, now) && (r.notAfter - now) * 100 > (r.notAfter - r.notBefore) * RENEW_WINDOW_PCT
  }

  predicate IsFor(r: Row, cn: string, kind: string) {
    r.cn == cn && r.kind == kind
  }

  predicate Blocked(index: seq<Row>, cn: string, kind: string, now: int) {
    exists i :: 0 <= i < |index| && IsFor(index[i], cn, kind) && Blocks(index[i], now)
  }

  // ---------------------------------------------------------------- enrollment

  datatype Enrollment = Enrollment(nonce: string, issued: int, minutes: int, consumed: bool)

  function Expiry(e: Enrollment): int {
    e.issued + e.minutes * 60
  }

  function MinLeft(e: Enrollment): int {
    var share := e.minutes * 60 * ROTATE_PCT / 100;
    if share > ROTATE_FLOOR then share else ROTATE_FLOOR
  }

  /** `get nonce` prints the pending nonce again rather than rotating it. */
  predicate Reprints(e: Enrollment, now: int) {
    e.nonce != "" && !e.consumed && now < Expiry(e) && Expiry(e) - now >= MinLeft(e)
  }

  function Rotated(nonce: string, now: int): Enrollment {
    Enrollment(nonce, now, NONCE_MINUTES, false)
  }

  /** The nonce half of a signing request's check. */
  predicate Accepts(rows: map<string, Enrollment>, id: string, nonce: string, now: int) {
    && id in rows && rows[id].nonce != "" && !rows[id].consumed
    && now < Expiry(rows[id]) && nonce == rows[id].nonce
  }

  // ---------------------------------------------------------------- the machine

  datatype Voucher = Voucher(id: string, nonce: string)
  datatype Request = Request(cn: string, kind: string, life: nat, voucher: Option<Voucher>)

  /** `printed`, `commits` and `spentAt` only record what has happened. */
  datatype State = State(
    index: seq<Row>,
    rows: map<string, Enrollment>,
    threads: map<nat, Request>,
    now: int,
    printed: map<string, int>,             // when a nonce was drawn
    commits: multiset<string>,             // signing commits per nonce
    spentAt: map<string, int>)             // the clock of the check under the lock

  datatype Event =
    | Tick(seconds: nat)
    | Enroll(id: string)
    | GetNonce(id: string, draw: string)
    | Begin(tid: nat, r: Request)
    | Commit(tid: nat, checking: nat, signing: nat)
    | Drop(tid: nat)
    | Revoke(i: nat)

  function Init(now: int): State {
    State([], map[], map[], now, map[], multiset{}, map[])
  }

  predicate VoucherHolds(rows: map<string, Enrollment>, v: Option<Voucher>, now: int) {
    v.Some? ==> Accepts(rows, v.value.id, v.value.nonce, now)
  }

  predicate Passes(s: State, r: Request, checking: nat) {
    VoucherHolds(s.rows, r.voucher, s.now) && !Blocked(s.index, r.cn, r.kind, s.now + checking)
  }

  function Issued(r: Request, at: int): Row {
    Row(r.cn, r.kind, at, at + r.life, false)
  }

  function Spend(rows: map<string, Enrollment>, v: Option<Voucher>): map<string, Enrollment> {
    if v.Some? && v.value.id in rows then rows[v.value.id := rows[v.value.id].(consumed := true)] else rows
  }

  /** Under the lock: the checks again, then the certificate and the spent nonce together. */
  function CommitStep(s: State, t: nat, checking: nat, signing: nat): State
    requires t in s.threads
  {
    var r := s.threads[t];
    var s' := s.(threads := s.threads - {t}, now := s.now + checking + signing);
    if !Passes(s, r, checking) then s' else
    var signed := s'.(index := s.index + [Issued(r, s'.now)], rows := Spend(s.rows, r.voucher));
    if r.voucher.None? then signed else
    signed.(commits := s.commits + multiset{r.voucher.value.nonce}, spentAt := s.spentAt[r.voucher.value.nonce := s.now])
  }

  function NonceStep(s: State, id: string, draw: string): State
    requires id in s.rows
  {
    if Reprints(s.rows[id], s.now) then s else
    s.(rows := s.rows[id := Rotated(draw, s.now)], printed := s.printed[draw := s.now])
  }

  /** Draws are 32 random bytes and do not repeat. */
  predicate Enabled(s: State, e: Event) {
    match e
    case Tick(_) => true
    case Enroll(id) => id != "" && id !in s.rows
    case GetNonce(id, draw) => id in s.rows && draw != "" && draw !in s.printed
    case Begin(t, r) => t !in s.threads && r.life >= MIN_LIFE && Passes(s, r, 0)
    case Commit(t, _, _) => t in s.threads
    case Drop(t) => t in s.threads
    case Revoke(i) => i < |s.index| && Live(s.index[i], s.now)
  }

  function Next(s: State, e: Event): State {
    if !Enabled(s, e) then s else
    match e
    case Tick(seconds) => s.(now := s.now + seconds)
    case Enroll(id) => s.(rows := s.rows[id := Enrollment("", 0, 0, true)])
    case GetNonce(id, draw) => NonceStep(s, id, draw)
    case Begin(t, r) => s.(threads := s.threads[t := r])
    case Commit(t, checking, signing) => CommitStep(s, t, checking, signing)
    case Drop(t) => s.(threads := s.threads - {t})
    case Revoke(i) => s.(index := s.index[i := s.index[i].(revoked := true)])
  }

  function Run(s: State, es: seq<Event>): State
    decreases |es|
  {
    if es == [] then s else Run(Next(s, es[0]), es[1..])
  }

  ghost predicate Reachable(s: State) {
    exists t0: int, es: seq<Event> :: s == Run(Init(t0), es)
  }

  // ---------------------------------------------------------------- what a step does

  /**
   A request passes exactly with the pending nonce of its identity, in time, and while every
   unrevoked certificate of its name and kind is expired or has at most 33% of its life left.
   */
  lemma PassesMeans(s: State, r: Request, checking: nat)
    ensures Passes(s, r, checking) <==>
              && (r.voucher.Some? ==>
                    && r.voucher.value.id in s.rows
                    && var e := s.rows[r.voucher.value.id];
                       e.nonce != "" && e.nonce == r.voucher.value.nonce && !e.consumed && s.now < e.issued + e.minutes * 60)
              && forall i :: 0 <= i < |s.index| && s.index[i].cn == r.cn && s.index[i].kind == r.kind && !s.index[i].revoked ==>
                   || s.index[i].notAfter <= s.now + checking
                   || (s.index[i].notAfter - s.now - checking) * 100 <= (s.index[i].notAfter - s.index[i].notBefore) * 33
  {
    if Passes(s, r, checking) {
      forall i | 0 <= i < |s.index| && s.index[i].cn == r.cn && s.index[i].kind == r.kind && !s.index[i].revoked
        ensures !Blocks(s.index[i], s.now + checking)
      {
        assert IsFor(s.index[i], r.cn, r.kind);
      }
    }
  }

  /** A command commits exactly when the locked checks pass: one row dated as it signs, and its nonce spent, if it has one. */
  lemma CommitMeans(s: State, t: nat, checking: nat, signing: nat)
    requires t in s.threads
    ensures var r, s', at := s.threads[t], Next(s, Commit(t, checking, signing)), s.now + checking + signing;
            && s'.now == at && s'.threads == s.threads - {t}
            && if Passes(s, r, checking)
               then && s'.index == s.index + [Row(r.cn, r.kind, at, at + r.life, false)]
                    && s'.rows == (match r.voucher
                                   case None => s.rows
                                   case Some(v) => s.rows[v.id := s.rows[v.id].(consumed := true)])
                    && s'.commits == (match r.voucher case None => s.commits case Some(v) => s.commits + multiset{v.nonce})
               else s'.index == s.index && s'.rows == s.rows && s'.commits == s.commits
  {
  }

  /** It begins exactly when its life is at least five minutes and the same checks pass already. */
  lemma BeginsExactlyWhen(s: State, t: nat, r: Request)
    requires t !in s.threads
    ensures Next(s, Begin(t, r)) == if r.life >= 300 && Passes(s, r, 0) then s.(threads := s.threads[t := r]) else s
  {
    if r.life >= MIN_LIFE && Passes(s, r, 0) { assert Enabled(s, Begin(t, r)); }
    hide Passes;
  }

  // ---------------------------------------------------------------- the renewal window

  /** Of two certificates for one name and kind, the older had entered its window when the younger began. */
  ghost predicate Spaced(index: seq<Row>) {
    forall i, j :: 0 <= i < j < |index| && SameUnrevoked(index[i], index[j]) ==> !Blocks(index[i], index[j].notBefore)
  }

  predicate SameUnrevoked(a: Row, b: Row) {
    IsFor(a, b.cn, b.kind) && !a.revoked && !b.revoked
  }

  ghost predicate Begun(index: seq<Row>, now: int) {
    forall i :: 0 <= i < |index| ==> index[i].notBefore <= now && index[i].notAfter - index[i].notBefore >= MIN_LIFE
  }

  ghost predicate Lifetimes(threads: map<nat, Request>) {
    forall t :: t in threads ==> threads[t].life >= MIN_LIFE
  }

  ghost predicate WindowInv(s: State) {
    Spaced(s.index) && Begun(s.index, s.now) && Lifetimes(s.threads)
  }

  lemma BlockingEnds(r: Row, t: int, later: int)
    requires !Blocks(r, t) && t <= later
    ensures !Blocks(r, later)
  {
  }

  lemma IssueKeepsSpacing(index: seq<Row>, r: Request, check: int, at: int)
    requires Spaced(index) && !Blocked(index, r.cn, r.kind, check) && check <= at
    ensures Spaced(index + [Issued(r, at)])
  {
    var index' := index + [Issued(r, at)];
    forall i, j | 0 <= i < j < |index'| && SameUnrevoked(index'[i], index'[j]) ensures !Blocks(index'[i], index'[j].notBefore) {
      if j == |index| { BlockingEnds(index[i], check, at); }
    }
  }

  lemma WindowKept(s: State, e: Event)
    requires WindowInv(s)
    ensures WindowInv(Next(s, e))
  {
    if Enabled(s, e) && e.Commit? && Passes(s, s.threads[e.tid], e.checking) {
      IssueKeepsSpacing(s.index, s.threads[e.tid], s.now + e.checking, s.now + e.checking + e.signing);
      hide Passes, Spaced;
    }
  }

  lemma {:induction false} RunKeepsWindow(s: State, es: seq<Event>)
    requires WindowInv(s)
    ensures WindowInv(Run(s, es))
    decreases |es|
  {
    hide WindowInv, Next;
    if es != [] {
      WindowKept(s, es[0]);
      RunKeepsWindow(Next(s, es[0]), es[1..]);
    }
  }

  lemma ReachableWindow(s: State)
    requires Reachable(s)
    ensures WindowInv(s)
  {
    var t0: int, es :| s == Run(Init(t0), es);
    RunKeepsWindow(Init(t0), es);
  }

  /** At any moment at most one certificate of a name and kind has more than the window left. */
  lemma OneOutsideTheWindow(s: State, i: nat, j: nat)
    requires Reachable(s) && i < |s.index| && j < |s.index|
    requires IsFor(s.index[i], s.index[j].cn, s.index[j].kind)
    requires Blocks(s.index[i], s.now) && Blocks(s.index[j], s.now)
    ensures i == j
  {
    ReachableWindow(s);
    if i < j { BlockingEnds(s.index[i], s.index[j].notBefore, s.now); }
    if j < i { BlockingEnds(s.index[j], s.index[i].notBefore, s.now); }
  }

  // ---------------------------------------------------------------- the look-up by name

  /** What a look-up by name and kind may return: a live row, and none began later. */
  ghost predicate Found(s: State, cn: string, kind: string, i: nat) {
    && i < |s.index| && IsFor(s.index[i], cn, kind) && Live(s.index[i], s.now)
    && forall j :: 0 <= j < |s.index| && IsFor(s.index[j], cn, kind) && Live(s.index[j], s.now) ==>
         s.index[j].notBefore <= s.index[i].notBefore
  }

  /** A later certificate of the same name and kind is live. */
  predicate Succeeded(s: State, i: nat)
    requires i < |s.index|
  {
    exists j :: i < j < |s.index| && IsFor(s.index[j], s.index[i].cn, s.index[i].kind) && Live(s.index[j], s.now)
  }

  /** The renewal window makes live certificates of one name and kind begin in the order they were issued. */
  lemma LiveBeginInOrder(s: State, i: nat, j: nat)
    requires Reachable(s) && i < j < |s.index| && IsFor(s.index[i], s.index[j].cn, s.index[j].kind)
    requires Live(s.index[i], s.now) && Live(s.index[j], s.now)
    ensures s.index[i].notBefore < s.index[j].notBefore
  {
    ReachableWindow(s);
    assert SameUnrevoked(s.index[i], s.index[j]);
  }

  /**
   Once a certificate is issued, a look-up by its name and kind finds that one
   exactly while it is live and no successor is: any other answer is an older one
   after its revocation or expiry, or a younger one.
   */
  lemma LookupFindsExactlyWhen(s: State, i: nat, found: nat)
    requires Reachable(s) && i < |s.index| && Found(s, s.index[i].cn, s.index[i].kind, found)
    ensures found == i <==> Live(s.index[i], s.now) && !Succeeded(s, i)
  {
    hide Reachable;
    if found == i && Succeeded(s, i) {
      var j :| i < j < |s.index| && IsFor(s.index[j], s.index[i].cn, s.index[i].kind) && Live(s.index[j], s.now);
      LiveBeginInOrder(s, i, j);
    }
    if found < i && Live(s.index[i], s.now) { LiveBeginInOrder(s, found, i); }
  }

  /** With more than the renewal window of its life to go, it is found exactly when it is not revoked. */
  lemma OutsideTheWindowExactlyUnrevoked(s: State, i: nat, found: nat)
    requires Reachable(s) && i < |s.index| && Found(s, s.index[i].cn, s.index[i].kind, found)
    requires Blocks(s.index[i].(revoked := false), s.now)
    ensures found == i <==> !s.index[i].revoked
  {
    ReachableWindow(s);
    LookupFindsExactlyWhen(s, i, found);
  }

  /** Rows stay where they are, with only their revocation to change; a commit may add one. */
  lemma IndexGrows(s: State, e: Event)
    ensures var index, index' := s.index, Next(s, e).index;
            && |index| <= |index'| <= |index| + 1
            && (forall i :: 0 <= i < |index| ==> index'[i].(revoked := index[i].revoked) == index[i])
            && (|index'| > |index| ==> e.Commit? && e.tid in s.threads && index'[|index|] == Issued(s.threads[e.tid], Next(s, e).now))
  {
    hide Passes, Reprints, Spend;
  }

  // ---------------------------------------------------------------- how many can overlap

  /** The seconds until 33% or less of a lifetime is left. */
  function Wait(life: int): int {
    (life * (100 - RENEW_WINDOW_PCT) + 99) / 100
  }

  function Life(r: Row): int {
    r.notAfter - r.notBefore
  }

  /** Three certificates of one name and kind are live together, the oldest two of these lifetimes. */
  ghost predicate ThreeLive(s: State, cn: string, kind: string, first: int, second: int) {
    exists i, j, k :: 0 <= i < j < k < |s.index| && LiveTriple(s, i, j, k, cn, kind)
                      && Life(s.index[i]) == first && Life(s.index[j]) == second
  }

  predicate LiveTriple(s: State, i: nat, j: nat, k: nat, cn: string, kind: string)
    requires i < |s.index| && j < |s.index| && k < |s.index|
  {
    && IsFor(s.index[i], cn, kind) && IsFor(s.index[j], cn, kind) && IsFor(s.index[k], cn, kind)
    && Live(s.index[i], s.now) && Live(s.index[j], s.now) && Live(s.index[k], s.now)
  }

  lemma SuccessorWaits(a: Row, t: int)
    requires !a.revoked && !Blocks(a, t) && t < a.notAfter
    ensures t - a.notBefore >= Wait(Life(a))
  {
  }

  lemma TripleNeedsRoom(s: State, i: nat, j: nat, k: nat, cn: string, kind: string)
    requires Reachable(s) && i < j < k < |s.index| && LiveTriple(s, i, j, k, cn, kind)
    ensures Wait(Life(s.index[i])) + Wait(Life(s.index[j])) < Life(s.index[i])
  {
    ReachableWindow(s);
    var a, b, c := s.index[i], s.index[j], s.index[k];
    assert SameUnrevoked(a, b) && SameUnrevoked(b, c);
    SuccessorWaits(a, b.notBefore);
    SuccessorWaits(b, c.notBefore);
  }

  /** So with one lifetime, at most two are ever live together. */
  lemma EqualLifetimesOverlapTwice(s: State, i: nat, j: nat, k: nat, cn: string, kind: string)
    requires Reachable(s) && i < j < k < |s.index| && LiveTriple(s, i, j, k, cn, kind)
    ensures Life(s.index[i]) * 33 > Life(s.index[j]) * 67
    ensures Life(s.index[i]) != Life(s.index[j])
  {
    ReachableWindow(s);
    TripleNeedsRoom(s, i, j, k, cn, kind);
  }

  lemma {:induction false} RunOneMore(s: State, es: seq<Event>, e: Event)
    ensures Run(s, es + [e]) == Next(Run(s, es), e)
    decreases |es|
  {
    if es == [] {
      assert es + [e] == [e];
      assert Run(Next(s, e), []) == Next(s, e);
    } else {
      assert (es + [e])[1..] == es[1..] + [e];
      RunOneMore(Next(s, es[0]), es[1..], e);
    }
  }

  lemma ReachableNext(s: State, e: Event)
    requires Reachable(s)
    ensures Reachable(Next(s, e))
  {
    var t0: int, es :| s == Run(Init(t0), es);
    RunOneMore(Init(t0), es, e);
    assert Next(s, e) == Run(Init(t0), es + [e]);
  }

  /** One uninterrupted `create`, then time passing. */
  lemma CreateThenWait(s: State, r: Request, seconds: nat) returns (s': State)
    requires Reachable(s) && 0 !in s.threads && r.life >= MIN_LIFE && r.voucher.None?
    requires !Blocked(s.index, r.cn, r.kind, s.now)
    ensures Reachable(s') && s'.index == s.index + [Issued(r, s.now)] && s'.now == s.now + seconds && 0 !in s'.threads
  {
    var begun := Next(s, Begin(0, r));
    var done := Next(begun, Commit(0, 0, 0));
    s' := Next(done, Tick(seconds));
    ReachableNext(s, Begin(0, r));
    ReachableNext(begun, Commit(0, 0, 0));
    ReachableNext(done, Tick(seconds));
    hide Reachable;
    assert Passes(begun, r, 0);
  }

  /** Exactly which lifetimes let a third certificate start while the first still lives. */
  lemma ThreeLiveExactlyWhen(cn: string, kind: string, first: nat, second: nat)
    requires first >= MIN_LIFE && second >= MIN_LIFE
    ensures (exists s :: Reachable(s) && ThreeLive(s, cn, kind, first, second)) <==> Wait(first) + Wait(second) < first
  {
    if Wait(first) + Wait(second) < first { var s := BuildThree(cn, kind, first, second); }
    if s :| Reachable(s) && ThreeLive(s, cn, kind, first, second) {
      var i: nat, j: nat, k: nat :| 0 <= i < j < k < |s.index| && LiveTriple(s, i, j, k, cn, kind)
                                    && Life(s.index[i]) == first && Life(s.index[j]) == second;
      TripleNeedsRoom(s, i, j, k, cn, kind);
    }
  }

  lemma BuildThree(cn: string, kind: string, first: nat, second: nat) returns (s: State)
    requires first >= MIN_LIFE && second >= MIN_LIFE && Wait(first) + Wait(second) < first
    ensures Reachable(s) && ThreeLive(s, cn, kind, first, second)
  {
    var s0 := Init(0);
    assert s0 == Run(s0, []);
    var s1 := CreateThenWait(s0, Request(cn, kind, first, None), Wait(first));
    var s2 := CreateThenWait(s1, Request(cn, kind, second, None), Wait(second));
    var s3 := CreateThenWait(s2, Request(cn, kind, second, None), 0);
    assert LiveTriple(s3, 0, 1, 2, cn, kind) && Life(s3.index[0]) == first && Life(s3.index[1]) == second;
    return s3;
  }

  // ---------------------------------------------------------------- nonces

  /** A row holds a nonce drawn for it and nobody else; it is consumed exactly when a commit spent it. */
  ghost predicate Held(rows: map<string, Enrollment>, printed: map<string, int>, commits: multiset<string>) {
    && (forall id :: id in rows && rows[id].nonce != "" ==> Pending(rows[id], printed, commits))
    && (forall id :: id in rows && rows[id].nonce == "" ==> rows[id].consumed)
    && (forall a, b :: a in rows && b in rows && rows[a].nonce != "" && rows[a].nonce == rows[b].nonce ==> a == b)
  }

  ghost predicate Pending(e: Enrollment, printed: map<string, int>, commits: multiset<string>) {
    && e.nonce in printed && e == Rotated(e.nonce, printed[e.nonce]).(consumed := e.consumed)
    && commits[e.nonce] == if e.consumed then 1 else 0
  }

  ghost predicate SpentOnce(printed: map<string, int>, commits: multiset<string>, spentAt: map<string, int>) {
    && (forall n :: n in commits ==> commits[n] == 1 && n in printed && n in spentAt)
    && (forall n :: n in spentAt ==> n in printed && spentAt[n] < printed[n] + NONCE_MINUTES * 60)
  }

  ghost predicate NonceInv(s: State) {
    && Held(s.rows, s.printed, s.commits)
    && SpentOnce(s.printed, s.commits, s.spentAt)
    && DrawnBy(s.printed, s.now)
  }

  ghost predicate DrawnBy(printed: map<string, int>, now: int) {
    "" !in printed && forall n :: n in printed ==> printed[n] <= now
  }

  lemma RotationHeld(s: State, id: string, draw: string)
    requires NonceInv(s) && id in s.rows && draw !in s.printed && draw != ""
    ensures Held(NonceStep(s, id, draw).rows, NonceStep(s, id, draw).printed, s.commits)
  {
    hide Pending, Rotated, SpentOnce, DrawnBy;
    var rows, printed := s.rows[id := Rotated(draw, s.now)], s.printed[draw := s.now];
    NewNonceIsPending(s, draw);
    forall other | other in s.rows && other != id && rows[other].nonce != "" ensures Pending(rows[other], printed, s.commits) {
      OtherStaysPending(s.rows[other], s.printed, s.commits, draw, s.now);
    }
    forall other | other in s.rows && s.rows[other].nonce != "" ensures s.rows[other].nonce != draw {
      PendingIsPrinted(s.rows[other], s.printed, s.commits);
    }
  }

  lemma NewNonceIsPending(s: State, draw: string)
    requires NonceInv(s) && draw !in s.printed && draw != ""
    ensures Pending(Rotated(draw, s.now), s.printed[draw := s.now], s.commits)
    ensures Rotated(draw, s.now).nonce == draw
  {
    assert draw !in s.commits && s.commits[draw] == 0;
  }

  lemma OtherStaysPending(e: Enrollment, printed: map<string, int>, commits: multiset<string>, draw: string, now: int)
    requires Pending(e, printed, commits) && draw !in printed
    ensures Pending(e, printed[draw := now], commits)
  {
  }

  lemma PendingIsPrinted(e: Enrollment, printed: map<string, int>, commits: multiset<string>)
    requires Pending(e, printed, commits)
    ensures e.nonce in printed
  {
  }

  lemma SpendingHeld(s: State, v: Voucher)
    requires NonceInv(s) && Accepts(s.rows, v.id, v.nonce, s.now)
    ensures Held(Spend(s.rows, Some(v)), s.printed, s.commits + multiset{v.nonce})
    ensures SpentOnce(s.printed, s.commits + multiset{v.nonce}, s.spentAt[v.nonce := s.now])
  {
    assert Pending(s.rows[v.id], s.printed, s.commits);
    var rows, commits := Spend(s.rows, Some(v)), s.commits + multiset{v.nonce};
    forall other | other in rows && rows[other].nonce != "" ensures Pending(rows[other], s.printed, commits) {
      assert Pending(s.rows[other], s.printed, s.commits);
    }
  }

  lemma EnrollHeld(s: State, id: string)
    requires NonceInv(s) && id !in s.rows
    ensures Held(s.rows[id := Enrollment("", 0, 0, true)], s.printed, s.commits)
  {
    var rows := s.rows[id := Enrollment("", 0, 0, true)];
    forall other | other in rows && rows[other].nonce != "" ensures Pending(rows[other], s.printed, s.commits) {
      assert Pending(s.rows[other], s.printed, s.commits);
    }
  }

  lemma DrawnByKept(s: State, e: Event)
    requires DrawnBy(s.printed, s.now)
    ensures DrawnBy(Next(s, e).printed, Next(s, e).now)
  {
    hide Passes, Reprints, Spend;
  }

  lemma RotationSpent(s: State, id: string, draw: string)
    requires NonceInv(s) && id in s.rows && draw !in s.printed
    ensures SpentOnce(NonceStep(s, id, draw).printed, s.commits, s.spentAt)
  {
    hide Held, DrawnBy, Reprints;
  }

  lemma NoncesKept(s: State, e: Event)
    requires NonceInv(s)
    ensures NonceInv(Next(s, e))
  {
    DrawnByKept(s, e);
    if Enabled(s, e) {
      match e
      case GetNonce(id, draw) =>
        RotationHeld(s, id, draw);
        RotationSpent(s, id, draw);
        hide Held, SpentOnce, DrawnBy, Reprints;
      case Enroll(id) =>
        EnrollHeld(s, id);
        hide Held, SpentOnce, DrawnBy;
      case Commit(t, checking, signing) =>
        if Passes(s, s.threads[t], checking) && s.threads[t].voucher.Some? {
          SpendingHeld(s, s.threads[t].voucher.value);
        }
        hide Held, SpentOnce, DrawnBy, Passes;
      case _ => hide Held, SpentOnce, DrawnBy;
    }
  }

  lemma {:induction false} RunKeepsNonces(s: State, es: seq<Event>)
    requires NonceInv(s)
    ensures NonceInv(Run(s, es))
    decreases |es|
  {
    hide NonceInv, Next;
    if es != [] {
      NoncesKept(s, es[0]);
      RunKeepsNonces(Next(s, es[0]), es[1..]);
    }
  }

  lemma ReachableNonces(s: State)
    requires Reachable(s)
    ensures NonceInv(s)
  {
    var t0: int, es :| s == Run(Init(t0), es);
    assert NonceInv(Init(t0));
    RunKeepsNonces(Init(t0), es);
  }

  /** Each nonce pays for at most one certificate, and only within five minutes of being drawn. */
  lemma NonceSpentOnce(s: State, n: string)
    requires Reachable(s)
    ensures s.commits[n] <= 1
    ensures s.commits[n] == 1 ==> n in s.printed && n in s.spentAt && s.spentAt[n] < s.printed[n] + 300
  {
    ReachableNonces(s);
  }

  /** While a minute or more is left, asking again prints the same nonce; only then, or once spent, is it replaced. */
  lemma RotatesOnlyAtTheEnd(s: State, id: string, draw: string)
    requires Reachable(s) && Enabled(s, GetNonce(id, draw)) && s.rows[id].nonce != "" && !s.rows[id].consumed
    ensures s.rows[id].nonce in s.printed
    ensures s.now <= s.printed[s.rows[id].nonce] + 240 <==> Next(s, GetNonce(id, draw)) == s
    ensures s.now > s.printed[s.rows[id].nonce] + 240 <==> Next(s, GetNonce(id, draw)).rows[id].nonce == draw
  {
    ReachableNonces(s);
    assert Pending(s.rows[id], s.printed, s.commits);
  }

  lemma {:induction false} DrawTimesStay(s: State, es: seq<Event>, n: string)
    requires n in s.printed
    ensures n in Run(s, es).printed && Run(s, es).printed[n] == s.printed[n]
    decreases |es|
  {
    if es != [] {
      DrawTimeStays(s, es[0], n);
      hide Next;
      DrawTimesStay(Next(s, es[0]), es[1..], n);
    }
  }

  lemma DrawTimeStays(s: State, e: Event, n: string)
    requires n in s.printed
    ensures n in Next(s, e).printed && Next(s, e).printed[n] == s.printed[n]
  {
  }

  /** A nonce just printed is good for another minute, unless spent or rotated meanwhile. */
  lemma PrintedNonceLastsAMinute(s: State, id: string, draw: string, es: seq<Event>)
    requires Reachable(s) && Enabled(s, GetNonce(id, draw))
    ensures var after := Next(s, GetNonce(id, draw));
            var n, later := after.rows[id].nonce, Run(after, es);
            (later.commits[n] == 0 && id in later.rows && later.rows[id].nonce == n && later.now < s.now + 60) ==>
              Accepts(later.rows, id, n, later.now)
  {
    var after := Next(s, GetNonce(id, draw));
    var n, later := after.rows[id].nonce, Run(after, es);
    ReachableNonces(s);
    NoncesKept(s, GetNonce(id, draw));
    RunKeepsNonces(after, es);
    assert n != "" && Pending(after.rows[id], after.printed, after.commits);
    assert after.printed[n] + 240 >= s.now;
    DrawTimesStay(after, es, n);
    if id in later.rows && later.rows[id].nonce == n { assert Pending(later.rows[id], later.printed, later.commits); }
  }

  // ---------------------------------------------------------------- the store

  class Store {
    var index: seq<Row>
    var rows: map<string, Enrollment>

    constructor ()
      ensures index == [] && rows == map[]
    {
      index, rows := [], map[];
    }

    /** Counts the rows the duplicate query selects. */
    method BlockingDuplicate(cn: string, kind: string, now: int) returns (blocked: bool)
      ensures blocked == Blocked(index, cn, kind, now)
      ensures blocked <==> exists i :: 0 <= i < |index| && index[i].cn == cn && index[i].kind == kind && !index[i].revoked
                             && index[i].notAfter > now && (index[i].notAfter - now) * 100 > (index[i].notAfter - index[i].notBefore) * 33
    {
      var count := 0;
      for i := 0 to |index|
        invariant count > 0 <==> Blocked(index[..i], cn, kind, now)
      {
        assert index[..i + 1] == index[..i] + [index[i]];
        var r := index[i];
        if IsFor(r, cn, kind) && Blocks(r, now) {
          count := count + 1;
          assert IsFor(index[..i + 1][i], cn, kind) && Blocks(index[..i + 1][i], now);
        }
      }
      assert index[..|index|] == index;
      blocked := count != 0;
    }

    method GetNonce(id: string, now: int, draw: string) returns (printed: Option<string>)
      modifies this`rows
      ensures printed.None? <==> id !in old(rows)
      ensures printed.None? ==> rows == old(rows)
      ensures id in old(rows) ==>
                var e := old(rows)[id];
                var share := e.minutes * 60 * 20 / 100;
                if e.nonce != "" && !e.consumed && e.issued + e.minutes * 60 - now >= (if share > 60 then share else 60)
                then rows == old(rows)
                else rows == old(rows)[id := Enrollment(draw, now, 5, false)]
      ensures id in old(rows) ==> rows == if Reprints(old(rows)[id], now) then old(rows) else old(rows)[id := Rotated(draw, now)]
      ensures printed.Some? ==> id in rows && printed.value == rows[id].nonce
      ensures printed.Some? && draw != "" ==> Accepts(rows, id, printed.value, now) && now + 60 <= Expiry(rows[id])
    {
      if id !in rows { return None; }
      var e := rows[id];
      var expiry := e.issued + e.minutes * 60;
      var share := e.minutes * 60 * ROTATE_PCT / 100;
      var minLeft := if share > ROTATE_FLOOR then share else ROTATE_FLOOR;
      if e.nonce != "" && !e.consumed && now < expiry && expiry - now >= minLeft { return Some(e.nonce); }
      rows := rows[id := Enrollment(draw, now, NONCE_MINUTES, false)];
      printed := Some(draw);
    }

    /** The locked half of `sign` and `create`: both checks, the new row, the spent nonce. */
    method Commit(r: Request, noncesAt: int, duplicatesAt: int, signedAt: int) returns (ok: bool)
      modifies this
      ensures ok <==>
                && (r.voucher.Some? ==>
                      && r.voucher.value.id in old(rows)
                      && var e := old(rows)[r.voucher.value.id];
                         e.nonce != "" && e.nonce == r.voucher.value.nonce && !e.consumed && noncesAt < e.issued + e.minutes * 60)
                && !exists i :: 0 <= i < |old(index)| && old(index)[i].cn == r.cn && old(index)[i].kind == r.kind
                     && !old(index)[i].revoked && old(index)[i].notAfter > duplicatesAt
                     && (old(index)[i].notAfter - duplicatesAt) * 100 > (old(index)[i].notAfter - old(index)[i].notBefore) * 33
      ensures ok ==> index == old(index) + [Row(r.cn, r.kind, signedAt, signedAt + r.life, false)]
      ensures ok ==> rows == match r.voucher
                             case None => old(rows)
                             case Some(v) => old(rows)[v.id := Enrollment(v.nonce, old(rows)[v.id].issued, old(rows)[v.id].minutes, true)]
      ensures !ok ==> index == old(index) && rows == old(rows)
      ensures ok <==> VoucherHolds(old(rows), r.voucher, noncesAt) && !Blocked(old(index), r.cn, r.kind, duplicatesAt)
      ensures index == if ok then old(index) + [Issued(r, signedAt)] else old(index)
      ensures rows == if ok then Spend(old(rows), r.voucher) else old(rows)
    {
      if r.voucher.Some? {
        var v := r.voucher.value;
        if v.id !in rows { return false; }
        var e := rows[v.id];
        if e.nonce == "" || e.consumed || noncesAt >= e.issued + e.minutes * 60 || v.nonce != e.nonce { return false; }
      }
      var duplicate := BlockingDuplicate(r.cn, r.kind, duplicatesAt);
      if duplicate { return false; }
      index := index + [Row(r.cn, r.kind, signedAt, signedAt + r.life, false)];
      if r.voucher.Some? { rows := rows[r.voucher.value.id := rows[r.voucher.value.id].(consumed := true)]; }
      ok := true;
    }
  }
}
