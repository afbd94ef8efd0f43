/**
 The replay nonces of the ACME frontend. Issuing one is three SQL statements
 (drop the expired, trim the oldest, insert), and any number of requests issue
 and consume nonces at once. Rows carry the rowid SQLite gives them: one more
 than the largest in the table, so a rowid can come back after its row is gone.
 */
module ReplayNonces {
  import opened Strings

  const MAX_NONCES: int := 10000
  const NONCE_TTL: int := 30 * 60

  datatype Row = Row(value: string, created: int)
  type Table = map<nat, Row>

  /** One past the largest rowid; 1 for an empty table. */
  ghost function NextRowid(rows: Table): (n: nat)
    ensures n > 0 && (forall r :: r in rows ==> r < n)
    ensures if rows == map[] then n == 1 else n - 1 in rows
  {
    NextOf(rows.Keys)
  }

  ghost function NextOf(ids: set<nat>): (n: nat)
    ensures n > 0 && (forall r :: r in ids ==> r < n)
    ensures if ids == {} then n == 1 else n - 1 in ids
  {
    if ids == {} then 1 else
      var r :| r in ids;
      var n := NextOf(ids - {r});
      assert forall x :: x in ids ==> x == r || x in ids - {r};
      if r >= n then r + 1 else n
  }

  function DeleteExpired(rows: Table, cutoff: int): Table {
    map r | r in rows && rows[r].created >= cutoff :: rows[r]
  }

  /** `rowid <= MAX(rowid) - (N - 1)`; of an empty table the maximum is NULL and nothing is deleted. */
  ghost function Trim(rows: Table): Table {
    map r | r in rows && r > NextRowid(rows) - 1 - (MAX_NONCES - 1) :: rows[r]
  }

  function Delete(rows: Table, value: string): Table {
    map r | r in rows && rows[r].value != value :: rows[r]
  }

  predicate Has(rows: Table, value: string) {
    exists r :: r in rows && rows[r].value == value
  }

  /** The column is a primary key: a second row of the same value is refused. */
  ghost function Insert(rows: Table, value: string, created: int): Table {
    if Has(rows, value) then rows else rows[NextRowid(rows) := Row(value, created)]
  }

  // ---------------------------------------------------------------- the machine

  /** A request issuing a nonce: the statement it runs next and the clock it has read for it. */
  datatype Thread =
    | Expiring(value: string, cutoff: int)
    | Trimming(value: string)
    | Stamping(value: string)
    | Inserting(value: string, created: int)

  datatype Issue = Issue(serial: nat, created: int)

  /** `issued`, `accepted`, `expired` and `trimmed` only record what has happened. */
  datatype State = State(
    rows: Table,
    threads: map<nat, Thread>,
    now: int,
    drawn: set<string>,
    issued: map<string, Issue>,
    accepted: multiset<string>,
    expired: set<string>,
    trimmed: set<string>)

  datatype Event =
    | Tick(seconds: nat)
    | Start(tid: nat, value: string)
    | Step(tid: nat, ok: bool)
    | Drop(tid: nat)
    | Consume(value: string)

  function Init(now: int): State {
    State(map[], map[], now, {}, map[], multiset{}, {}, {})
  }

  /** Values are drawn from 136 random bits and do not repeat. */
  predicate Enabled(s: State, e: Event) {
    match e
    case Start(t, value) => t !in s.threads && value !in s.drawn
    case Step(t, _) => t in s.threads
    case _ => true
  }

  ghost function Values(rows: Table): set<string> {
    set r | r in rows :: rows[r].value
  }

  /** The nonces `after` no longer has. */
  ghost function Lost(before: Table, after: Table): set<string> {
    Values(before) - Values(after)
  }

  ghost function StepIssue(s: State, t: nat): State
    requires t in s.threads
  {
    match s.threads[t]
    case Expiring(value, cutoff) =>
      var kept := DeleteExpired(s.rows, cutoff);
      s.(rows := kept, expired := s.expired + Lost(s.rows, kept), threads := s.threads[t := Trimming(value)])
    case Trimming(value) =>
      var kept := Trim(s.rows);
      s.(rows := kept, trimmed := s.trimmed + Lost(s.rows, kept), threads := s.threads[t := Stamping(value)])
    case Stamping(value) => s.(threads := s.threads[t := Inserting(value, s.now)])
    case Inserting(value, created) =>
      if Has(s.rows, value) then s.(threads := s.threads - {t}) else
      s.(rows := Insert(s.rows, value, created),
         issued := s.issued[value := Issue(|s.issued|, created)],
         threads := s.threads - {t})
  }

  ghost function Next(s: State, e: Event): State {
    if !Enabled(s, e) then s else
    match e
    case Tick(seconds) => s.(now := s.now + seconds)
    case Start(t, value) =>
      s.(threads := s.threads[t := Expiring(value, s.now - NONCE_TTL)], drawn := s.drawn + {value})
    case Step(t, ok) => if ok then StepIssue(s, t) else s.(threads := s.threads - {t})
    case Drop(t) => s.(threads := s.threads - {t})
    case Consume(value) =>
      if Has(s.rows, value) then s.(rows := Delete(s.rows, value), accepted := s.accepted + multiset{value}) else s
  }

  ghost function Run(s: State, es: seq<Event>): State
    decreases |es|
  {
    if es == [] then s else Run(Next(s, es[0]), es[1..])
  }

  ghost predicate Reachable(s: State) {
    exists t0: int, es: seq<Event> :: s == Run(Init(t0), es)
  }

  // ---------------------------------------------------------------- what a statement does

  /** Young enough for the first statement, and within the last 9999 rowids of those that are. */
  ghost predicate Survives(rows: Table, r: nat, cutoff: int) {
    && r in rows && rows[r].created >= cutoff
    && forall q :: q in rows && rows[q].created >= cutoff ==> q < r + 9999
  }

  /** The rowid of the next row: 1 in an empty table, and else one past the largest. */
  ghost predicate IsNext(rows: Table, id: nat) {
    (forall r :: r in rows ==> r < id) && (if rows == map[] then id == 1 else id >= 1 && id - 1 in rows)
  }

  lemma TrimMeans(rows: Table)
    ensures Trim(rows) == map r | r in rows && (forall q :: q in rows ==> q < r + 9999) :: rows[r]
  {
    if rows != map[] { assert NextRowid(rows) - 1 in rows; }
  }

  lemma SurvivorsAre(rows: Table, cutoff: int)
    ensures Trim(DeleteExpired(rows, cutoff)) == map r | r in rows && Survives(rows, r, cutoff) :: rows[r]
  {
    TrimMeans(DeleteExpired(rows, cutoff));
    var young := DeleteExpired(rows, cutoff);
    assert forall q :: q in young <==> q in rows && rows[q].created >= cutoff;
  }

  /** The table after all three statements at once: the survivors, and the new row unless its value is there. */
  ghost predicate IssuesOne(rows: Table, after: Table, value: string, cutoff: int, created: int, ok: bool) {
    && (ok <==> !exists r :: Survives(rows, r, cutoff) && rows[r].value == value)
    && var left := map r | r in rows && Survives(rows, r, cutoff) :: rows[r];
       if ok then exists id: nat :: AddsAt(left, after, id, Row(value, created)) else after == left
  }

  ghost predicate AddsAt(rows: Table, after: Table, id: nat, row: Row) {
    IsNext(rows, id) && after == rows[id := row]
  }

  lemma IssueMeans(rows: Table, value: string, cutoff: int, created: int)
    ensures var left := Trim(DeleteExpired(rows, cutoff));
            IssuesOne(rows, Insert(left, value, created), value, cutoff, created, !Has(left, value))
  {
    hide Trim, DeleteExpired, IsNext, Survives;
    SurvivorsAre(rows, cutoff);
    NextIsNext(Trim(DeleteExpired(rows, cutoff)));
    SurvivorsHave(rows, value, cutoff);
    var left := Trim(DeleteExpired(rows, cutoff));
    if !Has(left, value) { assert AddsAt(left, Insert(left, value, created), NextRowid(left), Row(value, created)); }
  }

  lemma NextIsNext(rows: Table)
    ensures IsNext(rows, NextRowid(rows))
  {
  }

  lemma SurvivorsHave(rows: Table, value: string, cutoff: int)
    ensures Has(Trim(DeleteExpired(rows, cutoff)), value) <==> exists r :: Survives(rows, r, cutoff) && rows[r].value == value
  {
    SurvivorsAre(rows, cutoff);
    var left := Trim(DeleteExpired(rows, cutoff));
    hide Trim, DeleteExpired;
    if r :| r in left && left[r].value == value { assert Survives(rows, r, cutoff) && rows[r].value == value; }
    if r :| Survives(rows, r, cutoff) && rows[r].value == value { assert r in left && left[r].value == value; }
  }

  /** Half an hour back for the first statement; each statement on the table as it then is, and the clock read once more before the last. */
  lemma StatementsMean(s: State, t: nat)
    requires t in s.threads
    ensures var s' := Next(s, Step(t, true));
            match s.threads[t]
            case Expiring(value, cutoff) =>
              && s'.rows == (map r | r in s.rows && s.rows[r].created >= cutoff :: s.rows[r])
              && s'.threads == s.threads[t := Trimming(value)]
            case Trimming(value) =>
              && s'.rows == (map r | r in s.rows && (forall q :: q in s.rows ==> q < r + 9999) :: s.rows[r])
              && s'.threads == s.threads[t := Stamping(value)]
            case Stamping(value) => s'.rows == s.rows && s'.threads == s.threads[t := Inserting(value, s.now)]
            case Inserting(value, created) =>
              && s'.threads == s.threads - {t}
              && if exists r :: r in s.rows && s.rows[r].value == value then s'.rows == s.rows
                 else exists id: nat :: IsNext(s.rows, id) && s'.rows == s.rows[id := Row(value, created)]
  {
    TrimMeans(s.rows);
    assert IsNext(s.rows, NextRowid(s.rows));
    hide Trim, Lost;
  }

  lemma StartAndConsumeMean(s: State, t: nat, value: string)
    ensures t !in s.threads && value !in s.drawn ==>
              Next(s, Start(t, value)) == s.(threads := s.threads[t := Expiring(value, s.now - 1800)], drawn := s.drawn + {value})
    ensures Next(s, Consume(value)).rows == map r | r in s.rows && s.rows[r].value != value :: s.rows[r]
    ensures Next(s, Consume(value)).accepted == if exists r :: r in s.rows && s.rows[r].value == value
                                                then s.accepted + multiset{value} else s.accepted
  {
    if !Has(s.rows, value) { assert forall r :: r in s.rows ==> s.rows[r].value != value; }
  }

  // ---------------------------------------------------------------- bounding the table

  function Armed(threads: map<nat, Thread>): set<nat> {
    set t | t in threads && (threads[t].Stamping? || threads[t].Inserting?)
  }

  lemma {:induction false} CountInInterval(ids: set<nat>, hi: int, n: nat)
    requires forall r :: r in ids ==> hi - n < r <= hi
    ensures |ids| <= n
    decreases n
  {
    if n == 0 {
      assert ids == {};
    } else {
      var low: nat := if hi - n + 1 >= 0 then hi - n + 1 else 0;
      CountInInterval(ids - {low}, hi, n - 1);
      assert ids <= (ids - {low}) + {low};
    }
  }

  /** The trim leaves room for one row under the cap. */
  lemma TrimLeavesRoom(rows: Table)
    ensures |Trim(rows)| <= MAX_NONCES - 1
  {
    CountInInterval(Trim(rows).Keys, NextRowid(rows) - 1, MAX_NONCES - 1);
  }

  lemma SubmapIsSmaller(a: Table, b: Table)
    requires a.Keys <= b.Keys
    ensures |a| <= |b|
  {
    SubsetIsSmaller(a.Keys, b.Keys);
  }

  /** Rows, plus inserts whose trim has already happened, stay under the cap and the overlap. */
  ghost predicate Bounded(s: State, overlap: nat) {
    |s.rows| + |Armed(s.threads)| <= MAX_NONCES - 1 + overlap
  }

  lemma ArmedIsInFlight(s: State)
    ensures |Armed(s.threads)| <= |s.threads|
  {
    SubsetIsSmaller(Armed(s.threads), s.threads.Keys);
  }

  lemma ThreadMoves(threads: map<nat, Thread>, t: nat, next: Thread)
    requires t in threads && t in Armed(threads) <==> next.Stamping? || next.Inserting?
    ensures Armed(threads[t := next]) == Armed(threads)
  {
  }

  lemma ThreadEnds(threads: map<nat, Thread>, t: nat)
    ensures Armed(threads - {t}) == Armed(threads) - {t}
  {
  }

  lemma StepStaysBounded(s: State, t: nat, overlap: nat)
    requires t in s.threads && Bounded(s, overlap) && |StepIssue(s, t).threads| <= overlap
    ensures Bounded(StepIssue(s, t), overlap)
  {
    hide Trim, DeleteExpired, Lost, NextRowid, Has;
    var s' := StepIssue(s, t);
    match s.threads[t]
    case Expiring(value, cutoff) =>
      ThreadMoves(s.threads, t, Trimming(value));
      ExpiryShrinks(s.rows, cutoff);
    case Trimming(_) =>
      TrimLeavesRoom(s.rows);
      ArmedIsInFlight(s');
    case Stamping(value) =>
      ThreadMoves(s.threads, t, Inserting(value, s.now));
    case Inserting(_, _) =>
      ThreadEnds(s.threads, t);
  }

  lemma ExpiryShrinks(rows: Table, cutoff: int)
    ensures |DeleteExpired(rows, cutoff)| <= |rows|
  {
    SubmapIsSmaller(DeleteExpired(rows, cutoff), rows);
  }

  lemma DeletionShrinks(rows: Table, value: string)
    ensures |Delete(rows, value)| <= |rows|
  {
    SubmapIsSmaller(Delete(rows, value), rows);
  }

  lemma NextStaysBounded(s: State, e: Event, overlap: nat)
    requires Bounded(s, overlap) && |Next(s, e).threads| <= overlap
    ensures Bounded(Next(s, e), overlap)
  {
    hide StepIssue, Delete, Has;
    var s' := Next(s, e);
    if Enabled(s, e) {
      match e
      case Step(t, true) => StepStaysBounded(s, t, overlap);
      case Consume(value) => DeletionShrinks(s.rows, value);
      case _ => hide Next; ArmedShrinks(s, e);
    }
  }

  lemma ArmedShrinks(s: State, e: Event)
    requires Enabled(s, e) && !e.Consume? && !(e.Step? && e.ok)
    ensures Next(s, e).rows == s.rows && |Armed(Next(s, e).threads)| <= |Armed(s.threads)|
  {
    hide StepIssue, Delete, Has;
    SubsetIsSmaller(Armed(Next(s, e).threads), Armed(s.threads));
  }

  /** No more than `overlap` requests are issuing nonces at any moment of the run. */
  ghost predicate Overlapping(s: State, es: seq<Event>, overlap: nat)
    decreases |es|
  {
    |s.threads| <= overlap && (es != [] ==> Overlapping(Next(s, es[0]), es[1..], overlap))
  }

  lemma {:induction false} RunStaysBounded(s: State, es: seq<Event>, overlap: nat)
    requires Bounded(s, overlap) && Overlapping(s, es, overlap)
    ensures Bounded(Run(s, es), overlap)
    decreases |es|
  {
    if es != [] {
      NextStaysBounded(s, es[0], overlap);
      RunStaysBounded(Next(s, es[0]), es[1..], overlap);
    }
  }

  /** C requests issuing at once leave at most 9999 + C nonces; one at a time, at most 10000. */
  lemma TableIsBounded(t0: int, es: seq<Event>, overlap: nat)
    requires Overlapping(Init(t0), es, overlap)
    ensures |Run(Init(t0), es).rows| <= 9999 + overlap
  {
    RunStaysBounded(Init(t0), es, overlap);
  }

  // ---------------------------------------------------------------- what becomes of a nonce

  /** Values in flight are drawn, not issued yet, and no two requests hold the same one. */
  ghost predicate FreshValues(s: State) {
    && (forall v :: v in s.issued ==> v in s.drawn)
    && (forall t :: t in s.threads ==> s.threads[t].value in s.drawn && s.threads[t].value !in s.issued)
    && (forall t, u :: t in s.threads && u in s.threads && s.threads[t].value == s.threads[u].value ==> t == u)
  }

  /** Every row is an issued nonce, and rowids never run ahead of the insertions between them. */
  ghost predicate RowsAreIssued(rows: Table, issued: map<string, Issue>) {
    && (forall r :: r in rows ==> RowIsIssued(rows[r], issued))
    && (forall p, q :: p in rows && q in rows && p <= q ==> q - p <= issued[rows[q].value].serial - issued[rows[p].value].serial)
    && (forall p, q :: p in rows && q in rows && rows[p].value == rows[q].value ==> p == q)
  }

  ghost predicate RowIsIssued(row: Row, issued: map<string, Issue>) {
    row.value in issued && issued[row.value].created == row.created && issued[row.value].serial < |issued|
  }

  /** An issued nonce is in exactly one of four places; any other value is in none. */
  ghost predicate Accounted(s: State) {
    forall v :: Places(s, v) == if v in s.issued then 1 else 0
  }

  ghost function Places(s: State, v: string): nat {
    (if Has(s.rows, v) then 1 else 0) + s.accepted[v] + (if v in s.expired then 1 else 0) + (if v in s.trimmed then 1 else 0)
  }

  /** A nonce is removed unused only when it is too old or has been overtaken. */
  ghost predicate RemovedForCause(s: State) {
    PastCutoffs(s.threads, s.now) && AllOld(s.expired, s.issued, s.now - NONCE_TTL) && AllOvertaken(s.trimmed, s.issued)
  }

  ghost predicate PastCutoffs(threads: map<nat, Thread>, now: int) {
    forall t :: t in threads && threads[t].Expiring? ==> threads[t].cutoff <= now - NONCE_TTL
  }

  ghost predicate AllOld(values: set<string>, issued: map<string, Issue>, cutoff: int) {
    forall v :: v in values ==> v in issued && issued[v].created < cutoff
  }

  ghost predicate AllOvertaken(values: set<string>, issued: map<string, Issue>) {
    forall v :: v in values ==> v in issued && Overtaken(issued, v)
  }

  /** At least MAX_NONCES - 1 others were issued after it. */
  ghost predicate Overtaken(issued: map<string, Issue>, v: string)
    requires v in issued
  {
    |issued| - 1 - issued[v].serial >= MAX_NONCES - 1
  }

  ghost predicate Inv(s: State) {
    FreshValues(s) && RowsAreIssued(s.rows, s.issued) && Accounted(s) && RemovedForCause(s)
  }

  // -- rows

  lemma SubtableIsIssued(rows: Table, kept: Table, issued: map<string, Issue>)
    requires RowsAreIssued(rows, issued) && kept.Items <= rows.Items
    ensures RowsAreIssued(kept, issued)
  {
    forall r | r in kept ensures r in rows && rows[r] == kept[r] { assert (r, kept[r]) in kept.Items; }
  }

  lemma InsertedRowIsIssued(rows: Table, issued: map<string, Issue>, value: string, created: int)
    requires RowsAreIssued(rows, issued) && value !in issued && !Has(rows, value)
    ensures RowsAreIssued(Insert(rows, value, created), issued[value := Issue(|issued|, created)])
  {
    var n, issued' := NextRowid(rows), issued[value := Issue(|issued|, created)];
    assert |issued'| == |issued| + 1;
    forall r | r in rows ensures RowIsIssued(rows[r], issued') && issued'[rows[r].value] == issued[rows[r].value] {
      assert RowIsIssued(rows[r], issued);
    }
    forall p | p in rows ensures n - p <= |issued| - issued[rows[p].value].serial {
      var m: nat := n - 1;
      assert m in rows && p <= m && RowIsIssued(rows[m], issued) && RowIsIssued(rows[p], issued);
    }
  }

  lemma NotIssuedYet(s: State, t: nat)
    requires FreshValues(s) && RowsAreIssued(s.rows, s.issued) && t in s.threads
    ensures s.threads[t].value !in s.issued && !Has(s.rows, s.threads[t].value)
  {
  }

  lemma RowsKept(s: State, e: Event)
    requires Inv(s)
    ensures RowsAreIssued(Next(s, e).rows, Next(s, e).issued)
  {
    if Enabled(s, e) && e.Step? && s.threads[e.tid].Inserting? {
      NotIssuedYet(s, e.tid);
      InsertedRowIsIssued(s.rows, s.issued, s.threads[e.tid].value, s.threads[e.tid].created);
      hide Has, Insert, RowsAreIssued, FreshValues, Accounted, RemovedForCause;
    } else {
      SubtableIsIssued(s.rows, Next(s, e).rows, s.issued) by { assert Next(s, e).rows.Items <= s.rows.Items; }
    }
  }

  // -- values

  lemma FreshKept(s: State, e: Event)
    requires FreshValues(s)
    ensures FreshValues(Next(s, e))
  {
    hide Has, Insert, Trim, DeleteExpired, Delete, Lost;
  }

  // -- accounts

  lemma LostIs(before: Table, after: Table, v: string)
    ensures v in Lost(before, after) <==> Has(before, v) && !Has(after, v)
  {
  }

  /** Removing rows into one of the records keeps every nonce accounted for. */
  lemma RemovalKeepsAccounts(s: State, s': State)
    requires Accounted(s) && s'.rows.Items <= s.rows.Items && s'.issued == s.issued && s'.accepted == s.accepted
    requires (s'.expired == s.expired + Lost(s.rows, s'.rows) && s'.trimmed == s.trimmed)
          || (s'.expired == s.expired && s'.trimmed == s.trimmed + Lost(s.rows, s'.rows))
    ensures Accounted(s')
  {
    forall v ensures Places(s', v) == if v in s'.issued then 1 else 0 {
      LostIs(s.rows, s'.rows, v);
      assert Places(s, v) == if v in s.issued then 1 else 0;
      assert Has(s'.rows, v) ==> Has(s.rows, v) by {
        forall r | r in s'.rows && s'.rows[r].value == v ensures Has(s.rows, v) { assert (r, s'.rows[r]) in s'.rows.Items; }
      }
    }
  }

  lemma InsertedIsHad(rows: Table, value: string, created: int, v: string)
    ensures Has(Insert(rows, value, created), v) <==> Has(rows, v) || v == value
  {
    var after := Insert(rows, value, created);
    if !Has(rows, value) {
      assert after[NextRowid(rows)].value == value;
      if Has(rows, v) {
        var r :| r in rows && rows[r].value == v;
        assert r in after && after[r].value == v;
      }
    }
  }

  lemma DeletedIsHad(rows: Table, value: string, v: string)
    ensures Has(Delete(rows, value), v) <==> Has(rows, v) && v != value
  {
    if Has(rows, v) && v != value {
      var r :| r in rows && rows[r].value == v;
      assert r in Delete(rows, value) && Delete(rows, value)[r].value == v;
    }
  }

  lemma InsertKeepsAccounts(s: State, t: nat)
    requires Inv(s) && t in s.threads && s.threads[t].Inserting?
    ensures Accounted(StepIssue(s, t))
  {
    hide FreshValues, Has, Insert, RowsAreIssued, RemovedForCause;
    NotIssuedYet(s, t);
    var s' := StepIssue(s, t);
    forall v ensures Places(s', v) == if v in s'.issued then 1 else 0 {
      assert Places(s, v) == if v in s.issued then 1 else 0;
      InsertedIsHad(s.rows, s.threads[t].value, s.threads[t].created, v);
    }
  }

  lemma ConsumeKeepsAccounts(s: State, value: string)
    requires Accounted(s)
    ensures Accounted(Next(s, Consume(value)))
  {
    hide Has, Delete;
    var s' := Next(s, Consume(value));
    forall v ensures Places(s', v) == if v in s'.issued then 1 else 0 {
      assert Places(s, v) == if v in s.issued then 1 else 0;
      DeletedIsHad(s.rows, value, v);
    }
  }

  lemma StepKeepsAccounts(s: State, t: nat)
    requires Inv(s) && t in s.threads
    ensures Accounted(StepIssue(s, t))
  {
    hide FreshValues, RowsAreIssued, RemovedForCause, Accounted, Lost;
    var s' := StepIssue(s, t);
    match s.threads[t]
    case Expiring(_, cutoff) =>
      assert DeleteExpired(s.rows, cutoff).Items <= s.rows.Items;
      RemovalKeepsAccounts(s, s');
    case Trimming(_) =>
      assert Trim(s.rows).Items <= s.rows.Items;
      RemovalKeepsAccounts(s, s');
    case Stamping(_) => UntouchedAccounts(s, s');
    case Inserting(_, _) => InsertKeepsAccounts(s, t);
  }

  lemma UntouchedAccounts(s: State, s': State)
    requires Accounted(s) && s'.(threads := s.threads, now := s.now, drawn := s.drawn) == s
    ensures Accounted(s')
  {
    forall v ensures Places(s', v) == if v in s'.issued then 1 else 0 {
      assert Places(s, v) == if v in s.issued then 1 else 0;
    }
  }

  lemma AccountsKept(s: State, e: Event)
    requires Inv(s)
    ensures Accounted(Next(s, e))
  {
    if e.Step? && e.ok && Enabled(s, e) {
      hide Inv, StepIssue;
      StepKeepsAccounts(s, e.tid);
    } else if e.Consume? {
      ConsumeKeepsAccounts(s, e.value);
    } else {
      hide FreshValues, RowsAreIssued, RemovedForCause, Accounted, StepIssue, Has, Delete;
      UntouchedAccounts(s, Next(s, e));
    }
  }

  // -- removals

  lemma ExpiredAreOld(rows: Table, issued: map<string, Issue>, cutoff: int)
    requires RowsAreIssued(rows, issued)
    ensures AllOld(Lost(rows, DeleteExpired(rows, cutoff)), issued, cutoff)
  {
    var kept := DeleteExpired(rows, cutoff);
    forall v | v in Lost(rows, kept) ensures v in issued && issued[v].created < cutoff {
      var r :| r in rows && rows[r].value == v;
      assert r !in kept by { LostIs(rows, kept, v); }
    }
  }

  /** Rowids are reused, yet a row that far behind the largest has that many insertions after it. */
  lemma TrimOvertakes(rows: Table, issued: map<string, Issue>)
    requires RowsAreIssued(rows, issued)
    ensures AllOvertaken(Lost(rows, Trim(rows)), issued)
  {
    var kept := Trim(rows);
    forall v | v in Lost(rows, kept) ensures v in issued && Overtaken(issued, v) {
      var r :| r in rows && rows[r].value == v;
      assert r !in kept by { LostIs(rows, kept, v); }
      var m: nat := NextRowid(rows) - 1;
      assert m in rows && r <= m && RowIsIssued(rows[m], issued);
    }
  }

  lemma IssuingKeepsCauses(aged: set<string>, over: set<string>, issued: map<string, Issue>, cutoff: int, v: string, issue: Issue)
    requires AllOld(aged, issued, cutoff) && AllOvertaken(over, issued) && v !in issued
    ensures AllOld(aged, issued[v := issue], cutoff) && AllOvertaken(over, issued[v := issue])
  {
    assert |issued[v := issue]| == |issued| + 1;
  }

  lemma CauseKept(s: State, e: Event)
    requires Inv(s)
    ensures RemovedForCause(Next(s, e))
  {
    hide FreshValues, RowsAreIssued, Accounted, Has, Delete, Insert, Trim, DeleteExpired, Lost, Overtaken;
    if e.Step? && e.ok && Enabled(s, e) {
      hide AllOld, AllOvertaken;
      match s.threads[e.tid]
      case Expiring(_, cutoff) =>
        ExpiredAreOld(s.rows, s.issued, cutoff);
        UnionIsOld(s.expired, Lost(s.rows, DeleteExpired(s.rows, cutoff)), s.issued, cutoff, s.now - NONCE_TTL);
      case Trimming(_) =>
        TrimOvertakes(s.rows, s.issued);
        UnionIsOvertaken(s.trimmed, Lost(s.rows, Trim(s.rows)), s.issued);
      case Stamping(_) =>
      case Inserting(value, created) =>
        NotIssuedYet(s, e.tid);
        IssuingKeepsCauses(s.expired, s.trimmed, s.issued, s.now - NONCE_TTL, value, Issue(|s.issued|, created));
    }
  }

  lemma UnionIsOld(a: set<string>, b: set<string>, issued: map<string, Issue>, cutoff: int, later: int)
    requires AllOld(a, issued, later) && AllOld(b, issued, cutoff) && cutoff <= later
    ensures AllOld(a + b, issued, later)
  {
  }

  lemma UnionIsOvertaken(a: set<string>, b: set<string>, issued: map<string, Issue>)
    requires AllOvertaken(a, issued) && AllOvertaken(b, issued)
    ensures AllOvertaken(a + b, issued)
  {
  }

  lemma NextKeeps(s: State, e: Event)
    requires Inv(s)
    ensures Inv(Next(s, e))
  {
    FreshKept(s, e);
    RowsKept(s, e);
    AccountsKept(s, e);
    CauseKept(s, e);
    hide Next, FreshValues, RowsAreIssued, Accounted, RemovedForCause;
  }

  lemma {:induction false} RunKeeps(s: State, es: seq<Event>)
    requires Inv(s)
    ensures Inv(Run(s, es))
    decreases |es|
  {
    hide Inv;
    if es != [] {
      NextKeeps(s, es[0]);
      RunKeeps(Next(s, es[0]), es[1..]);
    }
  }

  lemma ReachableInv(s: State)
    requires Reachable(s)
    ensures Inv(s)
  {
    var t0: int, es :| s == Run(Init(t0), es);
    assert Inv(Init(t0));
    RunKeeps(Init(t0), es);
  }

  /** In every run, a nonce removed by a trim had 9999 others issued after it. */
  lemma TrimmedAreOvertaken(s: State, v: string)
    requires Reachable(s) && v in s.trimmed
    ensures v in s.issued && |s.issued| - 1 - s.issued[v].serial >= 9999
  {
    ReachableInv(s);
    hide FreshValues, RowsAreIssued, Accounted;
  }

  /** In every run, a nonce removed by its age was issued more than half an hour ago. */
  lemma ExpiredAreOverage(s: State, v: string)
    requires Reachable(s) && v in s.expired
    ensures v in s.issued && s.issued[v].created < s.now - 1800
  {
    ReachableInv(s);
    hide FreshValues, RowsAreIssued, Accounted;
  }

  // ---------------------------------------------------------------- what the protocol promises

  /** Only issued nonces are accepted, each at most once, and an accepted one never comes back. */
  lemma AcceptedAtMostOnce(s: State, v: string)
    requires Reachable(s)
    ensures s.accepted[v] <= 1
    ensures s.accepted[v] == 1 ==> v in s.issued && !Has(s.rows, v)
    ensures s.accepted[v] == 1 ==> Next(s, Consume(v)) == s
  {
    ReachableInv(s);
    assert Places(s, v) == if v in s.issued then 1 else 0;
  }

  /** An unused nonce is still good unless its lifetime is over or 9999 others were issued after it. */
  lemma UnusedNonceIsAccepted(s: State, v: string)
    requires Reachable(s) && v in s.issued && s.accepted[v] == 0
    requires s.now - s.issued[v].created <= 1800
    requires |s.issued| - 1 - s.issued[v].serial < 9999
    ensures Has(s.rows, v) && Next(s, Consume(v)).accepted[v] == 1
  {
    ReachableInv(s);
    assert Places(s, v) == 1;
  }

  /** Sharp: in a table of the last N nonces, the next trim removes the oldest and nothing else. */
  lemma TrimTakesTheOldest(rows: Table, first: nat)
    requires forall r :: r in rows <==> first <= r < first + 10000
    ensures Trim(rows) == rows - {first}
  {
    var m: nat := first + 9999;
    assert m in rows && NextRowid(rows) == m + 1;
  }

  // ---------------------------------------------------------------- the store

  class NonceStore {
    var rows: Table

    constructor ()
      ensures rows == map[]
    {
      rows := map[];
    }

    method LargestRowid() returns (largest: nat)
      ensures largest == NextRowid(rows) - 1
    {
      largest := 0;
      var rest := rows.Keys;
      while rest != {}
        invariant rest <= rows.Keys
        invariant forall r :: r in rows && r !in rest ==> r <= largest
        invariant largest == 0 || (largest in rows && largest !in rest)
        decreases rest
      {
        var r :| r in rest;
        rest := rest - {r};
        if r > largest { largest := r; }
      }
    }

    /** One nonce with nobody else at the table. */
    method IssueNonce(value: string, cutoff: int, created: int) returns (ok: bool)
      modifies this
      ensures ok <==> !Has(Trim(DeleteExpired(old(rows), cutoff)), value)
      ensures rows == Insert(Trim(DeleteExpired(old(rows), cutoff)), value, created)
      ensures |rows| <= 10000
      ensures IssuesOne(old(rows), rows, value, cutoff, created, ok)
    {
      IssueMeans(rows, value, cutoff, created);
      hide IssuesOne;
      rows := map r | r in rows && rows[r].created >= cutoff :: rows[r];
      var largest := LargestRowid();
      TrimLeavesRoom(rows);
      rows := map r | r in rows && r > largest - (MAX_NONCES - 1) :: rows[r];
      ok := forall r :: r in rows ==> rows[r].value != value;
      if ok {
        largest := LargestRowid();
        rows := rows[largest + 1 := Row(value, created)];
      }
    }

    /** True when the nonce was in the table, which it then no longer is. */
    method ConsumeNonce(value: string) returns (found: bool)
      modifies this
      ensures found == Has(old(rows), value)
      ensures found <==> exists r :: r in old(rows) && old(rows)[r].value == value
      ensures rows == map r | r in old(rows) && old(rows)[r].value != value :: old(rows)[r]
      ensures rows == Delete(old(rows), value) && !Has(rows, value)
    {
      var before := |rows|;
      ghost var was := rows;
      rows := map r | r in rows && rows[r].value != value :: rows[r];
      found := |rows| != before;
      if Has(was, value) {
        var r :| r in was && was[r].value == value;
        SubsetIsSmaller(rows.Keys, was.Keys - {r});
      } else {
        assert rows == was;
      }
    }
  }
}
