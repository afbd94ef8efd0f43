/**
 ACME accounts and the credentials that admit them. Registrations, key changes
 and deactivations run at once, each step being one SQL statement or one
 transaction; operators add and remove credentials meanwhile. Signatures are
 inputs: a request carries the key that signed it.
 */
module Registration {
  import opened Strings

  /** A key as the database stores it. Two encodings may share a thumbprint. */
  datatype Jwk = Jwk(thumbprint: string, encoding: string)

  datatype Cred = Cred(reusable: bool, account: string, expires: int)
  datatype AccountStatus = Active | Deactivated
  datatype Account = Account(thumbprint: string, jwk: Jwk, eabKid: string, status: AccountStatus, created: int)

  datatype Tables = Tables(creds: map<string, Cred>, accounts: map<string, Account>)

  datatype Outcome = Registered | CredentialGone | CredentialExpired | CredentialUsed | Conflict

  // ---------------------------------------------------------------- statements

  predicate Lapsed(cred: Cred, now: int) {
    cred.expires != 0 && cred.expires <= now
  }

  /** The WHERE clause of the update that consumes a credential. */
  predicate Admits(t: Tables, kid: string, now: int) {
    kid in t.creds && (t.creds[kid].reusable || t.creds[kid].account == "") && !Lapsed(t.creds[kid], now)
  }

  predicate Held(t: Tables, thumbprint: string) {
    exists id :: id in t.accounts && t.accounts[id].thumbprint == thumbprint
  }

  /** What the registration transaction answers; its clock is the account's creation time. */
  ghost function Verdict(t: Tables, id: string, a: Account): Outcome {
    if !Admits(t, a.eabKid, a.created) then
      if a.eabKid !in t.creds then CredentialGone
      else if Lapsed(t.creds[a.eabKid], a.created) then CredentialExpired
      else CredentialUsed
    else if id in t.accounts || Held(t, a.thumbprint) then Conflict
    else Registered
  }

  /** The answer to a registration, case by case. */
  lemma VerdictMeans(t: Tables, id: string, a: Account)
    ensures var r, kid := Verdict(t, id, a), a.eabKid;
            && (r == CredentialGone <==> kid !in t.creds)
            && (r == CredentialExpired <==> kid in t.creds && t.creds[kid].expires != 0 && t.creds[kid].expires <= a.created)
            && (r == CredentialUsed <==>
                  && kid in t.creds && !t.creds[kid].reusable && t.creds[kid].account != ""
                  && (t.creds[kid].expires == 0 || a.created < t.creds[kid].expires))
            && (r == Conflict || r == Registered <==>
                  && kid in t.creds && (t.creds[kid].reusable || t.creds[kid].account == "")
                  && (t.creds[kid].expires == 0 || a.created < t.creds[kid].expires))
            && (r == Conflict ==> id in t.accounts || exists other :: other in t.accounts && t.accounts[other].thumbprint == a.thumbprint)
            && (r == Registered ==> id !in t.accounts && forall other :: other in t.accounts ==> t.accounts[other].thumbprint != a.thumbprint)
  {
  }

  function Bind(t: Tables, kid: string, id: string): Tables
  {
    if kid !in t.creds || t.creds[kid].reusable then t else t.(creds := t.creds[kid := t.creds[kid].(account := id)])
  }

  /** The credential's update and the account's insert, together or not at all. */
  ghost function InsertAccount(t: Tables, id: string, a: Account): Tables {
    if Verdict(t, id, a).Registered? then
      var bound := Bind(t, a.eabKid, id);
      bound.(accounts := bound.accounts[id := a])
    else t
  }

  /** The thumbprint column is unique, so a key another account holds is refused. */
  predicate Rekeys(t: Tables, id: string, key: Jwk) {
    && id in t.accounts
    && forall other :: other in t.accounts && t.accounts[other].thumbprint == key.thumbprint ==> other == id
  }

  function SetKey(t: Tables, id: string, key: Jwk): Tables {
    if Rekeys(t, id, key)
    then t.(accounts := t.accounts[id := t.accounts[id].(jwk := key, thumbprint := key.thumbprint)]) else t
  }

  function SetStatus(t: Tables, id: string, status: AccountStatus): Tables {
    if id in t.accounts then t.(accounts := t.accounts[id := t.accounts[id].(status := status)]) else t
  }

  /** A key an account has had, and the key that signed the request for it. */
  datatype Grant = Grant(key: Jwk, signer: Jwk)
  type Keyring = map<string, seq<Grant>>

  datatype Write =
    | Nothing
    | Insert(id: string, account: Account)
    | Rekey(id: string, key: Jwk, signer: Jwk)
    | Deactivate(id: string)
    | Provide(kid: string, cred: Cred)
    | Remove(kid: string)

  ghost function Apply(t: Tables, w: Write): Tables {
    match w
    case Nothing => t
    case Insert(id, a) => InsertAccount(t, id, a)
    case Rekey(id, key, _) => SetKey(t, id, key)
    case Deactivate(id) => SetStatus(t, id, Deactivated)
    case Provide(kid, cred) => t.(creds := t.creds[kid := cred])
    case Remove(kid) => t.(creds := t.creds - {kid})
  }

  // ---------------------------------------------------------------- the machine

  datatype Thread =
    | RegLookup(jwk: Jwk, kid: string)
    | RegCredential(jwk: Jwk, kid: string)
    | RegInsert(id: string, jwk: Jwk, kid: string, at: int)
    | KeyAuth(id: string, signer: Jwk, oldKey: Jwk, newKey: Jwk)
    | KeyLookup(id: string, signer: Jwk, newKey: Jwk, version: nat)
    | KeyWrite(id: string, signer: Jwk, newKey: Jwk, version: nat)
    | OffAuth(id: string, signer: Jwk)
    | OffWrite(id: string)

  /** `made`, `keys` and a thread's `version` only record what has happened. */
  datatype State = State(
    t: Tables,
    threads: map<nat, Thread>,
    now: int,
    drawn: set<string>,
    made: map<string, Cred>,               // every credential ever provisioned
    keys: Keyring)                         // the keys an account has had, oldest first

  datatype Event =
    | Tick(seconds: nat)
    | Provision(kid: string, reusable: bool, expires: int)
    | Withdraw(kid: string)
    | Start(tid: nat, thread: Thread)
    | Step(tid: nat, ok: bool, draw: string)
    | Drop(tid: nat)

  function Init(now: int): State {
    State(Tables(map[], map[]), map[], now, {""}, map[], map[])
  }

  /** Ids and kids are random and do not repeat; a request starts at its first statement. */
  predicate Enabled(s: State, e: Event) {
    match e
    case Provision(kid, _, _) => kid !in s.drawn
    case Start(t, thread) => t !in s.threads && (thread.RegLookup? || thread.KeyAuth? || thread.OffAuth?)
    case Step(t, _, draw) => t in s.threads && draw !in s.drawn
    case Drop(t) => t in s.threads
    case _ => true
  }

  /** An outer request is accepted for a valid account whose stored key verifies its signature. */
  predicate Authentic(t: Tables, id: string, signer: Jwk) {
    id in t.accounts && t.accounts[id].status == Active && t.accounts[id].jwk.thumbprint == signer.thumbprint
  }

  /** How many key changes the account has had. */
  function Version(keys: Keyring, id: string): nat {
    if id in keys && keys[id] != [] then |keys[id]| - 1 else 0
  }

  function NewAccount(jwk: Jwk, kid: string, at: int): Account {
    Account(jwk.thumbprint, jwk, kid, Active, at)
  }

  /** The write a request's next statement attempts. */
  function Statement(thread: Thread): Write {
    match thread
    case RegInsert(id, jwk, kid, at) => Insert(id, NewAccount(jwk, kid, at))
    case KeyWrite(id, signer, newKey, _) => Rekey(id, newKey, signer)
    case OffWrite(id) => Deactivate(id)
    case _ => Nothing
  }

  /** Where a request goes next, by what its statement reads. */
  function Continue(s: State, thread: Thread, draw: string): Option<Thread> {
    match thread
    case RegLookup(jwk, kid) => if Held(s.t, jwk.thumbprint) then None else Some(RegCredential(jwk, kid))
    case RegCredential(jwk, kid) => if kid in s.t.creds then Some(RegInsert(draw, jwk, kid, s.now)) else None
    case KeyAuth(id, signer, oldKey, newKey) =>
      if && Authentic(s.t, id, signer) && oldKey.thumbprint == s.t.accounts[id].thumbprint
         && newKey.thumbprint != oldKey.thumbprint
      then Some(KeyLookup(id, signer, newKey, Version(s.keys, id)))
      else None
    case KeyLookup(id, signer, newKey, version) =>
      if Held(s.t, newKey.thumbprint) then None else Some(KeyWrite(id, signer, newKey, version))
    case OffAuth(id, signer) => if Authentic(s.t, id, signer) then Some(OffWrite(id)) else None
    case _ => None
  }

  /** The record of an account's keys after a write. */
  ghost function Recorded(t: Tables, keys: Keyring, w: Write): Keyring {
    match w
    case Insert(id, a) => if Verdict(t, id, a).Registered? then keys[id := [Grant(a.jwk, a.jwk)]] else keys
    case Rekey(id, key, signer) => if Rekeys(t, id, key) && id in keys then keys[id := keys[id] + [Grant(key, signer)]] else keys
    case _ => keys
  }

  function Move(threads: map<nat, Thread>, t: nat, next: Option<Thread>): map<nat, Thread> {
    if next.Some? then threads[t := next.value] else threads - {t}
  }

  /** The write an event attempts; a failed statement writes nothing. */
  function WriteOf(s: State, e: Event): Write
    requires Enabled(s, e)
  {
    match e
    case Provision(kid, reusable, expires) => Provide(kid, Cred(reusable, "", expires))
    case Withdraw(kid) => Remove(kid)
    case Step(t, true, _) => Statement(s.threads[t])
    case _ => Nothing
  }

  function ThreadsAfter(s: State, e: Event): map<nat, Thread>
    requires Enabled(s, e)
  {
    match e
    case Start(t, thread) => s.threads[t := thread]
    case Step(t, ok, draw) => Move(s.threads, t, if ok then Continue(s, s.threads[t], draw) else None)
    case Drop(t) => s.threads - {t}
    case _ => s.threads
  }

  ghost function Next(s: State, e: Event): State {
    if !Enabled(s, e) then s else
    var w := WriteOf(s, e);
    State(Apply(s.t, w), ThreadsAfter(s, e),
          if e.Tick? then s.now + e.seconds else s.now,
          s.drawn + (if e.Step? then {e.draw} else if e.Provision? then {e.kid} else {}),
          if w.Provide? then s.made[w.kid := w.cred] else s.made,
          Recorded(s.t, s.keys, w))
  }

  ghost function Run(s: State, es: seq<Event>): State
    decreases |es|
  {
    if es == [] then s else Run(Next(s, es[0]), es[1..])
  }

  ghost predicate Reachable(s: State) {
    exists t0: int, es: seq<Event> :: s == Run(Init(t0), es)
  }

  // ---------------------------------------------------------------- the invariant

  /** Each key is the account's own and no two accounts share one. */
  ghost predicate KeysAreOwn(accounts: map<string, Account>) {
    && (forall id :: id in accounts ==> accounts[id].thumbprint == accounts[id].jwk.thumbprint)
    && (forall a, b :: a in accounts && b in accounts && accounts[a].thumbprint == accounts[b].thumbprint ==> a == b)
  }

  /** A credential still in the table is as provisioned, but for the account it is bound to. */
  ghost predicate CredsAsMade(creds: map<string, Cred>, made: map<string, Cred>) {
    forall kid :: kid in creds ==> kid in made && creds[kid].(account := "") == made[kid]
  }

  /** Every account was admitted by a provisioned credential before it lapsed. */
  ghost predicate Admitted(accounts: map<string, Account>, made: map<string, Cred>) {
    forall id :: id in accounts ==> id != "" && accounts[id].eabKid in made && !Lapsed(made[accounts[id].eabKid], accounts[id].created)
  }

  /** A single-use credential names its one account; a reusable one names none. */
  ghost predicate BoundToOne(t: Tables, made: map<string, Cred>) {
    && (forall id :: id in t.accounts && t.accounts[id].eabKid in t.creds && !t.creds[t.accounts[id].eabKid].reusable ==>
          t.creds[t.accounts[id].eabKid].account == id)
    && (forall kid :: kid in t.creds && t.creds[kid].account != "" ==>
          !t.creds[kid].reusable && t.creds[kid].account in t.accounts && t.accounts[t.creds[kid].account].eabKid == kid)
    && (forall a, b :: a in t.accounts && b in t.accounts && SameSingleUse(t.accounts[a], t.accounts[b], made) ==> a == b)
  }

  predicate SameSingleUse(a: Account, b: Account, made: map<string, Cred>) {
    a.eabKid == b.eabKid && a.eabKid in made && !made[a.eabKid].reusable
  }

  /** Ids in use are drawn, and an id waiting to be inserted belongs to nobody. */
  ghost predicate FreshIds(s: State) {
    && "" in s.drawn
    && s.made.Keys <= s.drawn && s.t.accounts.Keys <= s.drawn
    && (forall t :: t in s.threads && s.threads[t].RegInsert? ==>
          s.threads[t].id in s.drawn && s.threads[t].id !in s.t.accounts && s.threads[t].id != "")
    && (forall t, u :: t in s.threads && u in s.threads && SameInsert(s.threads[t], s.threads[u]) ==> t == u)
  }

  predicate SameInsert(a: Thread, b: Thread) {
    a.RegInsert? && b.RegInsert? && a.id == b.id
  }

  /** The recorded keys end with the one the account has now. */
  ghost predicate KeysRecorded(accounts: map<string, Account>, keys: Keyring) {
    && keys.Keys == accounts.Keys
    && (forall id :: id in accounts ==> keys[id] != [] && keys[id][|keys[id]| - 1].key == accounts[id].jwk)
  }

  /** A key change in flight was signed by the key the account had when it was checked. */
  ghost predicate ChangesSigned(threads: map<nat, Thread>, keys: Keyring) {
    forall t :: t in threads && (threads[t].KeyLookup? || threads[t].KeyWrite?) ==> Signed(threads[t], keys)
  }

  predicate Signed(thread: Thread, keys: Keyring)
    requires thread.KeyLookup? || thread.KeyWrite?
  {
    && thread.id in keys && thread.version < |keys[thread.id]|
    && keys[thread.id][thread.version].key.thumbprint == thread.signer.thumbprint
    && thread.newKey.thumbprint != thread.signer.thumbprint
  }

  /** Every later key was asked for with an earlier key of the same account. */
  ghost predicate GrantsSigned(keys: Keyring) {
    forall id, i :: id in keys && 0 < i < |keys[id]| ==> SignedByEarlier(keys[id], i)
  }

  ghost predicate SignedByEarlier(grants: seq<Grant>, i: nat)
    requires i < |grants|
  {
    exists j :: 0 <= j < i && grants[j].key.thumbprint == grants[i].signer.thumbprint
  }

  ghost predicate Inv(s: State) {
    && KeysAreOwn(s.t.accounts)
    && CredsAsMade(s.t.creds, s.made)
    && Admitted(s.t.accounts, s.made)
    && BoundToOne(s.t, s.made)
    && FreshIds(s)
    && KeysRecorded(s.t.accounts, s.keys)
    && ChangesSigned(s.threads, s.keys)
    && GrantsSigned(s.keys)
  }

  // ---------------------------------------------------------------- every step keeps it

  /** The write of a step of a state that keeps the invariant. */
  ghost predicate Proper(t: Tables, w: Write, drawn: set<string>) {
    match w
    case Insert(id, a) => id != "" && id !in t.accounts && a.thumbprint == a.jwk.thumbprint
    case Provide(kid, cred) => kid !in drawn && cred.account == ""
    case _ => true
  }

  lemma StepsAreProper(s: State, e: Event)
    requires FreshIds(s) && Enabled(s, e)
    ensures Proper(s.t, WriteOf(s, e), s.drawn)
  {
  }

  lemma KeysAreOwnKept(t: Tables, w: Write, drawn: set<string>)
    requires KeysAreOwn(t.accounts) && Proper(t, w, drawn)
    ensures KeysAreOwn(Apply(t, w).accounts)
  {
  }

  lemma CredsAsMadeKept(t: Tables, w: Write, drawn: set<string>, made: map<string, Cred>)
    requires CredsAsMade(t.creds, made) && Proper(t, w, drawn) && made.Keys <= drawn
    ensures CredsAsMade(Apply(t, w).creds, if w.Provide? then made[w.kid := w.cred] else made)
  {
  }

  lemma AdmittedKept(t: Tables, w: Write, drawn: set<string>, made: map<string, Cred>)
    requires Admitted(t.accounts, made) && CredsAsMade(t.creds, made) && Proper(t, w, drawn) && made.Keys <= drawn
    ensures Admitted(Apply(t, w).accounts, if w.Provide? then made[w.kid := w.cred] else made)
  {
  }

  lemma BoundToOneKept(t: Tables, w: Write, drawn: set<string>, made: map<string, Cred>)
    requires BoundToOne(t, made) && Admitted(t.accounts, made) && CredsAsMade(t.creds, made)
    requires Proper(t, w, drawn) && made.Keys <= drawn
    ensures BoundToOne(Apply(t, w), if w.Provide? then made[w.kid := w.cred] else made)
  {
    match w
    case Insert(id, a) =>
      hide BoundToOne, Admitted, CredsAsMade, InsertAccount;
      InsertBindsOne(t, id, a, made);
    case Rekey(id, key, _) =>
      hide BoundToOne, Admitted, CredsAsMade;
      if Rekeys(t, id, key) { UpdateKeepsBinding(t, id, t.accounts[id].(jwk := key, thumbprint := key.thumbprint), made); }
    case Deactivate(id) =>
      hide BoundToOne, Admitted, CredsAsMade;
      if id in t.accounts { UpdateKeepsBinding(t, id, t.accounts[id].(status := Deactivated), made); }
    case _ =>
  }

  lemma UpdateKeepsBinding(t: Tables, id: string, a: Account, made: map<string, Cred>)
    requires BoundToOne(t, made) && id in t.accounts && a.eabKid == t.accounts[id].eabKid
    ensures BoundToOne(t.(accounts := t.accounts[id := a]), made)
  {
  }

  lemma InsertBindsOne(t: Tables, id: string, a: Account, made: map<string, Cred>)
    requires BoundToOne(t, made) && Admitted(t.accounts, made) && CredsAsMade(t.creds, made)
    requires id != "" && id !in t.accounts
    ensures BoundToOne(InsertAccount(t, id, a), made)
  {
    hide Held, Lapsed;
  }

  lemma FreshIdsKept(s: State, e: Event)
    requires FreshIds(s)
    ensures FreshIds(Next(s, e))
  {
    hide Held, Authentic, Lapsed, Recorded;
  }

  lemma KeysRecordedKept(t: Tables, w: Write, keys: Keyring)
    requires KeysRecorded(t.accounts, keys)
    ensures KeysRecorded(Apply(t, w).accounts, Recorded(t, keys, w))
  {
    hide Admits, Held;
    match w
    case Insert(id, a) =>
    case Rekey(id, key, signer) =>
      assert keys.Keys == t.accounts.Keys;
      hide KeysRecorded, Rekeys;
      if Rekeys(t, id, key) { NewKeyRecorded(t.accounts, keys, id, key, signer); }
    case Deactivate(id) =>
    case _ =>
  }

  lemma NewKeyRecorded(accounts: map<string, Account>, keys: Keyring, id: string, key: Jwk, signer: Jwk)
    requires KeysRecorded(accounts, keys) && id in accounts && id in keys
    ensures KeysRecorded(accounts[id := accounts[id].(jwk := key, thumbprint := key.thumbprint)], keys[id := keys[id] + [Grant(key, signer)]])
  {
  }

  /** Keys are only ever added. */
  ghost predicate Extends(keys: Keyring, later: Keyring) {
    forall id :: id in keys ==> id in later && keys[id] <= later[id]
  }

  lemma KeysGrow(t: Tables, w: Write, drawn: set<string>, keys: Keyring)
    requires KeysRecorded(t.accounts, keys) && Proper(t, w, drawn)
    ensures Extends(keys, Recorded(t, keys, w))
  {
  }

  lemma SignedStays(thread: Thread, keys: Keyring, later: Keyring)
    requires (thread.KeyLookup? || thread.KeyWrite?) && Signed(thread, keys) && Extends(keys, later)
    ensures Signed(thread, later)
  {
  }

  lemma CheckedChangeIsSigned(s: State, thread: Thread, draw: string)
    requires KeysAreOwn(s.t.accounts) && KeysRecorded(s.t.accounts, s.keys)
    requires thread.KeyAuth? && Continue(s, thread, draw).Some?
    ensures Signed(Continue(s, thread, draw).value, s.keys)
  {
  }

  lemma ChangesSignedKept(s: State, e: Event)
    requires Inv(s) && Enabled(s, e)
    ensures ChangesSigned(Next(s, e).threads, Next(s, e).keys)
  {
    StepsAreProper(s, e);
    KeysGrow(s.t, WriteOf(s, e), s.drawn, s.keys);
    var s' := Next(s, e);
    hide BoundToOne, Admitted, CredsAsMade, FreshIds, GrantsSigned, Extends, Signed, Recorded, Apply;
    forall t | t in s'.threads && (s'.threads[t].KeyLookup? || s'.threads[t].KeyWrite?) ensures Signed(s'.threads[t], s'.keys) {
      ThreadSigned(s, e, t);
      SignedStays(s'.threads[t], s.keys, s'.keys);
    }
  }

  lemma ThreadSigned(s: State, e: Event, t: nat)
    requires Inv(s) && Enabled(s, e)
    requires t in ThreadsAfter(s, e) && (ThreadsAfter(s, e)[t].KeyLookup? || ThreadsAfter(s, e)[t].KeyWrite?)
    ensures Signed(ThreadsAfter(s, e)[t], s.keys)
  {
    hide BoundToOne, Admitted, CredsAsMade, FreshIds, GrantsSigned;
    if e.Step? && e.tid == t && s.threads[t].KeyAuth? {
      CheckedChangeIsSigned(s, s.threads[t], e.draw);
    }
  }

  lemma GrantsSignedKept(s: State, e: Event)
    requires Inv(s) && Enabled(s, e)
    ensures GrantsSigned(Next(s, e).keys)
  {
    StepsAreProper(s, e);
    hide BoundToOne, Admitted, CredsAsMade, FreshIds, KeysAreOwn, Admits, Held, Proper;
    var keys, keys' := s.keys, Next(s, e).keys;
    forall id, i | id in keys' && 0 < i < |keys'[id]| ensures SignedByEarlier(keys'[id], i) {
      if id in keys && i < |keys[id]| {
        GrantsStay(s, e, id);
        assert SignedByEarlier(keys[id], i);
        var j :| 0 <= j < i && keys[id][j].key.thumbprint == keys[id][i].signer.thumbprint;
        assert keys'[id][j] == keys[id][j] && keys'[id][i] == keys[id][i];
      } else {
        assert e.Step? && s.threads[e.tid].KeyWrite? && Signed(s.threads[e.tid], keys);
        var j := s.threads[e.tid].version;
        assert keys'[id][j] == keys[id][j];
      }
    }
  }

  lemma GrantsStay(s: State, e: Event, id: string)
    requires KeysRecorded(s.t.accounts, s.keys) && Enabled(s, e) && Proper(s.t, WriteOf(s, e), s.drawn) && id in s.keys
    ensures id in Next(s, e).keys && s.keys[id] <= Next(s, e).keys[id]
  {
    KeysGrow(s.t, WriteOf(s, e), s.drawn, s.keys);
  }

  lemma NextKeeps(s: State, e: Event)
    requires Inv(s)
    ensures Inv(Next(s, e))
  {
    if Enabled(s, e) {
      var w := WriteOf(s, e);
      StepsAreProper(s, e);
      KeysAreOwnKept(s.t, w, s.drawn);
      CredsAsMadeKept(s.t, w, s.drawn, s.made);
      AdmittedKept(s.t, w, s.drawn, s.made);
      BoundToOneKept(s.t, w, s.drawn, s.made);
      FreshIdsKept(s, e);
      KeysRecordedKept(s.t, w, s.keys);
      ChangesSignedKept(s, e);
      GrantsSignedKept(s, e);
      hide KeysAreOwn, CredsAsMade, Admitted, BoundToOne, FreshIds, KeysRecorded, ChangesSigned, GrantsSigned,
           Apply, Recorded, ThreadsAfter, WriteOf;
    }
  }

  lemma {:induction false} RunKeeps(s: State, es: seq<Event>)
    requires Inv(s)
    ensures Inv(Run(s, es))
    decreases |es|
  {
    hide Inv;
    if es != [] {
      NextKeeps(s, es[0]);
      RunKeeps(Next(s, es[0]), es[1..]);
    }
  }

  lemma ReachableInv(s: State)
    requires Reachable(s)
    ensures Inv(s)
  {
    var t0: int, es :| s == Run(Init(t0), es);
    assert Inv(Init(t0));
    RunKeeps(Init(t0), es);
  }

  // ---------------------------------------------------------------- what registration promises

  /** A single-use credential in the table is unbound and has no account, or names the only one it has. */
  lemma SingleUseNamesItsAccount(s: State, kid: string, id: string)
    requires Reachable(s) && kid in s.t.creds && !s.t.creds[kid].reusable && id != ""
    ensures s.t.creds[kid].account == id <==> id in s.t.accounts && s.t.accounts[id].eabKid == kid
  {
    ReachableInv(s);
    hide KeysAreOwn, CredsAsMade, Admitted, FreshIds, KeysRecorded, ChangesSigned, GrantsSigned;
  }

  /** Even once it is withdrawn, a single-use credential never has two accounts. */
  lemma SingleUseHasOneAccount(s: State, a: string, b: string)
    requires Reachable(s) && a in s.t.accounts && b in s.t.accounts && s.t.accounts[a].eabKid == s.t.accounts[b].eabKid
    requires s.t.accounts[a].eabKid in s.made && !s.made[s.t.accounts[a].eabKid].reusable
    ensures a == b
  {
    ReachableInv(s);
  }

  /** Nobody registered with a credential that was never provisioned, or that had lapsed by then. */
  lemma AdmittedInTime(s: State, id: string)
    requires Reachable(s) && id in s.t.accounts
    ensures s.t.accounts[id].eabKid in s.made
    ensures var expires := s.made[s.t.accounts[id].eabKid].expires; expires == 0 || s.t.accounts[id].created < expires
  {
    ReachableInv(s);
  }

  /** And every step that admits one finds its credential in the table, reusable or unbound, and not expired. */
  lemma AdmissionNeedsACredential(s: State, e: Event, id: string)
    requires Reachable(s) && id !in s.t.accounts && id in Next(s, e).t.accounts
    ensures var a := Next(s, e).t.accounts[id];
            && a.eabKid in s.t.creds && (s.t.creds[a.eabKid].reusable || s.t.creds[a.eabKid].account == "")
            && (s.t.creds[a.eabKid].expires == 0 || a.created < s.t.creds[a.eabKid].expires)
            && a.status == Active && a.thumbprint == a.jwk.thumbprint
            && forall other :: other in s.t.accounts ==> s.t.accounts[other].thumbprint != a.thumbprint
    ensures var kid := Next(s, e).t.accounts[id].eabKid;
            && kid in s.t.creds
            && Next(s, e).t.creds == if s.t.creds[kid].reusable then s.t.creds else s.t.creds[kid := s.t.creds[kid].(account := id)]
  {
    hide Reachable, Inv;
    assert Enabled(s, e);
    VerdictMeans(s.t, id, Next(s, e).t.accounts[id]);
  }

  lemma ThumbprintsAreUnique(s: State, a: string, b: string)
    requires Reachable(s) && a in s.t.accounts && b in s.t.accounts
    ensures s.t.accounts[a].thumbprint == s.t.accounts[a].jwk.thumbprint
    ensures s.t.accounts[a].thumbprint == s.t.accounts[b].thumbprint ==> a == b
  {
    ReachableInv(s);
  }

  lemma {:induction false} AccountsStay(s: State, es: seq<Event>, id: string)
    requires Inv(s) && id in s.t.accounts
    ensures id in Run(s, es).t.accounts
    ensures Run(s, es).t.accounts[id].eabKid == s.t.accounts[id].eabKid
    ensures s.t.accounts[id].status == Deactivated ==> Run(s, es).t.accounts[id].status == Deactivated
    decreases |es|
  {
    if es != [] {
      AccountPersists(s, es[0], id);
      NextKeeps(s, es[0]);
      hide Inv, Next;
      AccountsStay(Next(s, es[0]), es[1..], id);
    }
  }

  /** An account is never deleted, never changes credential, and once deactivated stays so. */
  lemma AccountsPersist(s: State, es: seq<Event>, id: string)
    requires Reachable(s) && id in s.t.accounts
    ensures id in Run(s, es).t.accounts
    ensures Run(s, es).t.accounts[id].eabKid == s.t.accounts[id].eabKid
    ensures s.t.accounts[id].status == Deactivated ==> Run(s, es).t.accounts[id].status == Deactivated
  {
    hide Inv, Reachable, Run;
    ReachableInv(s);
    AccountsStay(s, es, id);
  }

  lemma AccountPersists(s: State, e: Event, id: string)
    requires Inv(s) && id in s.t.accounts
    ensures id in Next(s, e).t.accounts && Next(s, e).t.accounts[id].eabKid == s.t.accounts[id].eabKid
    ensures s.t.accounts[id].status == Deactivated ==> Next(s, e).t.accounts[id].status == Deactivated
  {
    if Enabled(s, e) {
      StepsAreProper(s, e);
      hide Inv, Apply, WriteOf, ThreadsAfter, Recorded, Proper;
      WritePersists(s.t, WriteOf(s, e), s.drawn, id);
    }
  }

  lemma WritePersists(t: Tables, w: Write, drawn: set<string>, id: string)
    requires Proper(t, w, drawn) && id in t.accounts
    ensures id in Apply(t, w).accounts && Apply(t, w).accounts[id].eabKid == t.accounts[id].eabKid
    ensures t.accounts[id].status == Deactivated ==> Apply(t, w).accounts[id].status == Deactivated
  {
    hide Admits, Held;
  }

  /** A deactivation is taken up from a valid account whose stored key signed, and sets that account's status alone. */
  lemma DeactivationTakesEffect(s: State, t: nat, draw: string)
    requires t in s.threads && draw !in s.drawn
    ensures s.threads[t].OffAuth? ==>
              var OffAuth(id, signer) := s.threads[t];
              var s' := Next(s, Step(t, true, draw));
              && s'.t == s.t
              && s'.threads == if id in s.t.accounts && s.t.accounts[id].status == Active
                                  && s.t.accounts[id].jwk.thumbprint == signer.thumbprint
                               then s.threads[t := OffWrite(id)] else s.threads - {t}
    ensures s.threads[t].OffWrite? ==>
              var id, s' := s.threads[t].id, Next(s, Step(t, true, draw));
              && s'.t.creds == s.t.creds
              && s'.t.accounts == if id in s.t.accounts then s.t.accounts[id := s.t.accounts[id].(status := Deactivated)]
                                  else s.t.accounts
  {
    hide Held, Admits;
  }

  /** After a deactivation every authentication for the account fails, whatever key signs. */
  lemma DeactivationIsFinal(s: State, es: seq<Event>, id: string, signer: Jwk)
    requires Reachable(s) && id in s.t.accounts && s.t.accounts[id].status == Deactivated
    ensures !Authentic(Run(s, es).t, id, signer)
  {
    hide Reachable, Run;
    AccountsPersist(s, es, id);
  }

  /** Every key an account has had after its first was asked for with one it had before. */
  lemma OnlyHoldersChangeKeys(s: State, id: string, i: nat)
    requires Reachable(s) && id in s.t.accounts
    ensures id in s.keys && s.keys[id] != [] && s.keys[id][|s.keys[id]| - 1].key == s.t.accounts[id].jwk
    ensures 0 < i < |s.keys[id]| ==> exists j :: 0 <= j < i && s.keys[id][j].key.thumbprint == s.keys[id][i].signer.thumbprint
  {
    ReachableInv(s);
    if 0 < i < |s.keys[id]| { assert SignedByEarlier(s.keys[id], i); }
  }

  // ---------------------------------------------------------------- the store and its handlers

  datatype KeyReply = KeyRolled | KeyUnauthorized | KeyMalformed | KeyTaken(holder: string)
  datatype AccountReply = AccountExists(id: string) | AccountCreated | NoSuchAccount | NoSuchCredential | Refused(reason: Outcome)

  class Store {
    var creds: map<string, Cred>
    var accounts: map<string, Account>

    function Rows(): Tables
      reads this
    {
      Tables(creds, accounts)
    }

    constructor ()
      ensures Rows() == Tables(map[], map[])
    {
      creds, accounts := map[], map[];
    }

    /** The account a thumbprint belongs to. */
    method AccountByThumbprint(thumbprint: string) returns (r: Option<string>)
      ensures r.Some? <==> Held(Rows(), thumbprint)
      ensures r.None? ==> forall id :: id in accounts ==> accounts[id].thumbprint != thumbprint
      ensures r.Some? ==> r.value in accounts && accounts[r.value].thumbprint == thumbprint
    {
      r := None;
      var rest := accounts.Keys;
      while rest != {}
        invariant rest <= accounts.Keys
        invariant r.Some? ==> r.value in accounts && accounts[r.value].thumbprint == thumbprint
        invariant r.None? ==> forall id :: id in accounts && id !in rest ==> accounts[id].thumbprint != thumbprint
        decreases rest
      {
        var id :| id in rest;
        rest := rest - {id};
        if accounts[id].thumbprint == thumbprint { r := Some(id); }
      }
    }

    /** The registration transaction: a refusal rolls back, and says why. */
    method InsertAccountEAB(id: string, a: Account) returns (r: Outcome)
      modifies this
      ensures r == Verdict(old(Rows()), id, a)
      ensures Rows() == InsertAccount(old(Rows()), id, a)
      ensures !r.Registered? ==> Rows() == old(Rows())
      ensures r == CredentialGone <==> a.eabKid !in old(creds)
      ensures a.eabKid in old(creds) ==>
                var cred := old(creds)[a.eabKid];
                var live, open := cred.expires == 0 || a.created < cred.expires, cred.reusable || cred.account == "";
                var taken := id in old(accounts)
                          || exists other :: other in old(accounts) && old(accounts)[other].thumbprint == a.thumbprint;
                && (r == CredentialExpired <==> !live) && (r == CredentialUsed <==> live && !open)
                && (r == Conflict <==> live && open && taken) && (r == Registered <==> live && open && !taken)
                && (r == Registered ==>
                      && accounts == old(accounts)[id := a]
                      && creds == if cred.reusable then old(creds) else old(creds)[a.eabKid := cred.(account := id)])
    {
      VerdictMeans(Rows(), id, a);
      var now := a.created;
      if a.eabKid !in creds { return CredentialGone; }
      var cred := creds[a.eabKid];
      if !((cred.reusable || cred.account == "") && !Lapsed(cred, now)) {
        return if Lapsed(cred, now) then CredentialExpired else CredentialUsed;
      }
      var before := creds;
      creds := creds[a.eabKid := if cred.reusable then cred else cred.(account := id)];
      var holder := AccountByThumbprint(a.thumbprint);
      assert holder.Some? <==> Held(old(Rows()), a.thumbprint);
      if id in accounts || holder.Some? {
        creds := before;
        return Conflict;
      }
      accounts := accounts[id := a];
      r := Registered;
    }

    /** The key update; the unique thumbprint column may refuse it. */
    method SetAccountKey(id: string, key: Jwk) returns (ok: bool)
      modifies this`accounts
      ensures Rows() == SetKey(old(Rows()), id, key)
      ensures ok <==> id !in old(accounts) || Rekeys(old(Rows()), id, key)
      ensures id !in old(accounts) ==> ok
      ensures id in old(accounts) ==>
                (ok <==> forall other :: other in accounts && other != id ==> accounts[other].thumbprint != key.thumbprint)
      ensures accounts == if ok && id in old(accounts)
                          then old(accounts)[id := old(accounts)[id].(jwk := key, thumbprint := key.thumbprint)] else old(accounts)
    {
      if id !in accounts { return true; }
      ok := forall other :: other in accounts && accounts[other].thumbprint == key.thumbprint ==> other == id;
      if ok { accounts := accounts[id := accounts[id].(jwk := key, thumbprint := key.thumbprint)]; }
    }

    /** newAccount for a request whose signatures verify, with nobody else at the tables. */
    method HandleNewAccount(jwk: Jwk, kid: string, onlyExisting: bool, id: string, now: int) returns (r: AccountReply)
      modifies this
      ensures Held(old(Rows()), jwk.thumbprint) <==> r.AccountExists?
      ensures r.AccountExists? ==> r.id in accounts && accounts[r.id].thumbprint == jwk.thumbprint
      ensures r.AccountCreated? ==> !onlyExisting && Rows() == InsertAccount(old(Rows()), id, NewAccount(jwk, kid, now))
                                    && id in accounts && accounts[id] == NewAccount(jwk, kid, now)
      ensures !r.AccountCreated? ==> Rows() == old(Rows())
      ensures !onlyExisting && !r.AccountExists? && kid in old(creds) && id !in old(accounts) ==>
                r == if Admits(old(Rows()), kid, now) then AccountCreated
                     else Refused(if Lapsed(old(creds)[kid], now) then CredentialExpired else CredentialUsed)
      ensures r.AccountExists? <==> exists other :: other in old(accounts) && old(accounts)[other].thumbprint == jwk.thumbprint
      ensures !r.AccountExists? && onlyExisting ==> r == NoSuchAccount
      ensures !r.AccountExists? && !onlyExisting ==>
                && (r == NoSuchCredential <==> kid !in old(creds))
                && (kid in old(creds) && id !in old(accounts) ==>
                      var cred := old(creds)[kid];
                      r == if cred.expires != 0 && cred.expires <= now then Refused(CredentialExpired)
                           else if !cred.reusable && cred.account != "" then Refused(CredentialUsed) else AccountCreated)
      ensures r.AccountCreated? ==> accounts == old(accounts)[id := Account(jwk.thumbprint, jwk, kid, Active, now)]
    {
      var existing := AccountByThumbprint(jwk.thumbprint);
      if existing.Some? { return AccountExists(existing.value); }
      if onlyExisting { return NoSuchAccount; }
      if kid !in creds { return NoSuchCredential; }
      var verdict := InsertAccountEAB(id, NewAccount(jwk, kid, now));
      r := if verdict.Registered? then AccountCreated else Refused(verdict);
    }

    /** keyChange after both signatures verified: the checks in order, then the update. */
    method HandleKeyChange(id: string, signer: Jwk, oldKey: Jwk, newKey: Jwk) returns (r: KeyReply)
      requires KeysAreOwn(accounts)
      modifies this`accounts
      ensures KeysAreOwn(accounts)
      ensures r.KeyUnauthorized? <==> !Authentic(old(Rows()), id, signer)
      ensures r.KeyRolled? <==> && Authentic(old(Rows()), id, signer) && oldKey.thumbprint == signer.thumbprint
                                && !Held(old(Rows()), newKey.thumbprint)
      ensures r.KeyRolled? ==> Rows() == SetKey(old(Rows()), id, newKey) && accounts[id].jwk == newKey
      ensures !r.KeyRolled? ==> Rows() == old(Rows())
      ensures r.KeyTaken? ==> r.holder in accounts && accounts[r.holder].thumbprint == newKey.thumbprint && r.holder != id
      ensures var accounts := old(accounts);
              var signed := id in accounts && accounts[id].status == Active && accounts[id].jwk.thumbprint == signer.thumbprint;
              var named := signed && oldKey.thumbprint == accounts[id].thumbprint && newKey.thumbprint != oldKey.thumbprint;
              var taken := exists other :: other in accounts && accounts[other].thumbprint == newKey.thumbprint;
              && (r.KeyUnauthorized? <==> !signed) && (r.KeyMalformed? <==> signed && !named)
              && (r.KeyTaken? <==> named && taken) && (r.KeyRolled? <==> named && !taken)
      ensures accounts == if r.KeyRolled? then old(accounts)[id := old(accounts)[id].(jwk := newKey, thumbprint := newKey.thumbprint)]
                          else old(accounts)
    {
      if id !in accounts || accounts[id].status != Active || accounts[id].jwk.thumbprint != signer.thumbprint {
        return KeyUnauthorized;
      }
      if oldKey.thumbprint != accounts[id].thumbprint { return KeyMalformed; }
      if newKey.thumbprint == oldKey.thumbprint {
        assert accounts[id].thumbprint == newKey.thumbprint;
        return KeyMalformed;
      }
      var other := AccountByThumbprint(newKey.thumbprint);
      if other.Some? { return KeyTaken(other.value); }
      var ok := SetAccountKey(id, newKey);
      r := KeyRolled;
    }
  }
}
