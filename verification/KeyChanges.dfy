/**
 Which key a key change replaces. The request is checked against the stored key
 and written later by a statement that does not look at it (RFC 8555 section 7.3.5
 asks that the old key be the account's). A change replaces the key that signed it
 when no other change of the account lies between its check and its write, and two
 overlapping changes are enough to break that.
 */
module KeyChanges {
  import opened Strings
  import opened Registration

  // ---------------------------------------------------------------- one change

  /** No key the account has had since the check repeats the signer's. */
  predicate SignerNotRepeated(thread: Thread, keys: Keyring)
    requires thread.KeyWrite?
  {
    thread.id in keys ==>
      forall i :: thread.version < i < |keys[thread.id]| ==> keys[thread.id][i].key.thumbprint != thread.signer.thumbprint
  }

  /** Unless the account has gone back to it, a change meets its signer's key exactly when no other landed since its check. */
  lemma ReplacesItsSignerExactlyWhen(s: State, t: nat)
    requires Reachable(s) && t in s.threads && s.threads[t].KeyWrite? && SignerNotRepeated(s.threads[t], s.keys)
    ensures s.threads[t].id in s.t.accounts
    ensures s.t.accounts[s.threads[t].id].thumbprint == s.threads[t].signer.thumbprint
       <==> s.threads[t].version == Version(s.keys, s.threads[t].id)
  {
    ReachableInv(s);
    assert Signed(s.threads[t], s.keys);
  }

  // ---------------------------------------------------------------- changes one at a time

  /** Between its check and its write. */
  predicate Changing(thread: Thread, id: string) {
    (thread.KeyLookup? || thread.KeyWrite?) && thread.id == id
  }

  ghost function Between(threads: map<nat, Thread>, id: string): set<nat> {
    set t | t in threads && Changing(threads[t], id)
  }

  /** At no moment do more than `n` changes of one account overlap. */
  ghost predicate AtMost(threads: map<nat, Thread>, n: nat) {
    forall id :: |Between(threads, id)| <= n
  }

  /** Reached with at most `n` changes of one account overlapping all along. */
  ghost predicate ReachedWithin(s: State, n: nat, steps: nat)
    decreases steps
  {
    && AtMost(s.threads, n)
    && if steps == 0 then s == Init(s.now)
       else exists before: State, e: Event :: ReachedWithin(before, n, steps - 1) && s == Next(before, e)
  }

  /** Every key change replaced the key that signed it. */
  ghost predicate Chained(keys: Keyring) {
    forall id, i :: id in keys && 0 < i < |keys[id]| ==> Follows(keys[id], i)
  }

  predicate Follows(grants: seq<Grant>, i: nat)
    requires 0 < i < |grants|
  {
    grants[i].signer.thumbprint == grants[i - 1].key.thumbprint
  }

  /** Every change in flight was checked against the newest key. */
  ghost predicate Current(threads: map<nat, Thread>, keys: Keyring) {
    forall t :: t in threads && (threads[t].KeyLookup? || threads[t].KeyWrite?) ==>
      threads[t].version == Version(keys, threads[t].id)
  }

  lemma TwoAreTwo(threads: map<nat, Thread>, t: nat, u: nat, id: string)
    requires t in threads && u in threads && t != u && Changing(threads[t], id) && Changing(threads[u], id)
    ensures |Between(threads, id)| >= 2
  {
    SubsetIsSmaller({t, u}, Between(threads, id));
  }

  /** The keys of an account move only when one of its changes is written. */
  lemma OthersKeepTheirKeys(s: State, e: Event, id: string)
    requires Inv(s) && Enabled(s, e) && id in s.keys
    requires !(e.Step? && e.ok && s.threads[e.tid].KeyWrite? && s.threads[e.tid].id == id)
    ensures id in Next(s, e).keys && Next(s, e).keys[id] == s.keys[id]
  {
    StepsAreProper(s, e);
    hide KeysAreOwn, CredsAsMade, Admitted, BoundToOne, FreshIds, ChangesSigned, GrantsSigned, Admits, Held;
  }

  /** Where a thread in flight after a step was before it. */
  lemma ChangeBefore(s: State, e: Event, u: nat)
    requires Inv(s) && Enabled(s, e) && u in Next(s, e).threads
    requires Next(s, e).threads[u].KeyLookup? || Next(s, e).threads[u].KeyWrite?
    ensures u in s.threads && Next(s, e).threads[u].id in s.keys
    ensures var before, after := s.threads[u], Next(s, e).threads[u];
            || (Changing(before, after.id) && before.version == after.version && !(e.Step? && e.ok && e.tid == u && before.KeyWrite?))
            || (before.KeyAuth? && before.id == after.id && after.version == Version(s.keys, after.id) && e.Step? && e.tid == u)
  {
    hide KeysAreOwn, CredsAsMade, Admitted, BoundToOne, FreshIds, GrantsSigned, Held, Apply, Recorded, Authentic;
    if e.Step? && e.tid == u && s.threads[u].KeyAuth? {
      CheckedIsKnown(s, s.threads[u]);
    } else {
      assert Signed(s.threads[u], s.keys);
    }
  }

  lemma CheckedIsKnown(s: State, thread: Thread)
    requires Inv(s) && thread.KeyAuth? && Authentic(s.t, thread.id, thread.signer)
    ensures thread.id in s.keys
  {
  }

  lemma CurrentKept(s: State, e: Event)
    requires Inv(s) && AtMost(s.threads, 1) && Current(s.threads, s.keys) && Enabled(s, e)
    ensures Current(Next(s, e).threads, Next(s, e).keys)
  {
    hide Inv, Enabled, Next;
    var s' := Next(s, e);
    forall u | u in s'.threads && (s'.threads[u].KeyLookup? || s'.threads[u].KeyWrite?)
      ensures s'.threads[u].version == Version(s'.keys, s'.threads[u].id)
    {
      var id := s'.threads[u].id;
      ChangeBefore(s, e, u);
      if e.Step? && e.ok && e.tid in s.threads && s.threads[e.tid].KeyWrite? && s.threads[e.tid].id == id && e.tid != u {
        TwoAreTwo(s.threads, u, e.tid, id);
      } else {
        StepNamesAThread(s, e);
        OthersKeepTheirKeys(s, e, id);
      }
    }
  }

  lemma StepNamesAThread(s: State, e: Event)
    requires Enabled(s, e)
    ensures e.Step? ==> e.tid in s.threads
  {
  }

  lemma ChainedKept(s: State, e: Event)
    requires Inv(s) && Current(s.threads, s.keys) && Chained(s.keys) && Enabled(s, e)
    ensures Chained(Next(s, e).keys)
  {
    hide Inv, Enabled, Next, Follows;
    var keys, keys' := s.keys, Next(s, e).keys;
    forall id, i | id in keys' && 0 < i < |keys'[id]| ensures Follows(keys'[id], i) {
      if id in keys && i < |keys[id]| {
        GrantStays(s, e, id, i);
      } else {
        NewGrantFollows(s, e, id, i);
      }
    }
  }

  lemma GrantStays(s: State, e: Event, id: string, i: nat)
    requires Inv(s) && Enabled(s, e) && id in s.keys && 0 < i < |s.keys[id]| && Follows(s.keys[id], i)
    ensures id in Next(s, e).keys && i < |Next(s, e).keys[id]| && Follows(Next(s, e).keys[id], i)
  {
    StepsAreProper(s, e);
    assert KeysRecorded(s.t.accounts, s.keys);
    hide Inv, Proper, KeysRecorded, Recorded, Enabled;
    GrantsStay(s, e, id);
  }

  lemma NewGrantFollows(s: State, e: Event, id: string, i: nat)
    requires Inv(s) && Current(s.threads, s.keys) && Enabled(s, e)
    requires id in Next(s, e).keys && 0 < i < |Next(s, e).keys[id]| && !(id in s.keys && i < |s.keys[id]|)
    ensures Follows(Next(s, e).keys[id], i)
  {
    StepsAreProper(s, e);
    hide KeysAreOwn, CredsAsMade, Admitted, BoundToOne, FreshIds, GrantsSigned, Admits, Held;
    assert e.Step? && s.threads[e.tid].KeyWrite? && Signed(s.threads[e.tid], s.keys);
  }

  lemma {:induction false} SerialRunsChain(s: State, steps: nat)
    requires ReachedWithin(s, 1, steps)
    ensures Inv(s) && Current(s.threads, s.keys) && Chained(s.keys)
    decreases steps
  {
    hide Current, Chained, AtMost, Next, Enabled;
    if steps == 0 {
      InitChained(s.now);
    } else {
      hide Inv;
      var before: State, e: Event :| ReachedWithin(before, 1, steps - 1) && s == Next(before, e);
      SerialRunsChain(before, steps - 1);
      NextKeeps(before, e);
      if Enabled(before, e) {
        CurrentKept(before, e);
        ChainedKept(before, e);
      } else {
        Refused(before, e);
      }
    }
  }

  lemma InitChained(now: int)
    ensures Inv(Init(now)) && Current(Init(now).threads, Init(now).keys) && Chained(Init(now).keys)
  {
  }

  lemma Refused(s: State, e: Event)
    requires !Enabled(s, e)
    ensures Next(s, e) == s
  {
  }

  // ---------------------------------------------------------------- two at a time

  /** The requests of one key change up to its write. */
  ghost function Checked(s: State, t: nat, id: string, signer: Jwk, newKey: Jwk, draws: (string, string)): State {
    Next(Next(Next(s, Start(t, KeyAuth(id, signer, signer, newKey))), Step(t, true, draws.0)), Step(t, true, draws.1))
  }

  lemma ChangeReachesItsWrite(s: State, t: nat, id: string, signer: Jwk, newKey: Jwk, draws: (string, string))
    requires KeysAreOwn(s.t.accounts) && Authentic(s.t, id, signer) && !Held(s.t, newKey.thumbprint)
    requires t !in s.threads && draws.0 !in s.drawn && draws.1 !in s.drawn && draws.0 != draws.1
    ensures Checked(s, t, id, signer, newKey, draws)
         == s.(threads := s.threads[t := KeyWrite(id, signer, newKey, Version(s.keys, id))], drawn := s.drawn + {draws.0, draws.1})
  {
    assert newKey.thumbprint != s.t.accounts[id].thumbprint;
    hide Held;
    var s1 := Next(s, Start(t, KeyAuth(id, signer, signer, newKey)));
    var s2 := Next(s1, Step(t, true, draws.0));
    var s3 := Next(s2, Step(t, true, draws.1));
    assert s3.threads == s.threads[t := KeyWrite(id, signer, newKey, Version(s.keys, id))];
    assert s3.drawn == s.drawn + {draws.0, draws.1};
  }

  /**
   The write does not look at the old key: of two changes checked against it, both
   land, the second although its signer no longer holds the account.
   */
  lemma OvertakenChangeLands(s: State, t: nat, u: nat, id: string, signer: Jwk, k1: Jwk, k2: Jwk, d: seq<string>)
    requires KeysAreOwn(s.t.accounts) && Authentic(s.t, id, signer) && t !in s.threads && u !in s.threads && t != u
    requires !Held(s.t, k1.thumbprint) && !Held(s.t, k2.thumbprint) && k1.thumbprint != k2.thumbprint
    requires Undrawn(s.drawn, d)
    ensures var both := Checked(Checked(s, t, id, signer, k1, (d[0], d[1])), u, id, signer, k2, (d[2], d[3]));
            var first := Next(both, Step(t, true, d[4]));
            var second := Next(first, Step(u, true, d[5]));
            && id in first.t.accounts && first.t.accounts[id].jwk == k1 && !Authentic(first.t, id, signer)
            && id in second.t.accounts && second.t.accounts[id].jwk == k2
            && (id in s.keys ==> second.keys == s.keys[id := s.keys[id] + [Grant(k1, signer), Grant(k2, signer)]])
  {
    hide Checked, Held, KeysAreOwn, Next, Authentic;
    DrawsStayFresh(s.drawn, d);
    hide Undrawn;
    var one := Checked(s, t, id, signer, k1, (d[0], d[1]));
    ChangeReachesItsWrite(s, t, id, signer, k1, (d[0], d[1]));
    ChangeReachesItsWrite(one, u, id, signer, k2, (d[2], d[3]));
    var both := Checked(one, u, id, signer, k2, (d[2], d[3]));
    BothWritesLand(both, t, u, id, signer, k1, k2, d[4], d[5]);
  }

  ghost predicate Undrawn(drawn: set<string>, d: seq<string>) {
    |d| == 6 && NoDuplicates(d) && forall i :: 0 <= i < 6 ==> d[i] !in drawn
  }

  lemma DrawsStayFresh(drawn: set<string>, d: seq<string>)
    requires Undrawn(drawn, d)
    ensures |d| == 6 && d[0] != d[1] && d[2] != d[3] && d[4] != d[5]
    ensures d[0] !in drawn && d[1] !in drawn
    ensures d[2] !in drawn + {d[0], d[1]} && d[3] !in drawn + {d[0], d[1]}
    ensures d[4] !in drawn + {d[0], d[1]} + {d[2], d[3]} && d[5] !in drawn + {d[0], d[1]} + {d[2], d[3]}
  {
  }

  lemma BothWritesLand(s: State, t: nat, u: nat, id: string, signer: Jwk, k1: Jwk, k2: Jwk, d1: string, d2: string)
    requires t in s.threads && u in s.threads && t != u && s.threads[t].KeyWrite? && s.threads[u].KeyWrite?
    requires s.threads[t].id == id && s.threads[u].id == id && s.threads[t].newKey == k1 && s.threads[u].newKey == k2
    requires KeysAreOwn(s.t.accounts) && Authentic(s.t, id, signer) && !Held(s.t, k1.thumbprint)
    requires !Held(s.t, k2.thumbprint)
    requires s.threads[t].signer == signer && s.threads[u].signer == signer
    requires d1 !in s.drawn && d2 !in s.drawn && d1 != d2
    ensures var first := Next(s, Step(t, true, d1));
            var second := Next(first, Step(u, true, d2));
            && id in first.t.accounts && first.t.accounts[id].jwk == k1 && !Authentic(first.t, id, signer)
            && id in second.t.accounts && second.t.accounts[id].jwk == k2
            && (id in s.keys ==> second.keys == s.keys[id := s.keys[id] + [Grant(k1, signer), Grant(k2, signer)]])
  {
    assert s.t.accounts[id].thumbprint == signer.thumbprint;
    UnheldKeyFits(s.t, id, k1);
    WriteLands(s, t, d1);
    var first := Next(s, Step(t, true, d1));
    OthersStillDoNotHold(s.t, id, k1, k2);
    hide Next, Rekeys;
    WriteLands(first, u, d2);
    assert SetKey(first.t, id, k2).accounts[id].jwk == k2;
    if id in s.keys {
      assert s.keys[id] + [Grant(k1, signer)] + [Grant(k2, signer)] == s.keys[id] + [Grant(k1, signer), Grant(k2, signer)];
    }
  }

  lemma UnheldKeyFits(t: Tables, id: string, key: Jwk)
    requires id in t.accounts && !Held(t, key.thumbprint)
    ensures Rekeys(t, id, key)
  {
  }

  lemma WriteLands(s: State, t: nat, draw: string)
    requires t in s.threads && s.threads[t].KeyWrite? && Rekeys(s.t, s.threads[t].id, s.threads[t].newKey)
    requires draw !in s.drawn
    ensures Next(s, Step(t, true, draw)).t == SetKey(s.t, s.threads[t].id, s.threads[t].newKey)
    ensures Next(s, Step(t, true, draw)).threads == s.threads - {t}
    ensures Next(s, Step(t, true, draw)).drawn == s.drawn + {draw}
    ensures var KeyWrite(id, signer, newKey, _) := s.threads[t];
            id in s.keys ==> Next(s, Step(t, true, draw)).keys == s.keys[id := s.keys[id] + [Grant(newKey, signer)]]
  {
  }

  lemma OthersStillDoNotHold(t: Tables, id: string, k1: Jwk, k2: Jwk)
    requires id in t.accounts && !Held(t, k1.thumbprint) && !Held(t, k2.thumbprint)
    ensures Rekeys(SetKey(t, id, k1), id, k2)
  {
  }

  // ---------------------------------------------------------------- a run that overlaps two

  const FIRST: Jwk := Jwk("first", "")
  const SECOND: Jwk := Jwk("second", "")
  const THIRD: Jwk := Jwk("third", "")

  lemma FewThreads(threads: map<nat, Thread>, n: nat)
    requires |threads| <= n
    ensures AtMost(threads, n)
  {
    forall id ensures |Between(threads, id)| <= n { SubsetIsSmaller(Between(threads, id), threads.Keys); }
  }

  lemma OneMoreStep(s: State, n: nat, steps: nat, e: Event)
    requires ReachedWithin(s, n, steps) && |Next(s, e).threads| <= n
    ensures ReachedWithin(Next(s, e), n, steps + 1)
  {
    hide Next;
    FewThreads(Next(s, e).threads, n);
    hide AtMost;
  }

  /** The tables after one registration from scratch. */
  ghost predicate JustRegistered(s: State) {
    && s.t.accounts == map["id" := NewAccount(FIRST, "kid", 0)] && s.keys == map["id" := [Grant(FIRST, FIRST)]]
    && s.threads == map[] && s.drawn == {"", "kid", "a", "id", "b"}
  }

  lemma Registers(n: nat) returns (s: State)
    requires n >= 1
    ensures ReachedWithin(s, n, 5) && JustRegistered(s)
  {
    hide AtMost, ReachedWithin;
    var s0 := Init(0);
    StartsWithin(n);
    var s1 := Next(s0, Provision("kid", true, 0));
    OneMoreStep(s0, n, 0, Provision("kid", true, 0));
    s := RegistersOn(s1, n);
  }

  lemma StartsWithin(n: nat)
    ensures ReachedWithin(Init(0), n, 0)
  {
    FewThreads(map[], n);
  }

  lemma RegistersOn(s1: State, n: nat) returns (s: State)
    requires n >= 1 && ReachedWithin(s1, n, 1) && s1.threads == map[] && s1.now == 0 && s1.drawn == {"", "kid"}
    requires s1.t == Tables(map["kid" := Cred(true, "", 0)], map[]) && s1.keys == map[]
    ensures ReachedWithin(s, n, 5) && JustRegistered(s)
  {
    hide AtMost, ReachedWithin, Next;
    LooksUp(s1);
    var s2 := s1.(threads := map[0 := RegLookup(FIRST, "kid")]);
    OneMoreStep(s1, n, 1, Start(0, RegLookup(FIRST, "kid")));
    FindsNobody(s2);
    var s3 := s2.(threads := map[0 := RegCredential(FIRST, "kid")], drawn := {"", "kid", "a"});
    OneMoreStep(s2, n, 2, Step(0, true, "a"));
    FindsCredential(s3);
    var s4 := s3.(threads := map[0 := RegInsert("id", FIRST, "kid", 0)], drawn := {"", "kid", "a", "id"});
    OneMoreStep(s3, n, 3, Step(0, true, "id"));
    s := Next(s4, Step(0, true, "b"));
    Inserts(s4);
    OneMoreStep(s4, n, 4, Step(0, true, "b"));
  }

  lemma LooksUp(s: State)
    requires s.threads == map[]
    ensures Next(s, Start(0, RegLookup(FIRST, "kid"))) == s.(threads := map[0 := RegLookup(FIRST, "kid")])
  {
  }

  lemma FindsNobody(s: State)
    requires s.threads == map[0 := RegLookup(FIRST, "kid")] && s.t.accounts == map[] && s.drawn == {"", "kid"}
    ensures Next(s, Step(0, true, "a")) == s.(threads := map[0 := RegCredential(FIRST, "kid")], drawn := {"", "kid", "a"})
  {
    assert map[0 as nat := RegLookup(FIRST, "kid")][0 := RegCredential(FIRST, "kid")] == map[0 := RegCredential(FIRST, "kid")];
  }

  lemma FindsCredential(s: State)
    requires s.threads == map[0 := RegCredential(FIRST, "kid")] && "kid" in s.t.creds && s.drawn == {"", "kid", "a"} && s.now == 0
    ensures Next(s, Step(0, true, "id"))
         == s.(threads := map[0 := RegInsert("id", FIRST, "kid", 0)], drawn := {"", "kid", "a", "id"})
  {
  }

  lemma Inserts(s: State)
    requires s.threads == map[0 := RegInsert("id", FIRST, "kid", 0)] && s.drawn == {"", "kid", "a", "id"}
    requires s.t == Tables(map["kid" := Cred(true, "", 0)], map[]) && s.keys == map[]
    ensures JustRegistered(Next(s, Step(0, true, "b")))
  {
  }

  /** The steps of a check, with one thread more than before. */
  lemma CheckedWithin(s: State, n: nat, steps: nat, t: nat, id: string, signer: Jwk, newKey: Jwk, draws: (string, string))
    requires ReachedWithin(s, n, steps) && t !in s.threads && |s.threads| < n
    ensures ReachedWithin(Checked(s, t, id, signer, newKey, draws), n, steps + 3)
  {
    hide AtMost, ReachedWithin, Next;
    var e1, e2, e3 := Start(t, KeyAuth(id, signer, signer, newKey)), Step(t, true, draws.0), Step(t, true, draws.1);
    var s1 := Next(s, e1);
    var s2 := Next(s1, e2);
    KeysGrowBy(s, e1, t);
    KeysGrowBy(s1, e2, t);
    KeysGrowBy(s2, e3, t);
    var more := s.threads.Keys + {t};
    SubsetIsSmaller(s1.threads.Keys, more);
    SubsetIsSmaller(s2.threads.Keys, more);
    SubsetIsSmaller(Next(s2, e3).threads.Keys, more);
    OneMoreStep(s, n, steps, e1);
    OneMoreStep(s1, n, steps + 1, e2);
    OneMoreStep(s2, n, steps + 2, e3);
  }

  lemma KeysGrowBy(s: State, e: Event, t: nat)
    requires (e.Step? || e.Start?) && e.tid == t
    ensures Next(s, e).threads.Keys <= s.threads.Keys + {t}
  {
  }

  lemma RegisteredFacts(s: State)
    requires JustRegistered(s)
    ensures KeysAreOwn(s.t.accounts) && Authentic(s.t, "id", FIRST)
    ensures !Held(s.t, SECOND.thumbprint) && !Held(s.t, THIRD.thumbprint)
  {
  }

  lemma DrawsAreFresh(s: State)
    requires JustRegistered(s)
    ensures Undrawn(s.drawn, ["c", "d", "e", "f", "g", "h"])
  {
  }

  lemma TwoChecks(s: State, n: nat, steps: nat, d: seq<string>) returns (both: State)
    requires ReachedWithin(s, n, steps) && n >= 2 && JustRegistered(s) && |d| == 6 && Undrawn(s.drawn, d)
    ensures both == Checked(Checked(s, 1, "id", FIRST, SECOND, (d[0], d[1])), 2, "id", FIRST, THIRD, (d[2], d[3]))
    ensures ReachedWithin(both, n, steps + 6) && both.threads.Keys == {1, 2} && both.keys == s.keys
  {
    hide ReachedWithin, Next, KeysAreOwn, Authentic, Held, Checked;
    DrawsStayFresh(s.drawn, d);
    RegisteredFacts(s);
    hide Undrawn;
    var one := Checked(s, 1, "id", FIRST, SECOND, (d[0], d[1]));
    ChangeReachesItsWrite(s, 1, "id", FIRST, SECOND, (d[0], d[1]));
    CheckedWithin(s, n, steps, 1, "id", FIRST, SECOND, (d[0], d[1]));
    both := Checked(one, 2, "id", FIRST, THIRD, (d[2], d[3]));
    ChangeReachesItsWrite(one, 2, "id", FIRST, THIRD, (d[2], d[3]));
    assert |one.threads| == 1;
    CheckedWithin(one, n, steps + 3, 2, "id", FIRST, THIRD, (d[2], d[3]));
  }

  lemma OneWrite(s: State, n: nat, steps: nat, t: nat, draw: string)
    requires ReachedWithin(s, n, steps) && s.threads.Keys <= {1, 2} && n >= 2
    ensures ReachedWithin(Next(s, Step(t, true, draw)), n, steps + 1)
    ensures Next(s, Step(t, true, draw)).threads.Keys <= {1, 2}
  {
    hide ReachedWithin;
    var after := Next(s, Step(t, true, draw));
    assert after.threads.Keys <= s.threads.Keys;
    SubsetIsSmaller(after.threads.Keys, {1, 2});
    OneMoreStep(s, n, steps, Step(t, true, draw));
  }

  /**
   From an empty store: one registration, two checks against its key, two writes.
   The second write replaces a key that did not sign it.
   */
  lemma TwoChangesOverlap(n: nat) returns (s: State, steps: nat)
    requires n >= 2
    ensures ReachedWithin(s, n, steps)
    ensures s.keys == map["id" := [Grant(FIRST, FIRST), Grant(SECOND, FIRST), Grant(THIRD, FIRST)]]
    ensures !Chained(s.keys)
  {
    hide ReachedWithin, Next, Checked, Undrawn, KeysAreOwn, Authentic, Held;
    var s0 := Registers(n);
    RegisteredFacts(s0);
    var d := ["c", "d", "e", "f", "g", "h"];
    DrawsAreFresh(s0);
    var both := TwoChecks(s0, n, 5, d);
    var first := Next(both, Step(1, true, d[4]));
    s, steps := Next(first, Step(2, true, d[5])), 13;
    OneWrite(both, n, 11, 1, d[4]);
    OneWrite(first, n, 12, 2, d[5]);
    OvertakenChangeLands(s0, 1, 2, "id", FIRST, SECOND, THIRD, d);
    assert s.keys["id"] == [Grant(FIRST, FIRST), Grant(SECOND, FIRST), Grant(THIRD, FIRST)];
    assert !Follows(s.keys["id"], 2);
  }

  // ---------------------------------------------------------------- exactly when

  lemma {:induction false} FewerIsWithin(s: State, n: nat, m: nat, steps: nat)
    requires ReachedWithin(s, n, steps) && n <= m
    ensures ReachedWithin(s, m, steps)
    decreases steps
  {
    if steps > 0 {
      hide Next;
      var before: State, e: Event :| ReachedWithin(before, n, steps - 1) && s == Next(before, e);
      FewerIsWithin(before, n, m, steps - 1);
    }
  }

  /** Every change replaces its signer's key in every run, exactly when no two changes of an account overlap. */
  lemma ChainExactlyWhenSerial(n: nat)
    ensures (forall s, steps :: ReachedWithin(s, n, steps) ==> Chained(s.keys)) <==> n <= 1
  {
    hide ReachedWithin, Chained, Inv, Current;
    if n <= 1 {
      forall s, steps | ReachedWithin(s, n, steps) ensures Chained(s.keys) {
        FewerIsWithin(s, n, 1, steps);
        SerialRunsChain(s, steps);
      }
    } else {
      var s, steps := TwoChangesOverlap(n);
    }
  }

  lemma {:induction false} RunSplits(s: State, es: seq<Event>, e: Event)
    ensures Run(s, es + [e]) == Next(Run(s, es), e)
    decreases |es|
  {
    hide Next;
    if es == [] {
      assert [e][1..] == [];
    } else {
      assert (es + [e])[1..] == es[1..] + [e];
      RunSplits(Next(s, es[0]), es[1..], e);
    }
  }

  /** These are runs of the machine like any other. */
  lemma {:induction false} WithinIsReachable(s: State, n: nat, steps: nat)
    requires ReachedWithin(s, n, steps)
    ensures Reachable(s)
    decreases steps
  {
    hide Next, AtMost;
    if steps == 0 {
      assert s == Run(Init(s.now), []);
    } else {
      var before: State, e: Event :| ReachedWithin(before, n, steps - 1) && s == Next(before, e);
      WithinIsReachable(before, n, steps - 1);
      var t0: int, es: seq<Event> :| before == Run(Init(t0), es);
      RunSplits(Init(t0), es, e);
    }
  }
}
