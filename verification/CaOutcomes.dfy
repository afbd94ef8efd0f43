/**
 What each command of the CA store does in every run, said in terms of rows, files
 and the clock alone: when it succeeds, and what the store then holds.
 */
module CaOutcomes {
  import opened Strings
  import opened CaStore
  import opened CaLineage
  import opened CaCrl
  import opened CaRaces
  import Config

  // ---------------------------------------------------------------- revocation

  /** The slug has a new CRL: the next number, dated `now`, with the entries not yet due to go and with `fp`. */
  ghost predicate Listed(s: State, after: Files, slug: string, fp: nat) {
    && slug in s.files && s.files[slug].crls != [] && after.Keys == s.files.Keys
    && (forall other :: other in s.files && other != slug ==> after[other] == s.files[other])
    && after[slug].pem == s.files[slug].pem && after[slug].crt == s.files[slug].crt
    && |after[slug].crls| == |s.files[slug].crls| + 1 && s.files[slug].crls <= after[slug].crls
    && var prev, last := s.files[slug].crls[|s.files[slug].crls| - 1], after[slug].crls[|s.files[slug].crls|];
       && last.number == prev.number + 1 && last.thisUpdate == s.now
       && forall x :: x in last.entries <==>
            x == fp || (x in prev.entries && !(x in s.db.revoked && x in s.db.certs && s.db.certs[x].notAfter < prev.thisUpdate))
  }

  lemma RewritingLists(s: State, slug: string, fp: nat)
    requires HasCrl(s.files, slug)
    ensures Listed(s, RewriteCrl(s.db, s.files, slug, s.now, [fp]), slug, fp)
  {
    var prev := s.files[slug].crls[|s.files[slug].crls| - 1];
    var last := NextCrl(s.db, prev, s.now, [fp]);
    forall x ensures x in last.entries <==> x == fp || (x in prev.entries && !Prunable(s.db, x, prev.thisUpdate)) {
      NextEntries(s.db, prev, s.now, [fp], x);
    }
    assert last.number == prev.number + 1 && last.thisUpdate == s.now;
    hide NextCrl;
  }

  /** A signing generation of that name with its certificate and a CRL published. */
  predicate Publishes(s: State, id: GenId, cn: string) {
    && id in s.db.gens && id.purpose != ROOT && s.db.gens[id].cn == cn && s.db.gens[id].slug in s.files
    && s.files[s.db.gens[id].slug].pem.Some? && s.files[s.db.gens[id].slug].crls != []
  }

  lemma RevocableMeans(s: State, fp: nat)
    requires NamesDistinct(s.db.gens)
    ensures Revocable(s, fp) <==>
              && fp in s.db.certs && s.db.certs[fp].kind.Leaf? && fp !in s.db.revoked && s.now < s.db.certs[fp].notAfter
              && exists id :: Publishes(s, id, s.db.certs[fp].issuerCn)
  {
    if fp in s.db.certs {
      var cn := s.db.certs[fp].issuerCn;
      if id :| Publishes(s, id, cn) { LookupFinds(s.db.gens, id); }
      if GenByCn(s.db.gens, cn).Some? && Revocable(s, fp) { assert Publishes(s, GenByCn(s.db.gens, cn).value, cn); }
    }
  }

  /** The step of a completed revocation, in rows and files. */
  ghost predicate RevokesLeaf(s: State, s': State, fp: nat) {
    && fp in s.db.certs && s'.db == s.db.(revoked := s.db.revoked + {fp})
    && exists id :: Publishes(s, id, s.db.certs[fp].issuerCn) && Listed(s, s'.files, s.db.gens[id].slug, fp)
  }

  lemma RevokeMeans(s: State, fp: nat)
    requires Revocable(s, fp)
    ensures RevokesLeaf(s, Next(s, Revoke(fp, true)), fp)
  {
    hide Listed, RewriteCrl;
    var id := GenByCn(s.db.gens, s.db.certs[fp].issuerCn).value;
    RewritingLists(s, s.db.gens[id].slug, fp);
    assert Publishes(s, id, s.db.certs[fp].issuerCn);
  }

  /** A generation of that name, retired by another of its CA, published and its certificate not revoked. */
  predicate MayBeRevoked(s: State, id: GenId, cn: string) {
    && id in s.db.gens && id.purpose != ROOT && s.db.gens[id].cn == cn && s.db.gens[id].status != Active
    && s.db.gens[id].slug in s.files && s.files[s.db.gens[id].slug].pem.Some?
    && s.files[s.db.gens[id].slug].pem.value.fp !in s.db.revoked
  }

  /** The active root, with its certificate and a CRL published. */
  predicate IsRoot(s: State, root: GenId) {
    && root in s.db.gens && root.purpose == ROOT && s.db.gens[root].status == Active && s.db.gens[root].slug in s.files
    && s.files[s.db.gens[root].slug].pem.Some? && s.files[s.db.gens[root].slug].crls != []
  }

  ghost predicate OneActive(gens: map<GenId, Gen>) {
    forall a, b :: a in gens && b in gens && a.purpose == b.purpose && gens[a].status == Active && gens[b].status == Active ==> a == b
  }

  /** The index has at most one generation of a name and one active generation of a purpose. */
  ghost predicate Searchable(gens: map<GenId, Gen>) {
    NamesDistinct(gens) && OneActive(gens)
  }

  lemma CaRevocableMeans(s: State, cn: string)
    requires Searchable(s.db.gens)
    ensures CaRevocable(s, cn) <==> SomeMayBeRevoked(s, cn)
  {
    if CaRevocable(s, cn) {
      assert MayBeRevoked(s, GenByCn(s.db.gens, cn).value, cn) && IsRoot(s, ActiveOf(s.db.gens, ROOT).value);
    }
    if id, root :| MayBeRevoked(s, id, cn) && IsRoot(s, root) { LookupFinds(s.db.gens, id); }
  }

  /** The step of a completed revocation of a generation, in rows and files. */
  ghost predicate RevokesCa(s: State, s': State, cn: string) {
    exists id, root :: MayBeRevoked(s, id, cn) && IsRoot(s, root) && RevokesUnder(s, s', id, root)
  }

  ghost predicate RevokesUnder(s: State, s': State, id: GenId, root: GenId)
    requires id in s.db.gens && root in s.db.gens && s.db.gens[id].slug in s.files && s.files[s.db.gens[id].slug].pem.Some?
  {
    var fp := s.files[s.db.gens[id].slug].pem.value.fp;
    && s'.db == s.db.(revoked := s.db.revoked + {fp}, gens := s.db.gens[id := s.db.gens[id].(status := Revoked)])
    && Listed(s, s'.files, s.db.gens[root].slug, fp)
  }

  /** Some generation of that name may be revoked under the active root. */
  ghost predicate SomeMayBeRevoked(s: State, cn: string) {
    exists id, root :: MayBeRevoked(s, id, cn) && IsRoot(s, root)
  }

  lemma RevokeCaMeans(s: State, cn: string)
    requires Searchable(s.db.gens) && CaRevocable(s, cn)
    ensures RevokesCa(s, RevokeCaStep(s, cn, true), cn) && Next(s, RevokeCa(cn, true)) == RevokeCaStep(s, cn, true)
  {
    hide Listed, RewriteCrl;
    var id, root := GenByCn(s.db.gens, cn).value, ActiveOf(s.db.gens, ROOT).value;
    assert MayBeRevoked(s, id, cn) && IsRoot(s, root);
    RewritingLists(s, s.db.gens[root].slug, LoadCaCert(s.files, s.db.gens[id].slug).value.fp);
    assert RevokesUnder(s, RevokeCaStep(s, cn, true), id, root);
  }

  /** A leaf is revoked by serial exactly while it is known, not revoked and not expired; its issuer's files are always there. */
  lemma RevocableExactlyWhen(s: State, fp: nat, committed: bool)
    requires Reachable(s)
    ensures Enabled(s, Revoke(fp, committed)) <==>
              fp in s.db.certs && s.db.certs[fp].kind.Leaf? && fp !in s.db.revoked && s.now < s.db.certs[fp].notAfter
  {
    hide Reachable, Inv, Revocable, NamesDistinct;
    InvNames(s);
    RevocableMeans(s, fp);
    if fp in s.db.certs && s.db.certs[fp].kind.Leaf? {
      IssuerHasCrl(s, fp);
      var fp' := FilesMatchTheIndex(s, s.h.origin[fp]);
      SignerIsNamed(s, fp);
      assert Publishes(s, s.h.origin[fp], s.db.certs[fp].issuerCn);
    }
  }

  lemma InvNames(s: State)
    requires Reachable(s)
    ensures NamesDistinct(s.db.gens)
  {
    hide Reachable, TablesInv, Published, ThreadsHold;
    ReachableInv(s);
    TablesParts(s);
  }

  lemma SignerIsNamed(s: State, fp: nat)
    requires fp in s.db.certs && fp in s.h.origin && GenByCn(s.db.gens, s.db.certs[fp].issuerCn) == Some(s.h.origin[fp])
    ensures s.h.origin[fp] in s.db.gens && s.h.origin[fp].purpose != ROOT
    ensures s.db.gens[s.h.origin[fp]].cn == s.db.certs[fp].issuerCn
  {
  }

  /** A completed revocation marks that row alone and lists it on the CRL of the generation that issued it. */
  lemma RevocationTakesEffect(s: State, fp: nat) returns (id: GenId)
    requires Reachable(s) && fp in s.db.certs && s.db.certs[fp].kind.Leaf? && fp !in s.db.revoked
    requires s.now < s.db.certs[fp].notAfter
    ensures var s' := Next(s, Revoke(fp, true));
            && id in s.db.gens && s.db.gens[id].cn == s.db.certs[fp].issuerCn && id.purpose != ROOT
            && s'.db == s.db.(revoked := s.db.revoked + {fp})
            && Listed(s, s'.files, s.db.gens[id].slug, fp)
            && OnCurrentCrl(s', fp)
  {
    hide Reachable, Listed, OnCurrentCrl;
    RevocableExactlyWhen(s, fp, true);
    IssuerHasCrl(s, fp);
    SignerIsNamed(s, fp);
    id := s.h.origin[fp];
    RewritingLists(s, s.db.gens[id].slug, fp);
    hide RewriteCrl;
    assert Next(s, Revoke(fp, true)) == RevokeStep(s, fp, s.db.gens[id].slug, true);
    LandsExactlyWhen(s, fp, fp);
  }

  // ---------------------------------------------------------------- revoking a generation

  /** A generation is revoked by name exactly once a successor has retired it. */
  lemma CaRevocableExactlyWhen(s: State, cn: string, committed: bool)
    requires Reachable(s)
    ensures Enabled(s, RevokeCa(cn, committed)) <==>
              exists id :: id in s.db.gens && id.purpose != ROOT && s.db.gens[id].cn == cn && s.db.gens[id].status == Retiring
  {
    hide Reachable, Inv, CaRevocable, NamesDistinct;
    if id :| id in s.db.gens && id.purpose != ROOT && s.db.gens[id].cn == cn && s.db.gens[id].status == Retiring {
      RetiredIsRevocable(s, id);
      SameForBoth(s, cn);
    }
    if CaRevocable(s, cn) {
      var id := RevocableIsRetired(s, cn);
    }
  }

  lemma SameForBoth(s: State, cn: string)
    ensures Enabled(s, RevokeCa(cn, true)) <==> CaRevocable(s, cn)
    ensures Enabled(s, RevokeCa(cn, false)) <==> CaRevocable(s, cn)
  {
  }

  lemma RevocableIsRetired(s: State, cn: string) returns (id: GenId)
    requires Reachable(s) && CaRevocable(s, cn)
    ensures id in s.db.gens && id.purpose != ROOT && s.db.gens[id].cn == cn && s.db.gens[id].status == Retiring
  {
    hide Reachable, Inv;
    id := GenByCn(s.db.gens, cn).value;
    if s.db.gens[id].status == Active { OnlyActive(s, id); }
    if s.db.gens[id].status == Revoked { RevokedIsMarked(s, id); }
  }

  lemma RevokedIsMarked(s: State, id: GenId)
    requires Reachable(s) && id in s.db.gens && s.db.gens[id].status == Revoked
    ensures LoadCaCert(s.files, s.db.gens[id].slug).Some?
    ensures LoadCaCert(s.files, s.db.gens[id].slug).value.fp in s.db.revoked
  {
    hide Reachable, ThreadsHold, Lineage, Slugged, PrefixesApart, NamesDistinct, Owns, Origins, KeysDistinct;
    ReachableInv(s);
    TablesParts(s);
    hide TablesInv;
    assert IsPublished(s.db, s.files, s.h.own, id);
  }

  /** A completed revocation of a generation marks it and its certificate and lists that on the root's CRL. */
  lemma CaRevocationTakesEffect(s: State, id: GenId) returns (fp: nat, root: GenId)
    requires Reachable(s) && id in s.db.gens && id.purpose != ROOT && s.db.gens[id].status == Retiring
    ensures var s' := Next(s, RevokeCa(s.db.gens[id].cn, true));
            && fp in s.db.certs && s.db.certs[fp].kind == SigningCa && s.db.certs[fp].cn == s.db.gens[id].cn
            && root in s.db.gens && root.purpose == ROOT && s.db.gens[root].status == Active
            && s'.db == s.db.(revoked := s.db.revoked + {fp}, gens := s.db.gens[id := s.db.gens[id].(status := Revoked)])
            && Listed(s, s'.files, s.db.gens[root].slug, fp)
  {
    hide Reachable, Inv, Listed;
    RetiredIsRevocable(s, id);
    fp := FilesMatchTheIndex(s, id);
    root := ROOT_ID;
    RootIsActiveOne(s);
    CrlIsThere(s, root);
    RewritingLists(s, s.db.gens[root].slug, fp);
    hide RewriteCrl;
    assert Next(s, RevokeCa(s.db.gens[id].cn, true)) == RevokeCaStep(s, s.db.gens[id].cn, true);
  }

  lemma RootIsActiveOne(s: State)
    requires Reachable(s)
    ensures ROOT_ID in s.db.gens && ActiveOf(s.db.gens, ROOT) == Some(ROOT_ID) && s.db.gens[ROOT_ID].status == Active
  {
    hide Reachable, TablesInv, Published, ThreadsHold;
    ReachableInv(s);
    TablesParts(s);
    RootIsOne(s);
  }

  // ---------------------------------------------------------------- ceremonies

  /**
   The certificate a ceremony at this moment makes for a name: signed by the active
   root as published, valid from now for the given life, under the new key.
   */
  ghost predicate IsNewCa(c: Cert, s: State, purpose: string, cn: string, life: nat, ski: nat) {
    && c.cn == cn && c.kind == SigningCa && c.purpose == purpose && c.ski == ski
    && c.notBefore == s.now && c.notAfter == s.now + life
    && exists root :: SignedByRoot(c, s, root)
  }

  predicate SignedByRoot(c: Cert, s: State, root: GenId) {
    && root in s.db.gens && root.purpose == ROOT && s.db.gens[root].status == Active && s.db.gens[root].slug in s.files
    && s.files[s.db.gens[root].slug].pem.Some?
    && c.issuerCn == s.files[s.db.gens[root].slug].pem.value.cert.cn && c.aki == s.files[s.db.gens[root].slug].pem.value.cert.ski
  }

  /** The store after a completed ceremony for generation `id`: that one active with its certificate and three files, its CA's last one retired. */
  ghost predicate Rotated(s: State, s': State, id: GenId, cn: string, prefix: string, life: nat, ski: nat) {
    && s'.db.gens.Keys == s.db.gens.Keys + {id}
    && s'.db.gens[id].cn == cn && s'.db.gens[id].status == Active && s'.db.gens[id].slug == prefix + Config.Decimal(id.gen)
    && (forall g :: g in s.db.gens && g != id ==>
          s'.db.gens[g] == s.db.gens[g].(status := if g.purpose == id.purpose && s.db.gens[g].status == Active then Retiring
                                                   else s.db.gens[g].status))
    && s.nextFp in s'.db.certs && s'.db.certs == s.db.certs[s.nextFp := s'.db.certs[s.nextFp]] && s'.nextFp == s.nextFp + 1
    && IsNewCa(s'.db.certs[s.nextFp], s, id.purpose, cn, life, ski)
    && s'.db.revoked == s.db.revoked && s'.db.prefixes == s.db.prefixes[id.purpose := prefix]
    && s'.files.Keys == s.files.Keys + {s'.db.gens[id].slug}
    && s'.files[s'.db.gens[id].slug] == Artifacts(Some(Stored(s.nextFp, s'.db.certs[s.nextFp])),
                                                  Some(Stored(s.nextFp, s'.db.certs[s.nextFp])), [Crl(1, s.now, [])])
    && (forall slug :: slug in s.files && slug != s'.db.gens[id].slug ==> s'.files[slug] == s.files[slug])
    && s'.now == s.now && s'.threads == s.threads
  }

  lemma RootCertIs(s: State) returns (fp: nat)
    requires Reachable(s)
    ensures ROOT_ID in s.db.gens && s.db.gens[ROOT_ID].status == Active && fp in s.db.certs
    ensures s.db.certs[fp].kind == RootCa && s.db.certs[fp].cn == s.db.gens[ROOT_ID].cn
    ensures RootCert(s) == Some(Stored(fp, s.db.certs[fp]))
  {
    hide Reachable, Inv;
    RootIsActiveOne(s);
    fp := FilesMatchTheIndex(s, ROOT_ID);
  }

  lemma CeremonyRotates(s: State, id: GenId, cn: string, prefix: string, c: Ceremony)
    requires c.committed && c.written == 3 && RootCert(s).Some?
    ensures Rotated(s, CeremonyStep(s, id, cn, prefix, c), id, cn, prefix, c.life, c.ski)
  {
    hide WithGeneration, MintFiles, IsNewCa;
    var s', slug := CeremonyStep(s, id, cn, prefix, c), Config.Slug(prefix, id.gen);
    var cert := Minted(s, RootCert(s).value, id.purpose, cn, c);
    NewCaIs(s, cert.cert, id.purpose, cn, c);
    GenerationAdded(s.db, id, cn, slug, cert);
    FilesMinted(s.files, slug, cert, s.now);
  }

  lemma NewCaIs(s: State, c: Cert, purpose: string, cn: string, m: Ceremony)
    requires RootCert(s).Some? && c == Minted(s, RootCert(s).value, purpose, cn, m).cert
    ensures IsNewCa(c, s, purpose, cn, m.life, m.ski)
  {
    assert SignedByRoot(c, s, ActiveOf(s.db.gens, ROOT).value);
  }

  lemma GenerationAdded(db: Db, id: GenId, cn: string, slug: string, c: Stored)
    ensures var after := WithGeneration(db, id, cn, slug, c);
            && after.gens.Keys == db.gens.Keys + {id} && after.gens[id] == Gen(cn, slug, Active)
            && (forall g :: g in db.gens && g != id ==>
                  after.gens[g] == db.gens[g].(status := if g.purpose == id.purpose && db.gens[g].status == Active then Retiring
                                                         else db.gens[g].status))
            && after.certs == db.certs[c.fp := c.cert] && after.revoked == db.revoked && after.prefixes == db.prefixes
  {
  }

  lemma FilesMinted(files: Files, slug: string, c: Stored, now: int)
    ensures MintFiles(files, slug, c, now, 3) == files[slug := Artifacts(Some(c), Some(c), [Crl(1, now, [])])]
  {
  }

  /** In every run that root is the indexed one, under its generation's name. */
  lemma NewCaNamesTheRoot(s: State, c: Cert, purpose: string, cn: string, life: nat, ski: nat) returns (fp: nat)
    requires Reachable(s) && IsNewCa(c, s, purpose, cn, life, ski)
    ensures fp in s.db.certs && s.db.certs[fp].kind == RootCa && c.issuerCn == s.db.certs[fp].cn && c.aki == s.db.certs[fp].ski
    ensures exists root :: root in s.db.gens && root.purpose == ROOT && s.db.gens[root].status == Active && s.db.gens[root].cn == c.issuerCn
  {
    hide Reachable;
    var root :| SignedByRoot(c, s, root);
    fp := FilesMatchTheIndex(s, root);
  }

  /** A renewal is accepted exactly for a locked CA and a name no generation bears. */
  lemma RenewableExactlyWhen(s: State, purpose: string, cn: string, c: Ceremony)
    requires Reachable(s)
    ensures Enabled(s, Renew(purpose, cn, c)) <==>
              && purpose != ROOT && purpose in s.db.prefixes && cn != "" && (forall g :: g in s.db.gens ==> s.db.gens[g].cn != cn)
              && c.written <= 3 && (c.committed ==> c.written == 3) && (forall fp :: fp in s.db.certs ==> s.db.certs[fp].ski != c.ski)
  {
    hide Reachable, ActiveOf, RootCert;
    if purpose != ROOT && purpose in s.db.prefixes && cn != "" && !CnIsTaken(s.db.gens, cn) && Proper(c)
       && FreshKey(s.db.certs, c.ski) {
      RenewIsEnabled(s, purpose, cn, c);
    }
  }

  /** A completed renewal rotates to the number after the active one, and a refresh takes the new generation up. */
  lemma RenewalTakesEffect(s: State, purpose: string, cn: string, c: Ceremony) returns (n: nat)
    requires Reachable(s) && Enabled(s, Renew(purpose, cn, c)) && c.committed
    ensures GenId(purpose, n) in s.db.gens && s.db.gens[GenId(purpose, n)].status == Active && purpose in s.db.prefixes
    ensures Rotated(s, Next(s, Renew(purpose, cn, c)), GenId(purpose, n + 1), cn, s.db.prefixes[purpose], c.life, c.ski)
    ensures c.life > 0 ==> GenId(purpose, n + 1) in Jobs(Next(s, Renew(purpose, cn, c)), SigningScope)
    ensures forall m: nat :: GenId(purpose, m) in s.db.gens <==> 1 <= m <= n
  {
    hide Reachable, Inv, Rotated, CeremonyStep, FreshKey, CnIsTaken, Jobs;
    assert purpose in s.db.prefixes && purpose != ROOT;
    n := GenerationsAreNumbered(s, purpose);
    CeremonyRotates(s, GenId(purpose, n + 1), cn, s.db.prefixes[purpose], c);
    var s' := Next(s, Renew(purpose, cn, c));
    assert s' == CeremonyStep(s, GenId(purpose, n + 1), cn, s.db.prefixes[purpose], c);
    hide Next, Enabled;
    StepIsReachable(s, Renew(purpose, cn, c));
    NewIsAJob(s, s', GenId(purpose, n + 1), cn, s.db.prefixes[purpose], c);
  }

  lemma NewIsAJob(s: State, s': State, id: GenId, cn: string, prefix: string, c: Ceremony)
    requires Reachable(s') && Rotated(s, s', id, cn, prefix, c.life, c.ski) && id.purpose != ROOT
    ensures id in s'.db.gens && (c.life > 0 ==> id in Jobs(s', SigningScope))
  {
    hide Reachable;
    JobUnlessOver(s', SigningScope, id);
  }

  /** A CA is added exactly for a section the store has not locked, a name no generation bears, and a prefix apart from the locked ones. */
  lemma AddableExactlyWhen(s: State, purpose: string, cn: string, prefix: string, c: Ceremony)
    requires Reachable(s)
    ensures Enabled(s, Add(purpose, cn, prefix, c)) <==>
              && purpose !in s.db.prefixes && cn != "" && (forall g :: g in s.db.gens ==> s.db.gens[g].cn != cn)
              && (forall p :: p in s.db.prefixes ==> Apart(s.db.prefixes[p], prefix))
              && c.written <= 3 && (c.committed ==> c.written == 3) && (forall fp :: fp in s.db.certs ==> s.db.certs[fp].ski != c.ski)
  {
    hide Reachable, ActiveOf, Apart;
    var root := RootCertIs(s);
    hide RootCert;
  }

  lemma AdditionTakesEffect(s: State, purpose: string, cn: string, prefix: string, c: Ceremony)
    requires Reachable(s) && Enabled(s, Add(purpose, cn, prefix, c)) && c.committed
    ensures Rotated(s, Next(s, Add(purpose, cn, prefix, c)), GenId(purpose, 1), cn, prefix, c.life, c.ski)
    ensures c.life > 0 ==> GenId(purpose, 1) in Jobs(Next(s, Add(purpose, cn, prefix, c)), SigningScope)
  {
    hide Reachable, Inv, Rotated, CeremonyStep, FreshKey, CnIsTaken, Jobs, Apart;
    CeremonyRotates(s, GenId(purpose, 1), cn, prefix, c);
    RootIsLocked(s);
    assert purpose != ROOT;
    var s' := Next(s, Add(purpose, cn, prefix, c));
    assert s' == CeremonyStep(s, GenId(purpose, 1), cn, prefix, c);
    hide Next, Enabled;
    StepIsReachable(s, Add(purpose, cn, prefix, c));
    NewIsAJob(s, s', GenId(purpose, 1), cn, prefix, c);
  }

  // ---------------------------------------------------------------- refresh

  /** The next CRL, dated `now`, with the entries not yet due to go. */
  ghost predicate Reissued(db: Db, a: Artifacts, after: Artifacts, now: int) {
    && a.crls != [] && after.pem == a.pem && after.crt == a.crt && |after.crls| == |a.crls| + 1 && a.crls <= after.crls
    && var prev, last := a.crls[|a.crls| - 1], after.crls[|a.crls|];
       && last.number == prev.number + 1 && last.thisUpdate == now
       && forall x :: x in last.entries <==>
            x in prev.entries && !(x in db.revoked && x in db.certs && db.certs[x].notAfter < prev.thisUpdate)
  }

  lemma AppendingReissues(db: Db, a: Artifacts, now: int)
    requires a.crls != []
    ensures Reissued(db, a, AppendCrl(db, a, now, []), now)
  {
    var prev := a.crls[|a.crls| - 1];
    forall x ensures x in NextCrl(db, prev, now, []).entries <==> x in prev.entries && !Prunable(db, x, prev.thisUpdate) {
      NextEntries(db, prev, now, [], x);
    }
    var last := NextCrl(db, prev, now, []);
    assert last.number == prev.number + 1 && last.thisUpdate == now;
    hide NextCrl;
  }

  /** A refresh reissues the CRLs of its jobs and touches nothing else. */
  ghost predicate Refreshes(s: State, s': State, jobs: set<GenId>) {
    && s' == s.(files := s'.files) && s'.files.Keys == s.files.Keys
    && forall slug :: slug in s.files ==>
         if exists id :: id in jobs && id in s.db.gens && s.db.gens[id].slug == slug
         then Reissued(s.db, s.files[slug], s'.files[slug], s.now) else s'.files[slug] == s.files[slug]
  }

  lemma RefreshMeans(s: State, jobs: set<GenId>)
    requires Rewritable(s, jobs)
    ensures Refreshes(s, RefreshStep(s, jobs), jobs)
  {
    hide Reissued, AppendCrl;
    forall slug | slug in s.files && s.files[slug].crls != []
      ensures Reissued(s.db, s.files[slug], AppendCrl(s.db, s.files[slug], s.now, []), s.now)
    {
      AppendingReissues(s.db, s.files[slug], s.now);
    }
  }

  // ---------------------------------------------------------------- the first ceremony

  /** A first certificate: signed by the root and valid from now for its section's life. */
  predicate IsFirst(c: Cert, sections: map<string, Section>, p: string, now: int)
    requires p in sections && ROOT in sections
  {
    && c.cn == sections[p].cn && c.kind == (if p == ROOT then RootCa else SigningCa) && c.purpose == p
    && c.issuerCn == sections[ROOT].cn && c.notBefore == now && c.notAfter == now + sections[p].life
    && c.ski == sections[p].fp && c.aki == sections[ROOT].fp
  }

  lemma FirstDbMeans(sections: map<string, Section>, now: int, p: string)
    requires Accepted(sections) && p in sections
    ensures var db := FirstDb(sections, now);
            && sections[p].fp in db.certs && IsFirst(db.certs[sections[p].fp], sections, p, now) && db.revoked == {}
            && GenId(p, 1) in db.gens && db.gens[GenId(p, 1)] == Gen(sections[p].cn, sections[p].prefix + Config.Decimal(1), Active)
            && p in db.prefixes && db.prefixes[p] == sections[p].prefix
            && (forall id :: id in db.gens <==> id.purpose in sections && id.gen == 1)
  {
    hide Apart, Config.Decimal;
  }

  lemma FirstFilesMean(sections: map<string, Section>, now: int, p: string)
    requires Accepted(sections) && p in sections
    ensures var slug, files := sections[p].prefix + Config.Decimal(1), FirstFiles(sections, now);
            && FirstDb(sections, now).certs[sections[p].fp] == FirstCert(sections, p, now).cert
            && slug in files && files[slug].crt == files[slug].pem == Some(Stored(sections[p].fp, FirstCert(sections, p, now).cert))
            && files[slug].crls == [Crl(1, now, [])]
  {
    hide Apart, Config.Decimal;
    FirstSlugsDiffer(sections);
    assert FirstSlug(sections, p) == sections[p].prefix + Config.Decimal(1);
    hide FirstSlug, FirstCert;
  }

  /** The store `init` leaves, section by section: an active generation 1 with its certificate, two copies of it, and an empty CRL. */
  lemma InitMeans(sections: map<string, Section>, now: int, nextFp: nat, p: string)
    requires Accepted(sections) && p in sections
    ensures var s := Init(sections, now, nextFp);
            var fp, slug := sections[p].fp, sections[p].prefix + Config.Decimal(1);
            && s.now == now && s.threads == map[] && s.db.revoked == {}
            && fp in s.db.certs && IsFirst(s.db.certs[fp], sections, p, now)
            && GenId(p, 1) in s.db.gens && s.db.gens[GenId(p, 1)] == Gen(sections[p].cn, slug, Active)
            && p in s.db.prefixes && s.db.prefixes[p] == sections[p].prefix
            && slug in s.files && s.files[slug].crt == s.files[slug].pem == Some(Stored(fp, s.db.certs[fp]))
            && s.files[slug].crls == [Crl(1, now, [])]
            && (forall id :: id in s.db.gens <==> id.purpose in sections && id.gen == 1)
  {
    hide Accepted, FirstDb, FirstFiles, FirstHistory, FirstCert, Config.Decimal;
    FirstDbMeans(sections, now, p);
    FirstFilesMean(sections, now, p);
  }

  // ---------------------------------------------------------------- dates of certificates

  ghost predicate Dated(certs: map<nat, Cert>) {
    forall fp :: fp in certs ==> certs[fp].notBefore <= certs[fp].notAfter
  }

  lemma {:induction false} CertsAreDatedIn(s: State, steps: nat)
    requires ReachableIn(s, steps)
    ensures Dated(s.db.certs)
    decreases steps
  {
    hide Next;
    if steps == 0 {
      FirstAreDated(s);
    } else {
      hide Initial, Dated;
      var before: State, e: Event :| ReachableIn(before, steps - 1) && s == Next(before, e);
      CertsAreDatedIn(before, steps - 1);
      StepKeepsDates(before, e);
    }
  }

  lemma FirstAreDated(s: State)
    requires Initial(s)
    ensures Dated(s.db.certs)
  {
    hide FirstFiles, FirstHistory, Apart, Config.Slug, PurposeIds;
  }

  lemma StepKeepsDates(s: State, e: Event)
    requires Dated(s.db.certs)
    ensures Dated(Next(s, e).db.certs)
  {
    if Enabled(s, e) {
      StepWrites(s, e);
      WritesDated(s, e);
      hide Next, Enabled, WriteOf;
    }
  }

  lemma WritesDated(s: State, e: Event)
    requires Dated(s.db.certs) && Enabled(s, e)
    ensures Dated(ApplyDb(s.db, WriteOf(s, e)).certs)
  {
    hide Config.Slug, CnIsTaken, FreshKey, LeafKey, Apart;
  }

  /** In every run no certificate ends before it begins. */
  lemma CertsAreDated(s: State, fp: nat)
    requires Reachable(s) && fp in s.db.certs
    ensures s.db.certs[fp].notBefore <= s.db.certs[fp].notAfter
  {
    hide ReachableIn;
    var steps: nat :| ReachableIn(s, steps);
    CertsAreDatedIn(s, steps);
  }
}
