/**
 The commands as the program runs them: rows and files updated in place, in the
 order of the source. Nobody interrupts these runs; each leaves the store as the
 completed step of the state machine does.
 */
module CaCommands {
  import opened Strings
  import opened CaStore
  import opened CaLineage
  import opened CaCrl
  import opened CaOutcomes
  import Config

  ghost predicate SlugsDistinct(gens: map<GenId, Gen>) {
    forall a, b :: a in gens && b in gens && gens[a].slug == gens[b].slug ==> a == b
  }

  /** Every reachable store meets what the commands rely on. */
  lemma ReachableIsSearchable(s: State)
    requires Reachable(s)
    ensures Searchable(s.db.gens) && SlugsDistinct(s.db.gens)
  {
    hide Reachable, Inv, TablesInv;
    ReachableInv(s);
    InvIsTables(s);
    TablesParts(s);
    forall a, b | a in s.db.gens && b in s.db.gens && s.db.gens[a].slug == s.db.gens[b].slug ensures a == b {
      SlugIsItsOwn(s.db, a, b);
    }
    hide Slugged, PrefixesApart, NamesDistinct, Owns, Origins, KeysDistinct, StatusesMatch;
  }

  /**
   `add` leaves the published certificates of every generation alone exactly when
   none of them has the new section's slug; an accepted file that repeats the
   locked sections has no such section.
   */
  lemma AddSparesFilesExactlyWhen(s: State, purpose: string, cn: string, prefix: string, c: Ceremony)
    requires Reachable(s) && AddPasses(s, purpose, cn, c) && c.committed
    ensures (forall id :: id in s.db.gens ==>
               LoadCaCert(AddStep(s, purpose, cn, prefix, c).files, s.db.gens[id].slug) == LoadCaCert(s.files, s.db.gens[id].slug))
       <==> forall id :: id in s.db.gens ==> s.db.gens[id].slug != Config.Slug(prefix, 1)
    ensures Addable(s, purpose, cn, prefix, c) ==> forall id :: id in s.db.gens ==> s.db.gens[id].slug != Config.Slug(prefix, 1)
  {
    hide Reachable, Addable, Config.Slug, CnIsTaken, RootCert;
    forall id | id in s.db.gens
      ensures LoadCaCert(s.files, s.db.gens[id].slug).Some? && LoadCaCert(s.files, s.db.gens[id].slug).value.fp < s.nextFp
    {
      PublishedIsOlder(s, id);
    }
    if Addable(s, purpose, cn, prefix, c) { AddedSlugIsFree(s, purpose, cn, prefix, c); }
  }

  lemma PublishedIsOlder(s: State, id: GenId)
    requires Reachable(s) && id in s.db.gens
    ensures LoadCaCert(s.files, s.db.gens[id].slug).Some? && LoadCaCert(s.files, s.db.gens[id].slug).value.fp < s.nextFp
  {
    hide Reachable, Inv, Placed;
    var fp := FilesMatchTheIndex(s, id);
    ReachableInv(s);
    InvParts(s, id);
  }

  lemma AddedSlugIsFree(s: State, purpose: string, cn: string, prefix: string, c: Ceremony)
    requires Reachable(s) && Addable(s, purpose, cn, prefix, c)
    ensures forall id :: id in s.db.gens ==> s.db.gens[id].slug != Config.Slug(prefix, 1)
  {
    hide Reachable, TablesInv, CnIsTaken, RootCert, FreshKey, Config.Slug;
    ReachableInv(s);
    InvIsTables(s);
    TablesParts(s);
    hide Inv;
    forall id | id in s.db.gens ensures s.db.gens[id].slug != Config.Slug(prefix, 1) {
      if s.db.gens[id].slug == Config.Slug(prefix, 1) { SlugTells(s.db.prefixes[id.purpose], id.gen, prefix, 1); }
    }
  }

  lemma InvIsTables(s: State)
    requires Inv(s)
    ensures TablesInv(s)
  {
  }

  class Store {
    var gens: map<GenId, Gen>
    var certs: map<nat, Cert>
    var revoked: set<nat>
    var prefixes: map<string, string>
    var files: Files
    var nextFp: nat
    ghost var h: History

    function Tables(): Db
      reads this
    {
      Db(gens, certs, revoked, prefixes)
    }

    ghost function View(now: int): State
      reads this
    {
      State(Tables(), files, map[], now, nextFp, h)
    }

    constructor (s: State)
      ensures View(s.now) == s.(threads := map[])
    {
      gens, certs, revoked, prefixes := s.db.gens, s.db.certs, s.db.revoked, s.db.prefixes;
      files, nextFp := s.files, s.nextFp;
      h := s.h;
    }

    // -------------------------------------------------------------- queries

    method FindByCn(cn: string) returns (r: Option<GenId>)
      requires Searchable(gens)
      ensures r == GenByCn(gens, cn)
    {
      r := None;
      var rest := gens.Keys;
      while rest != {}
        invariant rest <= gens.Keys
        invariant r.Some? ==> r.value in gens && r.value.purpose != ROOT && gens[r.value].cn == cn
        invariant r.None? ==> forall id :: id in gens && id !in rest && id.purpose != ROOT ==> gens[id].cn != cn
        decreases rest
      {
        var id :| id in rest;
        rest := rest - {id};
        if id.purpose != ROOT && gens[id].cn == cn { r := Some(id); }
      }
    }

    method FindActive(purpose: string) returns (r: Option<GenId>)
      requires Searchable(gens)
      ensures r == ActiveOf(gens, purpose)
    {
      r := None;
      var rest := gens.Keys;
      while rest != {}
        invariant rest <= gens.Keys
        invariant r.Some? ==> r.value in gens && r.value.purpose == purpose && gens[r.value].status == Active
        invariant r.None? ==> forall id :: id in gens && id !in rest && id.purpose == purpose ==> gens[id].status != Active
        decreases rest
      {
        var id :| id in rest;
        rest := rest - {id};
        if id.purpose == purpose && gens[id].status == Active { r := Some(id); }
      }
    }

    // -------------------------------------------------------------- CRLs

    /** One query collects the prunable serials; the entries are then copied in order. */
    method PruneCrlEntries(entries: seq<nat>, thisUpdate: int) returns (kept: seq<nat>)
      ensures kept == Prune(Tables(), entries, thisUpdate)
      ensures forall fp :: fp in kept <==> fp in entries && !(fp in revoked && fp in certs && certs[fp].notAfter < thisUpdate)
    {
      forall fp ensures fp in Prune(Tables(), entries, thisUpdate) <==> fp in entries && !Prunable(Tables(), fp, thisUpdate) {
        PruneKeeps(Tables(), entries, thisUpdate, fp);
      }
      var prunable := set fp | fp in revoked && fp in certs && certs[fp].notAfter < thisUpdate;
      kept := [];
      for i := 0 to |entries|
        invariant kept == Prune(Tables(), entries[..i], thisUpdate)
      {
        assert entries[..i + 1][..i] == entries[..i];
        if entries[i] !in prunable { kept := kept + [entries[i]]; }
      }
      assert entries[..|entries|] == entries;
    }

    /** Reads the CRL, prunes it, and renames its successor into place. */
    method ReissueCrl(slug: string, added: seq<nat>, now: int)
      requires HasCrl(files, slug)
      modifies this`files
      ensures files == RewriteCrl(Tables(), old(files), slug, now, added)
      ensures var prev := old(files)[slug].crls[|old(files)[slug].crls| - 1];
              exists kept :: files == old(files)[slug := old(files)[slug].(crls := old(files)[slug].crls + [Crl(prev.number + 1, now, kept + added)])]
                && forall fp :: fp in kept <==> fp in prev.entries && !(fp in revoked && fp in certs && certs[fp].notAfter < prev.thisUpdate)
    {
      var a := files[slug];
      var prev := a.crls[|a.crls| - 1];
      var kept := PruneCrlEntries(prev.entries, prev.thisUpdate);
      files := files[slug := a.(crls := a.crls + [Crl(prev.number + 1, now, kept + added)])];
    }

    // -------------------------------------------------------------- revocation

    method Revoke(fp: nat, now: int) returns (ok: bool)
      requires Searchable(gens)
      modifies this
      ensures ok <==> old(Revocable(View(now), fp))
      ensures !ok ==> View(now) == old(View(now))
      ensures ok ==> View(now) == old(Next(View(now), CaStore.Revoke(fp, true)))
      ensures ok <==>
                && fp in old(certs) && old(certs)[fp].kind.Leaf? && fp !in old(revoked) && now < old(certs)[fp].notAfter
                && exists id :: old(Publishes(View(now), id, certs[fp].issuerCn))
      ensures ok ==> RevokesLeaf(old(View(now)), View(now), fp)
    {
      RevocableMeans(View(now), fp);
      if fp !in certs || !certs[fp].kind.Leaf? || fp in revoked || certs[fp].notAfter <= now { return false; }
      var issuing := FindByCn(certs[fp].issuerCn);
      if issuing.None? { return false; }
      var slug := gens[issuing.value].slug;
      if slug !in files || files[slug].pem.None? || files[slug].crls == [] { return false; }
      ghost var k := |files[slug].crls|;
      RevokeMeans(View(now), fp);
      hide RevokesLeaf, Publishes;
      ReissueCrl(slug, [fp], now);
      revoked := revoked + {fp};
      h := h.(firsts := if fp in h.firsts then h.firsts else h.firsts[fp := k], commits := h.commits[fp := k]);
      ok := true;
    }

    method RevokeCa(cn: string, now: int) returns (ok: bool)
      requires Searchable(gens)
      modifies this
      ensures ok <==> old(CaRevocable(View(now), cn))
      ensures !ok ==> View(now) == old(View(now))
      ensures ok ==> View(now) == old(Next(View(now), CaStore.RevokeCa(cn, true)))
      ensures ok <==> old(SomeMayBeRevoked(View(now), cn))
      ensures ok ==> RevokesCa(old(View(now)), View(now), cn)
    {
      CaRevocableMeans(View(now), cn);
      if CaRevocable(View(now), cn) { RevokeCaMeans(View(now), cn); }
      hide RevokesCa, SomeMayBeRevoked, Searchable, Next, RewriteCrl;
      var found := FindRevocable(cn, now);
      if found.None? { return false; }
      var (victim, root) := found.value;
      hide CaRevocable;
      var fp, slug := files[gens[victim].slug].pem.value.fp, gens[root].slug;
      ghost var k := |files[slug].crls|;
      ReissueCrl(slug, [fp], now);
      revoked := revoked + {fp};
      gens := gens[victim := gens[victim].(status := Revoked)];
      h := h.(firsts := if fp in h.firsts then h.firsts else h.firsts[fp := k], commits := h.commits[fp := k]);
      ok := true;
    }

    /** The generation of that name and the root that signs its revocation, once every check has passed. */
    method FindRevocable(cn: string, now: int) returns (r: Option<(GenId, GenId)>)
      requires Searchable(gens)
      ensures r.Some? <==> CaRevocable(View(now), cn)
      ensures r.Some? ==> GenByCn(gens, cn) == Some(r.value.0) && ActiveOf(gens, ROOT) == Some(r.value.1)
    {
      hide Searchable;
      var root := FindActive(ROOT);
      if root.None? || cn == gens[root.value].cn { return None; }
      var victim := FindByCn(cn);
      if victim.None? { return None; }
      var active := FindActive(victim.value.purpose);
      if active == victim { return None; }
      var pem, rootPem := LoadCaCert(files, gens[victim.value].slug), LoadCaCert(files, gens[root.value].slug);
      if pem.None? || rootPem.None? || pem.value.fp in revoked || !HasCrl(files, gens[root.value].slug) { return None; }
      r := Some((victim.value, root.value));
    }

    // -------------------------------------------------------------- rotation

    /** The certificate as PEM, the certificate as DER, an empty CRL, in that order. */
    method WriteCaArtifacts(slug: string, c: Stored, now: int)
      modifies this`files
      ensures files == MintFiles(old(files), slug, c, now, 3)
      ensures files == old(files)[slug := Artifacts(Some(c), Some(c), [Crl(1, now, [])])]
    {
      var a := if slug in files then files[slug] else Artifacts(None, None, []);
      files := files[slug := a.(pem := Some(c))];
      files := files[slug := files[slug].(crt := Some(c))];
      files := files[slug := files[slug].(crls := [Crl(1, now, [])])];
    }

    /** The transaction of a ceremony: the certificate, the incumbent's retirement, the new generation. */
    method RecordGeneration(id: GenId, cn: string, prefix: string, c: Stored)
      modifies this`certs, this`gens, this`prefixes, this`h
      ensures Tables() == WithGeneration(old(Tables()), id, cn, Config.Slug(prefix, id.gen), c)
                          .(prefixes := old(prefixes)[id.purpose := prefix])
      ensures gens.Keys == old(gens).Keys + {id} && gens[id] == Gen(cn, prefix + Config.Decimal(id.gen), Active)
      ensures forall g :: g in old(gens) && g != id ==>
                gens[g].cn == old(gens)[g].cn && gens[g].slug == old(gens)[g].slug
                && gens[g].status == if g.purpose == id.purpose && old(gens)[g].status == Active then Retiring else old(gens)[g].status
      ensures certs == old(certs)[c.fp := c.cert] && revoked == old(revoked) && prefixes == old(prefixes)[id.purpose := prefix]
      ensures h == old(h).(own := old(h).own[id := c.fp], origin := old(h).origin[c.fp := id],
                           tops := old(h).tops[id.purpose := id.gen])
    {
      assert Config.Slug(prefix, id.gen) == prefix + Config.Decimal(id.gen);
      hide Config.Slug;
      certs := certs[c.fp := c.cert];
      gens := map i | i in gens ::
        if i.purpose == id.purpose && gens[i].status == Active then gens[i].(status := Retiring) else gens[i];
      gens := gens[id := Gen(cn, Config.Slug(prefix, id.gen), Active)];
      prefixes := prefixes[id.purpose := prefix];
      h := h.(own := h.own[id := c.fp], origin := h.origin[c.fp := id], tops := h.tops[id.purpose := id.gen]);
    }

    /** One root ceremony: files first, then the transaction. */
    method HoldCeremony(id: GenId, cn: string, prefix: string, root: Stored, life: nat, ski: nat, now: int)
      requires RootCert(View(now)) == Some(root)
      modifies this
      ensures View(now) == old(CeremonyStep(View(now), id, cn, prefix, Ceremony(life, ski, 3, true)))
    {
      hide Config.Slug, WithGeneration, MintFiles;
      var c := Stored(nextFp, Cert(cn, SigningCa, id.purpose, root.cert.cn, now, now + life, ski, root.cert.ski));
      WriteCaArtifacts(Config.Slug(prefix, id.gen), c, now);
      nextFp := nextFp + 1;
      RecordGeneration(id, cn, prefix, c);
    }

    method FindRootCert(now: int) returns (r: Option<Stored>)
      requires Searchable(gens)
      ensures r == RootCert(View(now))
    {
      var root := FindActive(ROOT);
      r := if root.None? then None else LoadCaCert(files, gens[root.value].slug);
    }

    method RenewSigningCa(purpose: string, newCn: string, life: nat, ski: nat, now: int) returns (ok: bool)
      requires Searchable(gens) && FreshKey(certs, ski)
      modifies this
      ensures ok <==> old(Renewable(View(now), purpose, newCn, Ceremony(life, ski, 3, true)))
      ensures !ok ==> View(now) == old(View(now))
      ensures ok ==> View(now) == old(RenewStep(View(now), purpose, newCn, Ceremony(life, ski, 3, true)))
      ensures ok ==> purpose != ROOT && purpose in old(prefixes) && newCn != "" && forall g :: g in old(gens) ==> old(gens)[g].cn != newCn
      ensures ok ==> exists n: nat :: GenId(purpose, n) in old(gens) && old(gens)[GenId(purpose, n)].status == Active
                                 && Rotated(old(View(now)), View(now), GenId(purpose, n + 1), newCn, old(prefixes)[purpose], life, ski)
    {
      hide Searchable, CeremonyStep, RootCert, FreshKey, Rotated;
      if purpose == ROOT || purpose !in prefixes || newCn == "" { return false; }
      var root := FindRootCert(now);
      var incumbent := FindActive(purpose);
      var taken := CnIsTaken(gens, newCn);
      if root.None? || incumbent.None? || taken { return false; }
      CeremonyRotates(View(now), GenId(purpose, incumbent.value.gen + 1), newCn, prefixes[purpose], Ceremony(life, ski, 3, true));
      assert incumbent.value == GenId(purpose, incumbent.value.gen);
      HoldCeremony(GenId(purpose, incumbent.value.gen + 1), newCn, prefixes[purpose], root.value, life, ski, now);
      ok := true;
    }

    /** For any section of the file; nothing here compares the others with the locked ones. */
    method AddSigningCa(purpose: string, cn: string, prefix: string, life: nat, ski: nat, now: int) returns (ok: bool)
      requires Searchable(gens)
      modifies this
      ensures ok <==> old(AddPasses(View(now), purpose, cn, Ceremony(life, ski, 3, true)))
      ensures !ok ==> View(now) == old(View(now))
      ensures ok ==> View(now) == old(AddStep(View(now), purpose, cn, prefix, Ceremony(life, ski, 3, true)))
      ensures ok ==> purpose !in old(prefixes) && forall g :: g in old(gens) ==> old(gens)[g].cn != cn
      ensures ok ==> Rotated(old(View(now)), View(now), GenId(purpose, 1), cn, prefix, life, ski)
    {
      hide Searchable, CeremonyStep, RootCert, Rotated;
      if purpose in prefixes { return false; }
      var root := FindRootCert(now);
      var taken := CnIsTaken(gens, cn);
      if root.None? || taken { return false; }
      CeremonyRotates(View(now), GenId(purpose, 1), cn, prefix, Ceremony(life, ski, 3, true));
      HoldCeremony(GenId(purpose, 1), cn, prefix, root.value, life, ski, now);
      ok := true;
    }

    // -------------------------------------------------------------- refresh

    method CollectJobs(scope: Scope, now: int) returns (ok: bool, jobs: set<GenId>)
      ensures ok <==> Refreshable(View(now), scope)
      ensures ok ==> jobs == Jobs(View(now), scope)
      ensures ok <==> forall id ::
                        (id in gens && gens[id].status != Revoked && scope != if id.purpose == ROOT then SigningScope else RootScope) ==>
                          gens[id].slug in files && files[gens[id].slug].pem.Some? && files[gens[id].slug].crls != []
      ensures ok ==> forall id :: id in jobs <==>
                       && id in gens && gens[id].status != Revoked
                       && scope != (if id.purpose == ROOT then SigningScope else RootScope)
                       && var slug := gens[id].slug;
                          slug in files && files[slug].pem.Some? && files[slug].pem.value.cert.notAfter > now
    {
      jobs := {};
      ok := true;
      var rest := gens.Keys;
      while rest != {}
        invariant rest <= gens.Keys
        invariant ok <==> forall id :: id in gens && id !in rest && Lives(gens, id) && InScope(scope, id.purpose) ==>
                            LoadCaCert(files, gens[id].slug).Some? && HasCrl(files, gens[id].slug)
        invariant forall id :: id in jobs <==> id !in rest && id in Jobs(View(now), scope)
        decreases rest
      {
        var id :| id in rest;
        rest := rest - {id};
        if gens[id].status != Revoked && InScope(scope, id.purpose) {
          var cert := LoadCaCert(files, gens[id].slug);
          if cert.None? || !HasCrl(files, gens[id].slug) { ok := false; }
          if cert.Some? && cert.value.cert.notAfter > now { jobs := jobs + {id}; }
        }
      }
    }

    /** Every job's CRL in turn; no two jobs share a slug. */
    method ReissueAll(jobs: set<GenId>, now: int)
      requires SlugsDistinct(gens) && Rewritable(View(now), jobs)
      modifies this`files
      ensures files == old(RefreshStep(View(now), jobs)).files
    {
      hide RewriteCrl, RefreshStep, SlugsDistinct;
      ghost var s0, done: set<GenId> := View(now), {};
      RefreshIsFiles(s0, jobs);
      var rest := jobs;
      while rest != {}
        invariant done + rest == jobs && done !! rest
        invariant files == RefreshStep(s0, done).files
        decreases rest
      {
        var id :| id in rest;
        OneMoreJob(s0, done, id);
        ReissueCrl(gens[id].slug, [], now);
        done, rest := done + {id}, rest - {id};
      }
    }

    method RefreshCrls(scope: Scope, now: int) returns (ok: bool)
      requires SlugsDistinct(gens)
      modifies this`files
      ensures ok <==> old(Refreshable(View(now), scope))
      ensures !ok ==> files == old(files)
      ensures ok ==> old(Rewritable(View(now), Jobs(View(now), scope)))
      ensures ok ==> View(now) == old(RefreshStep(View(now), Jobs(View(now), scope)))
      ensures ok ==> Refreshes(old(View(now)), View(now), old(Jobs(View(now), scope)))
    {
      var jobs;
      ok, jobs := CollectJobs(scope, now);
      if ok {
        assert Rewritable(View(now), jobs);
        RefreshIsFiles(View(now), jobs);
        RefreshMeans(View(now), jobs);
        hide Refreshes, RefreshStep, Jobs, Refreshable, Rewritable, SlugsDistinct;
        ReissueAll(jobs, now);
      }
    }

    static lemma RefreshIsFiles(s: State, jobs: set<GenId>)
      requires Rewritable(s, jobs)
      ensures RefreshStep(s, jobs) == s.(files := RefreshStep(s, jobs).files)
      ensures RefreshStep(s, {}).files == s.files
    {
      hide AppendCrl;
    }

    static lemma OneMoreJob(s: State, done: set<GenId>, id: GenId)
      requires SlugsDistinct(s.db.gens) && Rewritable(s, done + {id}) && id !in done
      ensures HasCrl(RefreshStep(s, done).files, s.db.gens[id].slug)
      ensures RefreshStep(s, done + {id}).files
           == RewriteCrl(s.db, RefreshStep(s, done).files, s.db.gens[id].slug, s.now, [])
    {
      hide Prune;
      assert SlugsOf(s.db.gens, done + {id}) == SlugsOf(s.db.gens, done) + {s.db.gens[id].slug};
      assert s.db.gens[id].slug !in SlugsOf(s.db.gens, done);
    }
  }
}
