/**
 The CA store: the generations of every CA, the certificate index, and the
 published files, with the commands that change them. A ceremony or a revocation
 writes files before it commits, so each of them may stop in between. Leaf
 issuance reads its CA, and a refresh its jobs, before taking the write lock; any
 number of them may be waiting.
 */
module CaStore {
  import opened Strings
  import Config

  const ROOT: string := "root"

  datatype Status = Active | Retiring | Revoked

  /** A row of the generation index; its key is the purpose and the number. */
  datatype GenId = GenId(purpose: string, gen: nat)
  datatype Gen = Gen(cn: string, slug: string, status: Status)

  /** What a certificate is; a leaf names its profile. */
  datatype Kind = RootCa | SigningCa | Leaf(profile: string)

  /** A certificate with the columns of its index row; its serial is its fingerprint here. */
  datatype Cert = Cert(
    cn: string, kind: Kind, purpose: string, issuerCn: string, notBefore: int, notAfter: int, ski: nat, aki: nat)
  datatype Stored = Stored(fp: nat, cert: Cert)

  datatype Crl = Crl(number: nat, thisUpdate: int, entries: seq<nat>)

  /** What is published under one slug; of the CRLs, all that ever were, the current one last. */
  datatype Artifacts = Artifacts(pem: Option<Stored>, crt: Option<Stored>, crls: seq<Crl>)
  type Files = map<string, Artifacts>

  /** `revoked` are the index rows with that status; `prefixes` the locked sections. */
  datatype Db = Db(gens: map<GenId, Gen>, certs: map<nat, Cert>, revoked: set<nat>, prefixes: map<string, string>)

  /** A record of the past; no step reads it. */
  datatype History = History(
    own: map<GenId, nat>,                  // a generation's certificate
    origin: map<nat, GenId>,               // the generation a certificate is of, or was issued by
    tops: map<string, nat>,                // how many generations a purpose has had
    firsts: map<nat, nat>,                 // the first CRL that carried a certificate
    commits: map<nat, nat>)                // the CRL of its completed revocation

  /** A command between what it read and the write lock: to issue under a CA, or to refresh the CRLs it collected. */
  datatype Thread =
    | Issuing(id: GenId, signer: Stored)
    | Refreshing(scope: Scope, jobs: set<GenId>)

  datatype Scope = RootScope | SigningScope | BothScopes

  datatype State = State(db: Db, files: Files, threads: map<nat, Thread>, now: int, nextFp: nat, h: History)

  // ---------------------------------------------------------------- queries

  function KindOf(purpose: string): Kind {
    if purpose == ROOT then RootCa else SigningCa
  }

  /** The newest active generation of a purpose. */
  ghost function ActiveOf(gens: map<GenId, Gen>, purpose: string): (r: Option<GenId>)
    ensures r.Some? ==> r.value in gens && r.value.purpose == purpose && gens[r.value].status == Active
    ensures r.None? ==> forall id :: id in gens && id.purpose == purpose ==> gens[id].status != Active
  {
    if id :| id in gens && id.purpose == purpose && gens[id].status == Active then Some(id) else None
  }

  /** A signing generation of that name. */
  ghost function GenByCn(gens: map<GenId, Gen>, cn: string): (r: Option<GenId>)
    ensures r.Some? ==> r.value in gens && r.value.purpose != ROOT && gens[r.value].cn == cn
    ensures r.None? ==> forall id :: id in gens && id.purpose != ROOT ==> gens[id].cn != cn
  {
    if id :| id in gens && id.purpose != ROOT && gens[id].cn == cn then Some(id) else None
  }

  predicate CnIsTaken(gens: map<GenId, Gen>, cn: string) {
    exists id :: id in gens && gens[id].cn == cn
  }

  /** The published certificate of a slug, as later commands load it. */
  function LoadCaCert(files: Files, slug: string): Option<Stored> {
    if slug in files then files[slug].pem else None
  }

  predicate HasCrl(files: Files, slug: string) {
    slug in files && files[slug].crls != []
  }

  // ---------------------------------------------------------------- CRLs

  /** An entry past its last required appearance: `thisUpdate` is that of the CRL being replaced. */
  predicate Prunable(db: Db, fp: nat, thisUpdate: int) {
    fp in db.revoked && fp in db.certs && db.certs[fp].notAfter < thisUpdate
  }

  function Prune(db: Db, entries: seq<nat>, thisUpdate: int): seq<nat> {
    if entries == [] then [] else
      var front, last := Prune(db, entries[..|entries| - 1], thisUpdate), entries[|entries| - 1];
      if Prunable(db, last, thisUpdate) then front else front + [last]
  }

  function NextCrl(db: Db, prev: Crl, now: int, added: seq<nat>): Crl {
    Crl(prev.number + 1, now, Prune(db, prev.entries, prev.thisUpdate) + added)
  }

  function AppendCrl(db: Db, a: Artifacts, now: int, added: seq<nat>): Artifacts
    requires a.crls != []
  {
    a.(crls := a.crls + [NextCrl(db, a.crls[|a.crls| - 1], now, added)])
  }

  function RewriteCrl(db: Db, files: Files, slug: string, now: int, added: seq<nat>): Files
    requires HasCrl(files, slug)
  {
    files[slug := AppendCrl(db, files[slug], now, added)]
  }

  // ---------------------------------------------------------------- revocation

  /** `revoke` by serial: the certificate is named once and for all. */
  ghost predicate Revocable(s: State, fp: nat) {
    && fp in s.db.certs && s.db.certs[fp].kind.Leaf? && fp !in s.db.revoked && s.db.certs[fp].notAfter > s.now
    && GenByCn(s.db.gens, s.db.certs[fp].issuerCn).Some?
    && var slug := s.db.gens[GenByCn(s.db.gens, s.db.certs[fp].issuerCn).value].slug;
       LoadCaCert(s.files, slug).Some? && HasCrl(s.files, slug)
  }

  /** The CRL is renamed into place before the index row changes; `committed` says whether both happened. */
  ghost function RevokeStep(s: State, fp: nat, slug: string, committed: bool): State
    requires HasCrl(s.files, slug)
  {
    var k := |s.files[slug].crls|;
    s.(files := RewriteCrl(s.db, s.files, slug, s.now, [fp]),
       db := if committed then s.db.(revoked := s.db.revoked + {fp}) else s.db,
       h := s.h.(firsts := if fp in s.h.firsts then s.h.firsts else s.h.firsts[fp := k],
                 commits := if committed then s.h.commits[fp := k] else s.h.commits))
  }

  ghost predicate CaRevocable(s: State, cn: string) {
    && GenByCn(s.db.gens, cn).Some? && ActiveOf(s.db.gens, ROOT).Some?
    && var id := GenByCn(s.db.gens, cn).value;
       var root := ActiveOf(s.db.gens, ROOT).value;
       && ActiveOf(s.db.gens, id.purpose) != Some(id)
       && cn != s.db.gens[root].cn
       && LoadCaCert(s.files, s.db.gens[id].slug).Some?
       && LoadCaCert(s.files, s.db.gens[id].slug).value.fp !in s.db.revoked
       && LoadCaCert(s.files, s.db.gens[root].slug).Some? && HasCrl(s.files, s.db.gens[root].slug)
  }

  ghost function RevokeCaStep(s: State, cn: string, committed: bool): State
    requires CaRevocable(s, cn)
  {
    var id := GenByCn(s.db.gens, cn).value;
    var root := ActiveOf(s.db.gens, ROOT).value;
    var s' := RevokeStep(s, LoadCaCert(s.files, s.db.gens[id].slug).value.fp, s.db.gens[root].slug, committed);
    if committed then s'.(db := s'.db.(gens := s.db.gens[id := s.db.gens[id].(status := Revoked)])) else s'
  }

  // ---------------------------------------------------------------- ceremonies

  /** The first `written` of the three files of a new generation: certificate, certificate, empty CRL. */
  function MintFiles(files: Files, slug: string, c: Stored, now: int, written: nat): Files {
    var a := if slug in files then files[slug] else Artifacts(None, None, []);
    if written == 0 then files else
    files[slug := Artifacts(Some(c), if written >= 2 then Some(c) else a.crt,
                            if written >= 3 then [Crl(1, now, [])] else a.crls)]
  }

  datatype Ceremony = Ceremony(life: nat, ski: nat, written: nat, committed: bool)

  /** A ceremony commits only after all three files are written. */
  predicate Proper(c: Ceremony) {
    c.written <= 3 && (c.committed ==> c.written == 3)
  }

  ghost function RootCert(s: State): Option<Stored> {
    if ActiveOf(s.db.gens, ROOT).Some? then LoadCaCert(s.files, s.db.gens[ActiveOf(s.db.gens, ROOT).value].slug) else None
  }

  function Minted(s: State, root: Stored, purpose: string, cn: string, c: Ceremony): Stored {
    Stored(s.nextFp, Cert(cn, SigningCa, purpose, root.cert.cn, s.now, s.now + c.life, c.ski, root.cert.ski))
  }

  /** The tables after a ceremony: the incumbent retires, the new generation is active. */
  function WithGeneration(db: Db, id: GenId, cn: string, slug: string, c: Stored): Db {
    var retired := map i | i in db.gens ::
      if i.purpose == id.purpose && db.gens[i].status == Active then db.gens[i].(status := Retiring) else db.gens[i];
    db.(gens := retired[id := Gen(cn, slug, Active)], certs := db.certs[c.fp := c.cert])
  }

  /** What `renew` and `add` have in common, for generation `id` under `prefix`. */
  ghost function CeremonyStep(s: State, id: GenId, cn: string, prefix: string, c: Ceremony): State
    requires RootCert(s).Some?
  {
    var slug := Config.Slug(prefix, id.gen);
    var cert := Minted(s, RootCert(s).value, id.purpose, cn, c);
    var minted := s.(files := MintFiles(s.files, slug, cert, s.now, c.written), nextFp := s.nextFp + 1);
    if !c.committed then minted else
    minted.(db := WithGeneration(s.db, id, cn, slug, cert).(prefixes := s.db.prefixes[id.purpose := prefix]),
            h := s.h.(own := s.h.own[id := cert.fp], origin := s.h.origin[cert.fp := id],
                      tops := s.h.tops[id.purpose := id.gen]))
  }

  /** Keys are new, and so are their identifiers. */
  predicate FreshKey(certs: map<nat, Cert>, ski: nat) {
    forall fp :: fp in certs ==> certs[fp].ski != ski
  }

  ghost predicate Renewable(s: State, purpose: string, cn: string, c: Ceremony) {
    && purpose != ROOT && purpose in s.db.prefixes && ActiveOf(s.db.gens, purpose).Some? && cn != ""
    && !CnIsTaken(s.db.gens, cn) && RootCert(s).Some? && Proper(c) && FreshKey(s.db.certs, c.ski)
  }

  ghost function RenewStep(s: State, purpose: string, cn: string, c: Ceremony): State
    requires Renewable(s, purpose, cn, c)
  {
    CeremonyStep(s, GenId(purpose, ActiveOf(s.db.gens, purpose).value.gen + 1), cn, s.db.prefixes[purpose], c)
  }

  /** Two slug prefixes under which no generation numbers can meet. */
  ghost predicate Apart(a: string, b: string) {
    a != b && !Config.DigitsApart(a, b) && !Config.DigitsApart(b, a)
  }

  /** What `add` itself checks. */
  ghost predicate AddPasses(s: State, purpose: string, cn: string, c: Ceremony) {
    purpose !in s.db.prefixes && !CnIsTaken(s.db.gens, cn) && RootCert(s).Some? && Proper(c)
  }

  /** `add` for a file that `load` accepted and whose sections beside the new one repeat the locked ones. */
  ghost predicate Addable(s: State, purpose: string, cn: string, prefix: string, c: Ceremony) {
    && AddPasses(s, purpose, cn, c) && cn != "" && FreshKey(s.db.certs, c.ski)
    && (forall p :: p in s.db.prefixes ==> Apart(s.db.prefixes[p], prefix))
  }

  ghost function AddStep(s: State, purpose: string, cn: string, prefix: string, c: Ceremony): State
    requires AddPasses(s, purpose, cn, c)
  {
    CeremonyStep(s, GenId(purpose, 1), cn, prefix, c)
  }

  // ---------------------------------------------------------------- issuance

  ghost predicate MayBegin(s: State, purpose: string) {
    && purpose != ROOT && ActiveOf(s.db.gens, purpose).Some?
    && LoadCaCert(s.files, s.db.gens[ActiveOf(s.db.gens, purpose).value].slug).Some?
  }

  ghost function BeginStep(s: State, t: nat, purpose: string): State
    requires MayBegin(s, purpose)
  {
    var id := ActiveOf(s.db.gens, purpose).value;
    s.(threads := s.threads[t := Issuing(id, LoadCaCert(s.files, s.db.gens[id].slug).value)])
  }

  function IssueStep(s: State, t: nat, cn: string, profile: string, life: nat, ski: nat): State
    requires t in s.threads && s.threads[t].Issuing?
  {
    var Issuing(id, signer) := s.threads[t];
    var leaf := Cert(cn, Leaf(profile), id.purpose, signer.cert.cn, s.now, s.now + life, ski, signer.cert.ski);
    s.(db := s.db.(certs := s.db.certs[s.nextFp := leaf]), threads := s.threads - {t}, nextFp := s.nextFp + 1,
       h := s.h.(origin := s.h.origin[s.nextFp := id]))
  }

  /** A leaf key is nobody's CA key, though leaves may share one. */
  predicate LeafKey(certs: map<nat, Cert>, ski: nat) {
    forall fp :: fp in certs && !certs[fp].kind.Leaf? ==> certs[fp].ski != ski
  }

  // ---------------------------------------------------------------- refresh

  predicate InScope(scope: Scope, purpose: string) {
    if purpose == ROOT then scope != SigningScope else scope != RootScope
  }

  predicate Lives(gens: map<GenId, Gen>, id: GenId) {
    id in gens && gens[id].status != Revoked
  }

  /** The generations whose CRLs a refresh re-signs: live, in scope and not expired. */
  function Jobs(s: State, scope: Scope): set<GenId> {
    set id | id in s.db.gens && Lives(s.db.gens, id) && InScope(scope, id.purpose)
             && LoadCaCert(s.files, s.db.gens[id].slug).Some?
             && LoadCaCert(s.files, s.db.gens[id].slug).value.cert.notAfter > s.now
  }

  predicate Refreshable(s: State, scope: Scope) {
    forall id :: id in s.db.gens && Lives(s.db.gens, id) && InScope(scope, id.purpose) ==>
      LoadCaCert(s.files, s.db.gens[id].slug).Some? && HasCrl(s.files, s.db.gens[id].slug)
  }

  function SlugsOf(gens: map<GenId, Gen>, ids: set<GenId>): set<string>
    requires forall id :: id in ids ==> id in gens
  {
    set id | id in ids :: gens[id].slug
  }

  predicate Rewritable(s: State, ids: set<GenId>) {
    forall id :: id in ids ==> id in s.db.gens && HasCrl(s.files, s.db.gens[id].slug)
  }

  /** `written` are the jobs whose new CRL reached the disk; all of them unless a write fails or the run stops. */
  function RefreshStep(s: State, written: set<GenId>): State
    requires Rewritable(s, written)
  {
    var slugs := SlugsOf(s.db.gens, written);
    s.(files := map slug | slug in s.files ::
         if slug in slugs && s.files[slug].crls != [] then AppendCrl(s.db, s.files[slug], s.now, []) else s.files[slug])
  }

  // ---------------------------------------------------------------- runs

  datatype Event =
    | Tick(seconds: int)
    | Begin(tid: nat, purpose: string)
    | Issue(tid: nat, cn: string, profile: string, life: nat, ski: nat)
    | Drop(tid: nat)
    | Revoke(fp: nat, committed: bool)
    | RevokeCa(cn: string, committed: bool)
    | Renew(purpose: string, cn: string, c: Ceremony)
    | Add(purpose: string, cn: string, prefix: string, c: Ceremony)
    | Collect(tid: nat, scope: Scope)
    | Refresh(tid: nat, written: set<GenId>)

  ghost predicate Enabled(s: State, e: Event) {
    match e
    case Tick(_) => true
    case Begin(t, purpose) => t !in s.threads && MayBegin(s, purpose)
    case Issue(t, _, _, life, ski) => t in s.threads && s.threads[t].Issuing? && life > 0 && LeafKey(s.db.certs, ski)
    case Drop(t) => t in s.threads
    case Revoke(fp, _) => Revocable(s, fp)
    case RevokeCa(cn, _) => CaRevocable(s, cn)
    case Renew(purpose, cn, c) => Renewable(s, purpose, cn, c)
    case Add(purpose, cn, prefix, c) => Addable(s, purpose, cn, prefix, c)
    case Collect(t, scope) => t !in s.threads && Refreshable(s, scope)
    case Refresh(t, written) =>
      t in s.threads && s.threads[t].Refreshing? && written <= s.threads[t].jobs && Rewritable(s, written)
  }

  /** One step of the store. A refused command changes nothing. */
  ghost function Next(s: State, e: Event): State {
    if !Enabled(s, e) then s else
    match e
    case Tick(seconds) => s.(now := s.now + seconds)
    case Begin(t, purpose) => BeginStep(s, t, purpose)
    case Issue(t, cn, profile, life, ski) => IssueStep(s, t, cn, profile, life, ski)
    case Drop(t) => s.(threads := s.threads - {t})
    case Revoke(fp, committed) =>
      RevokeStep(s, fp, s.db.gens[GenByCn(s.db.gens, s.db.certs[fp].issuerCn).value].slug, committed)
    case RevokeCa(cn, committed) => RevokeCaStep(s, cn, committed)
    case Renew(purpose, cn, c) => RenewStep(s, purpose, cn, c)
    case Add(purpose, cn, prefix, c) => AddStep(s, purpose, cn, prefix, c)
    case Collect(t, scope) => s.(threads := s.threads[t := Refreshing(scope, Jobs(s, scope))])
    case Refresh(t, written) => RefreshStep(s, written).(threads := s.threads - {t})
  }

  ghost function Run(s: State, es: seq<Event>): State
    decreases |es|
  {
    if es == [] then s else Run(Next(s, es[0]), es[1..])
  }

  // ---------------------------------------------------------------- the first ceremony

  datatype Section = Section(cn: string, prefix: string, life: nat, fp: nat)

  /** What `load` accepts, with the certificates' numbers distinct. */
  ghost predicate Accepted(sections: map<string, Section>) {
    && ROOT in sections
    && (forall p :: p in sections ==> sections[p].cn != "")
    && (forall p, q :: p in sections && q in sections && p != q ==>
          && sections[p].cn != sections[q].cn && Apart(sections[p].prefix, sections[q].prefix)
          && sections[p].fp != sections[q].fp)
  }

  function FirstCert(sections: map<string, Section>, p: string, now: int): Stored
    requires p in sections && ROOT in sections
  {
    Stored(sections[p].fp, Cert(sections[p].cn, KindOf(p), p, sections[ROOT].cn, now, now + sections[p].life,
                                sections[p].fp, sections[ROOT].fp))
  }

  function PurposeIds(sections: map<string, Section>): (ids: set<GenId>)
    ensures forall id :: id in ids <==> id.purpose in sections && id.gen == 1
  {
    var ids := set p | p in sections :: GenId(p, 1);
    assert forall id: GenId :: id.gen == 1 ==> id == GenId(id.purpose, 1);
    ids
  }

  /** Under prefixes that stay apart, a slug tells purpose and number. */
  lemma SlugTells(a: string, g: nat, b: string, h: nat)
    requires a == b || Apart(a, b)
    requires Config.Slug(a, g) == Config.Slug(b, h)
    ensures a == b && g == h
  {
    if |a| <= |b| { Config.CollisionIsDigitsApart(a, g, b, h); } else { Config.CollisionIsDigitsApart(b, h, a, g); }
    Config.SlugIsInjective(a, g, h);
  }

  function FirstSlug(sections: map<string, Section>, p: string): string
    requires p in sections
  {
    Config.Slug(sections[p].prefix, 1)
  }

  lemma FirstSlugsDiffer(sections: map<string, Section>)
    requires Accepted(sections)
    ensures forall p, q :: p in sections && q in sections && FirstSlug(sections, p) == FirstSlug(sections, q) ==> p == q
  {
    forall p, q | p in sections && q in sections && FirstSlug(sections, p) == FirstSlug(sections, q) ensures p == q {
      SlugTells(sections[p].prefix, 1, sections[q].prefix, 1);
    }
  }

  ghost function FirstDb(sections: map<string, Section>, now: int): Db
    requires Accepted(sections)
  {
    Db(map id | id in PurposeIds(sections) :: Gen(sections[id.purpose].cn, FirstSlug(sections, id.purpose), Active),
       map p | p in sections :: sections[p].fp := FirstCert(sections, p, now).cert,
       {},
       map p | p in sections :: sections[p].prefix)
  }

  function FirstArtifacts(c: Stored, now: int): Artifacts {
    Artifacts(Some(c), Some(c), [Crl(1, now, [])])
  }

  ghost function FirstFiles(sections: map<string, Section>, now: int): Files
    requires Accepted(sections)
  {
    FirstSlugsDiffer(sections);
    hide Config.Slug, FirstSlug, Apart;
    map p | p in sections :: FirstSlug(sections, p) := FirstArtifacts(FirstCert(sections, p, now), now)
  }

  ghost function FirstHistory(sections: map<string, Section>): History
    requires Accepted(sections)
  {
    History(map id | id in PurposeIds(sections) :: sections[id.purpose].fp,
            map p | p in sections :: sections[p].fp := GenId(p, 1),
            map p | p in sections :: 1,
            map[], map[])
  }

  /** The store `init` leaves: generation 1 of every section, signed by the root, with its files. */
  ghost function Init(sections: map<string, Section>, now: int, nextFp: nat): State
    requires Accepted(sections)
  {
    State(FirstDb(sections, now), FirstFiles(sections, now), map[], now, nextFp, FirstHistory(sections))
  }

  ghost predicate Initial(s: State) {
    exists sections: map<string, Section> :: Accepted(sections) && Numbered(sections, s.nextFp) && s == Init(sections, s.now, s.nextFp)
  }

  ghost predicate Numbered(sections: map<string, Section>, nextFp: nat) {
    forall p :: p in sections ==> sections[p].fp < nextFp
  }

  ghost predicate ReachableIn(s: State, steps: nat)
    decreases steps
  {
    if steps == 0 then Initial(s) else
    exists before: State, e: Event :: ReachableIn(before, steps - 1) && s == Next(before, e)
  }

  ghost predicate Reachable(s: State) {
    exists steps: nat :: ReachableIn(s, steps)
  }

  lemma {:induction false} RunsStayReachable(s: State, steps: nat, es: seq<Event>)
    requires ReachableIn(s, steps)
    ensures ReachableIn(Run(s, es), steps + |es|) && Reachable(Run(s, es))
    decreases |es|
  {
    hide Initial, Next;
    if es != [] {
      assert ReachableIn(Next(s, es[0]), steps + 1);
      RunsStayReachable(Next(s, es[0]), steps + 1, es[1..]);
    }
  }
}
