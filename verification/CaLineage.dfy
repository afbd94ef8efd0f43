/**
 Generations over every run: their numbers, names and statuses, and the files
 published for them.
 */
module CaLineage {
  import opened Strings
  import opened CaStore
  import Config

  // ---------------------------------------------------------------- the writes of a step

  /** How a step changes the tables. */
  datatype DbWrite =
    | Nothing
    | AddLeaf(fp: nat, cert: Cert)
    | MarkRow(fp: nat)
    | MarkGeneration(fp: nat, id: GenId)
    | AddGeneration(id: GenId, cn: string, prefix: string, c: Stored)

  ghost function ApplyDb(db: Db, w: DbWrite): Db {
    match w
    case Nothing => db
    case AddLeaf(fp, cert) => db.(certs := db.certs[fp := cert])
    case MarkRow(fp) => db.(revoked := db.revoked + {fp})
    case MarkGeneration(fp, id) =>
      if id in db.gens
      then db.(revoked := db.revoked + {fp}, gens := db.gens[id := db.gens[id].(status := Revoked)]) else db
    case AddGeneration(id, cn, prefix, c) =>
      WithGeneration(db, id, cn, Config.Slug(prefix, id.gen), c).(prefixes := db.prefixes[id.purpose := prefix])
  }

  /** How a step changes the record of generations. */
  ghost function Recorded(h: History, w: DbWrite, signer: GenId): History {
    match w
    case AddLeaf(fp, _) => h.(origin := h.origin[fp := signer])
    case AddGeneration(id, _, _, c) =>
      h.(own := h.own[id := c.fp], origin := h.origin[c.fp := id], tops := h.tops[id.purpose := id.gen])
    case _ => h
  }

  ghost function WriteOf(s: State, e: Event): DbWrite
    requires Enabled(s, e)
  {
    match e
    case Issue(t, cn, profile, life, ski) =>
      AddLeaf(s.nextFp, Cert(cn, Leaf(profile), s.threads[t].id.purpose, s.threads[t].signer.cert.cn, s.now, s.now + life,
                             ski, s.threads[t].signer.cert.ski))
    case Revoke(fp, true) => MarkRow(fp)
    case RevokeCa(cn, true) =>
      var id := GenByCn(s.db.gens, cn).value;
      MarkGeneration(LoadCaCert(s.files, s.db.gens[id].slug).value.fp, id)
    case Renew(purpose, cn, c) =>
      if !c.committed then Nothing else
      AddGeneration(GenId(purpose, ActiveOf(s.db.gens, purpose).value.gen + 1), cn, s.db.prefixes[purpose],
                    Minted(s, RootCert(s).value, purpose, cn, c))
    case Add(purpose, cn, prefix, c) =>
      if !c.committed then Nothing else
      AddGeneration(GenId(purpose, 1), cn, prefix, Minted(s, RootCert(s).value, purpose, cn, c))
    case _ => Nothing
  }

  ghost function SignerOf(s: State, e: Event): GenId
    requires Enabled(s, e)
  {
    if e.Issue? then s.threads[e.tid].id else GenId(ROOT, 1)
  }

  lemma StepWrites(s: State, e: Event)
    requires Enabled(s, e)
    ensures Next(s, e).db == ApplyDb(s.db, WriteOf(s, e))
    ensures Next(s, e).h.(firsts := s.h.firsts, commits := s.h.commits) == Recorded(s.h, WriteOf(s, e), SignerOf(s, e))
  {
    hide Config.Slug, AppendCrl, MintFiles, WithGeneration, Apart, CnIsTaken, FreshKey, LeafKey;
  }

  // ---------------------------------------------------------------- the invariant on tables

  /** Generations are numbered 1 to the top, and the top alone is active. */
  ghost predicate Lineage(db: Db, tops: map<string, nat>) {
    && tops.Keys == db.prefixes.Keys && ROOT in tops && tops[ROOT] == 1
    && (forall p :: p in tops ==> tops[p] >= 1)
    && (forall id: GenId :: id in db.gens <==> id.purpose in tops && 1 <= id.gen <= tops[id.purpose])
    && (forall id :: id in db.gens ==> (db.gens[id].status == Active <==> id.gen == tops[id.purpose]))
  }

  /** A generation's slug is its CA's prefix and its number. */
  ghost predicate Slugged(db: Db) {
    forall id :: id in db.gens ==>
      id.purpose in db.prefixes && db.gens[id].slug == Config.Slug(db.prefixes[id.purpose], id.gen)
  }

  ghost predicate PrefixesApart(prefixes: map<string, string>) {
    forall p, q :: p in prefixes && q in prefixes && p != q ==> Apart(prefixes[p], prefixes[q])
  }

  ghost predicate NamesDistinct(gens: map<GenId, Gen>) {
    forall a, b :: a in gens && b in gens && gens[a].cn == gens[b].cn ==> a == b
  }

  /** Each generation has its certificate in the index. */
  ghost predicate Owns(db: Db, h: History) {
    && h.own.Keys == db.gens.Keys
    && (forall id :: id in db.gens ==> OwnCert(db, h, id))
  }

  ghost predicate OwnCert(db: Db, h: History, id: GenId)
    requires id in db.gens && h.own.Keys == db.gens.Keys
  {
    && h.own[id] in db.certs && h.own[id] in h.origin && h.origin[h.own[id]] == id
    && db.certs[h.own[id]].kind == KindOf(id.purpose) && db.certs[h.own[id]].cn == db.gens[id].cn
  }

  /** Each certificate is a generation's own, or names the generation that signed it. */
  ghost predicate Origins(db: Db, h: History, nextFp: nat) {
    && h.origin.Keys == db.certs.Keys
    && (forall fp :: fp in db.certs ==> fp < nextFp && Placed(db, h, fp))
  }

  ghost predicate Placed(db: Db, h: History, fp: nat)
    requires fp in db.certs && fp in h.origin
  {
    var c, id := db.certs[fp], h.origin[fp];
    && id in db.gens && id in h.own && h.own[id] in db.certs
    && (c.kind.Leaf? ==> id.purpose != ROOT && c.issuerCn == db.gens[id].cn && c.aki == db.certs[h.own[id]].ski)
    && (!c.kind.Leaf? ==> h.own[id] == fp)
  }

  /** A CA key's identifier is found on that CA's certificate only. */
  ghost predicate KeysDistinct(certs: map<nat, Cert>) {
    forall a, b :: a in certs && b in certs && !certs[a].kind.Leaf? && certs[a].ski == certs[b].ski ==> a == b
  }

  /** A generation is marked revoked together with its certificate. */
  ghost predicate StatusesMatch(db: Db, own: map<GenId, nat>) {
    && (forall id :: id in db.gens && id in own ==> (db.gens[id].status == Revoked <==> own[id] in db.revoked))
    && (forall fp :: fp in db.revoked ==> fp in db.certs)
  }

  ghost predicate TablesInv(s: State) {
    && Lineage(s.db, s.h.tops) && Slugged(s.db) && PrefixesApart(s.db.prefixes) && NamesDistinct(s.db.gens)
    && Owns(s.db, s.h) && Origins(s.db, s.h, s.nextFp) && KeysDistinct(s.db.certs)
    && StatusesMatch(s.db, s.h.own)
  }

  // ---------------------------------------------------------------- the invariant on files

  /** The three files of every generation are there, and hold its indexed certificate. */
  ghost predicate Published(db: Db, files: Files, own: map<GenId, nat>) {
    forall id :: id in db.gens ==> IsPublished(db, files, own, id)
  }

  ghost predicate IsPublished(db: Db, files: Files, own: map<GenId, nat>, id: GenId)
    requires id in db.gens
  {
    && id in own && own[id] in db.certs && db.gens[id].slug in files
    && files[db.gens[id].slug].pem == Some(Stored(own[id], db.certs[own[id]]))
    && files[db.gens[id].slug].crt == Some(Stored(own[id], db.certs[own[id]]))
    && files[db.gens[id].slug].crls != []
  }

  /** A command waiting to issue holds the certificate of the generation it read, one waiting to refresh known generations. */
  ghost predicate ThreadsHold(threads: map<nat, Thread>, db: Db, own: map<GenId, nat>) {
    forall t :: t in threads ==> Holds(threads[t], db, own)
  }

  ghost predicate Holds(thread: Thread, db: Db, own: map<GenId, nat>) {
    match thread
    case Issuing(id, signer) =>
      && id in db.gens && id.purpose != ROOT && id in own && own[id] in db.certs
      && signer == Stored(own[id], db.certs[own[id]])
    case Refreshing(scope, jobs) => forall id :: id in jobs ==> id in db.gens && InScope(scope, id.purpose)
  }

  ghost predicate Inv(s: State) {
    TablesInv(s) && Published(s.db, s.files, s.h.own) && ThreadsHold(s.threads, s.db, s.h.own)
  }

  // ---------------------------------------------------------------- what the invariant says at once

  lemma ActiveIsTheTop(db: Db, tops: map<string, nat>, p: string)
    requires Lineage(db, tops) && p in tops
    ensures ActiveOf(db.gens, p) == Some(GenId(p, tops[p]))
  {
    assert GenId(p, tops[p]) in db.gens;
  }

  lemma SlugIsItsOwn(db: Db, a: GenId, b: GenId)
    requires Slugged(db) && PrefixesApart(db.prefixes) && a in db.gens && b in db.gens
    requires db.gens[a].slug == db.gens[b].slug
    ensures a == b
  {
    SlugTells(db.prefixes[a.purpose], a.gen, db.prefixes[b.purpose], b.gen);
  }

  /** Names tell generations, so a lookup by name finds the one meant. */
  lemma LookupFinds(gens: map<GenId, Gen>, id: GenId)
    requires NamesDistinct(gens) && id in gens && id.purpose != ROOT
    ensures GenByCn(gens, gens[id].cn) == Some(id)
  {
  }

  /** What the invariant makes of a step's write. */
  ghost predicate ProperWrite(s: State, w: DbWrite, signer: GenId) {
    match w
    case Nothing => true
    case AddLeaf(fp, c) =>
      && fp == s.nextFp && c.kind.Leaf? && LeafKey(s.db.certs, c.ski)
      && signer in s.db.gens && signer.purpose != ROOT && signer in s.h.own && s.h.own[signer] in s.db.certs
      && c.issuerCn == s.db.gens[signer].cn && c.aki == s.db.certs[s.h.own[signer]].ski
    case MarkRow(fp) => fp in s.db.certs && s.db.certs[fp].kind.Leaf?
    case MarkGeneration(fp, id) =>
      id in s.db.gens && id in s.h.own && fp == s.h.own[id] && id.purpose != ROOT && s.db.gens[id].status != Active
    case AddGeneration(id, cn, prefix, c) =>
      && id.purpose != ROOT && !CnIsTaken(s.db.gens, cn) && FreshKey(s.db.certs, c.cert.ski)
      && c.fp == s.nextFp && c.cert.kind == SigningCa && c.cert.cn == cn
      && (if id.purpose in s.h.tops && id.purpose in s.db.prefixes
          then id.gen == s.h.tops[id.purpose] + 1 && prefix == s.db.prefixes[id.purpose]
          else id.gen == 1 && forall p :: p in s.db.prefixes ==> Apart(s.db.prefixes[p], prefix))
  }

  lemma IssueIsProper(s: State, e: Event)
    requires ThreadsHold(s.threads, s.db, s.h.own) && Owns(s.db, s.h) && Enabled(s, e) && e.Issue?
    ensures ProperWrite(s, WriteOf(s, e), SignerOf(s, e))
  {
    assert Holds(s.threads[e.tid], s.db, s.h.own);
    OwnNames(s, s.threads[e.tid].id);
    hide OwnCert, LeafKey;
  }

  lemma OwnNames(s: State, id: GenId)
    requires Owns(s.db, s.h) && id in s.db.gens
    ensures id in s.h.own && s.h.own[id] in s.db.certs && s.db.certs[s.h.own[id]].cn == s.db.gens[id].cn
    ensures s.db.certs[s.h.own[id]].kind == KindOf(id.purpose)
  {
    assert OwnCert(s.db, s.h, id);
  }

  lemma RevokeCaIsProper(s: State, e: Event)
    requires Lineage(s.db, s.h.tops) && Published(s.db, s.files, s.h.own) && Enabled(s, e) && e.RevokeCa?
    ensures ProperWrite(s, WriteOf(s, e), SignerOf(s, e))
  {
    var id := GenByCn(s.db.gens, e.cn).value;
    assert IsPublished(s.db, s.files, s.h.own, id);
    ActiveIsTheTop(s.db, s.h.tops, id.purpose);
  }

  lemma RenewIsProper(s: State, e: Event)
    requires Lineage(s.db, s.h.tops) && Enabled(s, e) && e.Renew?
    ensures ProperWrite(s, WriteOf(s, e), SignerOf(s, e))
  {
    ActiveIsTheTop(s.db, s.h.tops, e.purpose);
  }

  lemma AddIsProper(s: State, e: Event)
    requires Lineage(s.db, s.h.tops) && Enabled(s, e) && e.Add?
    ensures ProperWrite(s, WriteOf(s, e), SignerOf(s, e))
  {
  }

  lemma OthersAreProper(s: State, e: Event)
    requires Enabled(s, e) && !e.Issue? && !e.RevokeCa? && !e.Renew? && !e.Add?
    ensures ProperWrite(s, WriteOf(s, e), SignerOf(s, e))
  {
  }

  lemma WritesAreProper(s: State, e: Event)
    requires Lineage(s.db, s.h.tops) && Owns(s.db, s.h) && Published(s.db, s.files, s.h.own)
    requires ThreadsHold(s.threads, s.db, s.h.own)
    requires Enabled(s, e)
    ensures ProperWrite(s, WriteOf(s, e), SignerOf(s, e))
  {
    hide Lineage, Owns, Published, ThreadsHold, Enabled, ProperWrite, WriteOf, SignerOf;
    match e
    case Issue(_, _, _, _, _) => IssueIsProper(s, e);
    case RevokeCa(_, _) => RevokeCaIsProper(s, e);
    case Renew(_, _, _) => RenewIsProper(s, e);
    case Add(_, _, _, _) => AddIsProper(s, e);
    case _ => OthersAreProper(s, e);
  }

  // ---------------------------------------------------------------- every write keeps the tables

  /** Rows are added and marked; names, slugs and certificates never change. */
  ghost predicate Grows(db: Db, after: Db) {
    && (forall id :: id in db.gens ==>
          id in after.gens && after.gens[id].cn == db.gens[id].cn && after.gens[id].slug == db.gens[id].slug)
    && (forall fp :: fp in db.certs ==> fp in after.certs && after.certs[fp] == db.certs[fp])
    && db.revoked <= after.revoked
  }

  ghost predicate RecordGrows(h: History, after: History) {
    && (forall id :: id in h.own ==> id in after.own && after.own[id] == h.own[id])
    && (forall fp :: fp in h.origin ==> fp in after.origin && after.origin[fp] == h.origin[fp])
  }

  /** A write's new rows get numbers not used before. */
  ghost predicate NewRow(s: State, w: DbWrite) {
    && (w.AddLeaf? ==> w.fp !in s.db.certs && w.fp !in s.h.origin)
    && (w.AddGeneration? ==> w.c.fp !in s.db.certs && w.c.fp !in s.h.origin && w.id !in s.db.gens && w.id !in s.h.own)
  }

  lemma DbGrows(s: State, w: DbWrite)
    requires NewRow(s, w)
    ensures Grows(s.db, ApplyDb(s.db, w))
  {
    hide Config.Slug;
  }

  lemma DbKeys(s: State, w: DbWrite)
    requires NewRow(s, w)
    ensures ApplyDb(s.db, w).gens.Keys == s.db.gens.Keys + NewGen(w)
    ensures ApplyDb(s.db, w).certs.Keys == s.db.certs.Keys + NewCert(w)
    ensures ApplyDb(s.db, w).prefixes == if w.AddGeneration? then s.db.prefixes[w.id.purpose := w.prefix] else s.db.prefixes
    ensures w.AddGeneration? ==>
              && ApplyDb(s.db, w).gens[w.id] == Gen(w.cn, Config.Slug(w.prefix, w.id.gen), Active)
              && ApplyDb(s.db, w).certs[w.c.fp] == w.c.cert
    ensures w.AddLeaf? ==> ApplyDb(s.db, w).certs[w.fp] == w.cert
  {
    hide Config.Slug;
  }

  lemma HistoryGrows(s: State, w: DbWrite, signer: GenId)
    requires NewRow(s, w)
    ensures RecordGrows(s.h, Recorded(s.h, w, signer))
    ensures Recorded(s.h, w, signer).own.Keys == s.h.own.Keys + NewGen(w)
    ensures Recorded(s.h, w, signer).origin.Keys == s.h.origin.Keys + NewCert(w)
  {
  }

  lemma WritesGrow(s: State, w: DbWrite, signer: GenId)
    requires NewRow(s, w)
    ensures Grows(s.db, ApplyDb(s.db, w)) && RecordGrows(s.h, Recorded(s.h, w, signer))
    ensures ApplyDb(s.db, w).gens.Keys == s.db.gens.Keys + NewGen(w)
    ensures ApplyDb(s.db, w).certs.Keys == s.db.certs.Keys + NewCert(w)
    ensures Recorded(s.h, w, signer).own.Keys == s.h.own.Keys + NewGen(w)
    ensures Recorded(s.h, w, signer).origin.Keys == s.h.origin.Keys + NewCert(w)
    ensures w.AddGeneration? ==>
              && ApplyDb(s.db, w).gens[w.id] == Gen(w.cn, Config.Slug(w.prefix, w.id.gen), Active)
              && ApplyDb(s.db, w).certs[w.c.fp] == w.c.cert
    ensures w.AddLeaf? ==> ApplyDb(s.db, w).certs[w.fp] == w.cert
  {
    hide Grows, RecordGrows, ApplyDb, Recorded, NewRow, NewGen, NewCert, Config.Slug;
    DbGrows(s, w);
    DbKeys(s, w);
    HistoryGrows(s, w, signer);
  }

  lemma RowsAreNew(s: State, w: DbWrite, signer: GenId)
    requires Lineage(s.db, s.h.tops) && Owns(s.db, s.h) && Origins(s.db, s.h, s.nextFp) && ProperWrite(s, w, signer)
    ensures NewRow(s, w)
  {
    hide LeafKey, FreshKey, Apart, Placed, OwnCert;
  }

  ghost function NewGen(w: DbWrite): set<GenId> {
    if w.AddGeneration? then {w.id} else {}
  }

  function NewRows(w: DbWrite): nat {
    if w.AddLeaf? || w.AddGeneration? then 1 else 0
  }

  ghost function NewCert(w: DbWrite): set<nat> {
    match w
    case AddLeaf(fp, _) => {fp}
    case AddGeneration(_, _, _, c) => {c.fp}
    case _ => {}
  }

  lemma LineageKept(s: State, w: DbWrite, signer: GenId)
    requires Lineage(s.db, s.h.tops) && ProperWrite(s, w, signer)
    ensures Lineage(ApplyDb(s.db, w), Recorded(s.h, w, signer).tops)
  {
    if w.AddGeneration? {
      hide ProperWrite;
      NewTopKeepsLineage(s, w, signer);
    } else {
      hide LeafKey;
    }
  }

  /** Only the incumbents of the same purpose stop being active. */
  lemma IncumbentRetires(db: Db, id: GenId, cn: string, slug: string, c: Stored)
    ensures WithGeneration(db, id, cn, slug, c).gens.Keys == db.gens.Keys + {id}
    ensures forall i :: i in db.gens && i != id ==>
              (WithGeneration(db, id, cn, slug, c).gens[i].status == Active <==> db.gens[i].status == Active && i.purpose != id.purpose)
    ensures WithGeneration(db, id, cn, slug, c).gens[id].status == Active
    ensures WithGeneration(db, id, cn, slug, c).prefixes == db.prefixes
  {
  }

  lemma NewTop(db: Db, tops: map<string, nat>, after: Db, id: GenId)
    requires Lineage(db, tops) && id.purpose != ROOT
    requires id.gen == (if id.purpose in tops then tops[id.purpose] + 1 else 1)
    requires after.gens.Keys == db.gens.Keys + {id} && after.prefixes.Keys == db.prefixes.Keys + {id.purpose}
    requires after.gens[id].status == Active
    requires forall i :: i in db.gens && i != id ==>
               (after.gens[i].status == Active <==> db.gens[i].status == Active && i.purpose != id.purpose)
    ensures Lineage(after, tops[id.purpose := id.gen])
  {
  }

  lemma NewTopKeepsLineage(s: State, w: DbWrite, signer: GenId)
    requires w.AddGeneration? && Lineage(s.db, s.h.tops) && ProperWrite(s, w, signer)
    ensures Lineage(ApplyDb(s.db, w), Recorded(s.h, w, signer).tops)
  {
    hide Config.Slug, CnIsTaken, FreshKey, Apart, WithGeneration;
    IncumbentRetires(s.db, w.id, w.cn, Config.Slug(w.prefix, w.id.gen), w.c);
    NewTop(s.db, s.h.tops, ApplyDb(s.db, w), w.id);
  }

  lemma SluggedKept(s: State, w: DbWrite, signer: GenId)
    requires Slugged(s.db) && Lineage(s.db, s.h.tops) && NewRow(s, w) && ProperWrite(s, w, signer)
    ensures Slugged(ApplyDb(s.db, w))
  {
    var db' := ApplyDb(s.db, w);
    PrefixIsKnown(s, w, signer);
    DbGrows(s, w);
    DbKeys(s, w);
    hide ApplyDb, Config.Slug, NewRow, Lineage, ProperWrite;
    forall id | id in db'.gens
      ensures id.purpose in db'.prefixes && db'.gens[id].slug == Config.Slug(db'.prefixes[id.purpose], id.gen)
    {
      if id in s.db.gens { assert db'.gens[id].slug == Config.Slug(s.db.prefixes[id.purpose], id.gen); }
    }
  }

  lemma PrefixIsKnown(s: State, w: DbWrite, signer: GenId)
    requires Lineage(s.db, s.h.tops) && ProperWrite(s, w, signer)
    ensures w.AddGeneration? && w.id.purpose in s.db.prefixes ==> w.prefix == s.db.prefixes[w.id.purpose]
  {
  }

  lemma PrefixesKept(s: State, w: DbWrite, signer: GenId)
    requires PrefixesApart(s.db.prefixes) && Lineage(s.db, s.h.tops) && ProperWrite(s, w, signer)
    ensures PrefixesApart(ApplyDb(s.db, w).prefixes)
  {
    hide WithGeneration, Config.Slug, Config.DigitsApart, CnIsTaken, FreshKey, LeafKey;
  }

  lemma NamesKept(s: State, w: DbWrite, signer: GenId)
    requires NamesDistinct(s.db.gens) && ProperWrite(s, w, signer)
    ensures NamesDistinct(ApplyDb(s.db, w).gens)
  {
    hide Config.Slug;
  }

  lemma OwnCertStays(db: Db, h: History, after: Db, later: History, id: GenId)
    requires h.own.Keys == db.gens.Keys && id in db.gens && OwnCert(db, h, id) && Grows(db, after)
    requires RecordGrows(h, later)
    requires later.own.Keys == after.gens.Keys
    ensures OwnCert(after, later, id)
  {
  }

  lemma PlaceStays(db: Db, h: History, after: Db, later: History, fp: nat)
    requires fp in db.certs && fp in h.origin && Placed(db, h, fp) && Grows(db, after) && RecordGrows(h, later)
    ensures fp in after.certs && fp in later.origin && Placed(after, later, fp)
  {
  }

  lemma NewGenerationIsOwned(s: State, w: DbWrite, signer: GenId)
    requires w.AddGeneration? && Owns(s.db, s.h) && NewRow(s, w) && ProperWrite(s, w, signer)
    ensures var db', h' := ApplyDb(s.db, w), Recorded(s.h, w, signer);
            h'.own.Keys == db'.gens.Keys && OwnCert(db', h', w.id)
  {
    WritesGrow(s, w, signer);
    hide ApplyDb, Config.Slug, CnIsTaken, FreshKey, Apart;
  }

  lemma OwnsKept(s: State, w: DbWrite, signer: GenId)
    requires Owns(s.db, s.h) && NewRow(s, w) && ProperWrite(s, w, signer)
    ensures Owns(ApplyDb(s.db, w), Recorded(s.h, w, signer))
  {
    var db', h' := ApplyDb(s.db, w), Recorded(s.h, w, signer);
    WritesGrow(s, w, signer);
    if w.AddGeneration? { NewGenerationIsOwned(s, w, signer); }
    hide ApplyDb, Recorded, ProperWrite, NewRow, OwnCert, Grows, RecordGrows;
    forall id | id in db'.gens ensures OwnCert(db', h', id) {
      if id in s.db.gens { OwnCertStays(s.db, s.h, db', h', id); }
    }
  }

  lemma NewCertIsPlaced(s: State, w: DbWrite, signer: GenId, fp: nat)
    requires Owns(s.db, s.h) && NewRow(s, w) && ProperWrite(s, w, signer) && fp in NewCert(w)
    ensures var db', h' := ApplyDb(s.db, w), Recorded(s.h, w, signer);
            fp < s.nextFp + NewRows(w) && fp in db'.certs && fp in h'.origin && Placed(db', h', fp)
  {
    WritesGrow(s, w, signer);
    hide ApplyDb, Config.Slug, OwnCert, CnIsTaken, FreshKey, LeafKey, Apart;
  }

  lemma OriginsKept(s: State, w: DbWrite, signer: GenId)
    requires Owns(s.db, s.h) && Origins(s.db, s.h, s.nextFp) && NewRow(s, w) && ProperWrite(s, w, signer)
    ensures Origins(ApplyDb(s.db, w), Recorded(s.h, w, signer), s.nextFp + NewRows(w))
  {
    var db', h' := ApplyDb(s.db, w), Recorded(s.h, w, signer);
    WritesGrow(s, w, signer);
    hide ApplyDb, Recorded, ProperWrite, NewRow, OwnCert, Owns, Grows, RecordGrows, Placed, NewCert, NewRows;
    forall fp | fp in db'.certs ensures fp < s.nextFp + NewRows(w) && Placed(db', h', fp) {
      if fp in s.db.certs { PlaceStays(s.db, s.h, db', h', fp); } else { NewCertIsPlaced(s, w, signer, fp); }
    }
  }

  lemma KeysKept(s: State, w: DbWrite, signer: GenId)
    requires KeysDistinct(s.db.certs) && NewRow(s, w) && ProperWrite(s, w, signer)
    ensures KeysDistinct(ApplyDb(s.db, w).certs)
  {
    hide Config.Slug, Apart, CnIsTaken;
  }

  lemma StatusesKept(s: State, w: DbWrite, signer: GenId)
    requires StatusesMatch(s.db, s.h.own) && Owns(s.db, s.h) && NewRow(s, w) && ProperWrite(s, w, signer)
    ensures StatusesMatch(ApplyDb(s.db, w), Recorded(s.h, w, signer).own)
  {
    hide StatusesMatch, Owns, NewRow, LeafKey, FreshKey, CnIsTaken, Apart, WithGeneration;
    match w
    case Nothing =>
    case AddLeaf(fp, cert) => LeafAdded(s, fp, cert);
    case MarkRow(fp) => LeafMarked(s, fp);
    case MarkGeneration(fp, id) => GenerationMarked(s, fp, id);
    case AddGeneration(_, _, _, _) => GenerationAdded(s, w, signer);
  }

  lemma LeafAdded(s: State, fp: nat, cert: Cert)
    requires StatusesMatch(s.db, s.h.own)
    ensures StatusesMatch(s.db.(certs := s.db.certs[fp := cert]), s.h.own)
  {
  }

  lemma GenerationAdded(s: State, w: DbWrite, signer: GenId)
    requires w.AddGeneration? && StatusesMatch(s.db, s.h.own) && Owns(s.db, s.h) && NewRow(s, w)
    ensures StatusesMatch(ApplyDb(s.db, w), Recorded(s.h, w, signer).own)
  {
    hide Config.Slug, OwnCert;
  }

  lemma LeafMarked(s: State, fp: nat)
    requires StatusesMatch(s.db, s.h.own) && Owns(s.db, s.h) && fp in s.db.certs && s.db.certs[fp].kind.Leaf?
    ensures StatusesMatch(s.db.(revoked := s.db.revoked + {fp}), s.h.own)
  {
    forall id | id in s.db.gens && id in s.h.own ensures s.h.own[id] != fp { OwnNames(s, id); }
  }

  lemma GenerationMarked(s: State, fp: nat, id: GenId)
    requires StatusesMatch(s.db, s.h.own) && Owns(s.db, s.h) && id in s.db.gens && id in s.h.own && fp == s.h.own[id]
    ensures StatusesMatch(s.db.(revoked := s.db.revoked + {fp}, gens := s.db.gens[id := s.db.gens[id].(status := Revoked)]), s.h.own)
  {
    OwnNames(s, id);
    forall other | other in s.db.gens && other in s.h.own && s.h.own[other] == fp ensures other == id {
      assert OwnCert(s.db, s.h, other) && OwnCert(s.db, s.h, id);
    }
  }

  // ---------------------------------------------------------------- every step keeps the files

  /** The certificate files of a slug are untouched, and its CRLs only grow. */
  ghost predicate Keeps(files: Files, after: Files, slug: string) {
    slug in files ==>
      && slug in after && after[slug].pem == files[slug].pem && after[slug].crt == files[slug].crt
      && files[slug].crls <= after[slug].crls
  }

  /** The slug a ceremony writes under belongs to no generation yet. */
  lemma CeremonySlugIsFree(db: Db, tops: map<string, nat>, id: GenId, prefix: string)
    requires Lineage(db, tops) && Slugged(db) && PrefixesApart(db.prefixes) && id !in db.gens
    requires if id.purpose in db.prefixes then prefix == db.prefixes[id.purpose]
             else forall p :: p in db.prefixes ==> Apart(db.prefixes[p], prefix)
    ensures forall other :: other in db.gens ==> db.gens[other].slug != Config.Slug(prefix, id.gen)
  {
    forall other | other in db.gens && db.gens[other].slug == Config.Slug(prefix, id.gen) ensures other == id {
      SlugTells(db.prefixes[other.purpose], other.gen, prefix, id.gen);
    }
  }

  lemma RewriteKeeps(db: Db, files: Files, slug: string, now: int, added: seq<nat>, other: string)
    requires HasCrl(files, slug)
    ensures Keeps(files, RewriteCrl(db, files, slug, now, added), other)
  {
  }

  lemma RefreshKeeps(s: State, written: set<GenId>, slug: string)
    requires Rewritable(s, written)
    ensures Keeps(s.files, RefreshStep(s, written).files, slug)
  {
    hide Prune;
  }

  lemma MintKeeps(files: Files, slug: string, c: Stored, now: int, written: nat, other: string)
    requires other != slug
    ensures Keeps(files, MintFiles(files, slug, c, now, written), other)
  {
  }

  /** The generation a ceremony makes, and its prefix. */
  ghost function Made(s: State, e: Event): (GenId, string)
    requires Enabled(s, e) && (e.Renew? || e.Add?)
  {
    if e.Renew? then (GenId(e.purpose, ActiveOf(s.db.gens, e.purpose).value.gen + 1), s.db.prefixes[e.purpose])
    else (GenId(e.purpose, 1), e.prefix)
  }

  lemma CeremonyFiles(s: State, e: Event)
    requires Enabled(s, e) && (e.Renew? || e.Add?)
    ensures RootCert(s).Some?
    ensures Next(s, e).files == MintFiles(s.files, Config.Slug(Made(s, e).1, Made(s, e).0.gen),
                                          Minted(s, RootCert(s).value, e.purpose, e.cn, e.c), s.now, e.c.written)
  {
    hide Config.Slug, MintFiles, WithGeneration, CnIsTaken, FreshKey, Apart;
  }

  lemma MadeIsNew(s: State, e: Event)
    requires Lineage(s.db, s.h.tops) && Enabled(s, e) && (e.Renew? || e.Add?)
    ensures var (id, prefix) := Made(s, e);
            && id !in s.db.gens && id.purpose != ROOT
            && (if id.purpose in s.db.prefixes then prefix == s.db.prefixes[id.purpose]
                else forall p :: p in s.db.prefixes ==> Apart(s.db.prefixes[p], prefix))
  {
    if e.Renew? { ActiveIsTheTop(s.db, s.h.tops, e.purpose); }
    hide Config.Slug, CnIsTaken, FreshKey, Apart;
  }

  lemma CeremonyKeeps(s: State, e: Event, id: GenId)
    requires Lineage(s.db, s.h.tops) && Slugged(s.db) && PrefixesApart(s.db.prefixes)
    requires Enabled(s, e) && (e.Renew? || e.Add?) && id in s.db.gens
    ensures Keeps(s.files, Next(s, e).files, s.db.gens[id].slug)
  {
    hide Lineage, Slugged, PrefixesApart, MintFiles, Enabled, Next, Made, Keeps, RootCert, Minted, Apart;
    MadeIsNew(s, e);
    CeremonyFiles(s, e);
    var (made, prefix) := Made(s, e);
    CeremonySlugIsFree(s.db, s.h.tops, made, prefix);
    var c := Minted(s, RootCert(s).value, e.purpose, e.cn, e.c);
    MintKeeps(s.files, Config.Slug(prefix, made.gen), c, s.now, e.c.written, s.db.gens[id].slug);
  }

  lemma FilesKept(s: State, e: Event, id: GenId)
    requires Lineage(s.db, s.h.tops) && Slugged(s.db) && PrefixesApart(s.db.prefixes) && Enabled(s, e)
    requires id in s.db.gens
    ensures Keeps(s.files, Next(s, e).files, s.db.gens[id].slug)
  {
    hide Lineage, Slugged, PrefixesApart, Keeps, RewriteCrl, Config.Slug;
    var slug := s.db.gens[id].slug;
    match e
    case Revoke(fp, _) =>
      RewriteKeeps(s.db, s.files, s.db.gens[GenByCn(s.db.gens, s.db.certs[fp].issuerCn).value].slug, s.now, [fp], slug);
    case RevokeCa(cn, _) =>
      var v := LoadCaCert(s.files, s.db.gens[GenByCn(s.db.gens, cn).value].slug).value.fp;
      RewriteKeeps(s.db, s.files, s.db.gens[ActiveOf(s.db.gens, ROOT).value].slug, s.now, [v], slug);
    case Renew(_, _, _) => hide Enabled, Next; CeremonyKeeps(s, e, id);
    case Add(_, _, _, _) => hide Enabled, Next; CeremonyKeeps(s, e, id);
    case Refresh(_, written) => RefreshKeeps(s, written, slug);
    case _ => hide Next; SameFilesKeep(s, e, slug);
  }

  lemma SameFilesKeep(s: State, e: Event, slug: string)
    requires Enabled(s, e) && (e.Tick? || e.Begin? || e.Issue? || e.Drop? || e.Collect?)
    ensures Keeps(s.files, Next(s, e).files, slug)
  {
  }

  lemma PublicationStays(db: Db, files: Files, own: map<GenId, nat>, after: Db, files': Files, own': map<GenId, nat>, id: GenId)
    requires id in db.gens && IsPublished(db, files, own, id) && Grows(db, after)
    requires Keeps(files, files', db.gens[id].slug) && forall i :: i in own ==> i in own' && own'[i] == own[i]
    ensures id in after.gens && IsPublished(after, files', own', id)
  {
  }

  /** Only a ceremony that wrote all its files adds a generation. */
  lemma NewGenerationIsPublished(s: State, e: Event)
    requires Enabled(s, e) && WriteOf(s, e).AddGeneration?
    ensures var s', id := Next(s, e), WriteOf(s, e).id;
            id in s'.db.gens && IsPublished(s'.db, s'.files, s'.h.own, id)
  {
    hide Config.Slug, CnIsTaken, FreshKey, Apart;
  }

  lemma PublishedKept(s: State, e: Event)
    requires Lineage(s.db, s.h.tops) && Slugged(s.db) && PrefixesApart(s.db.prefixes)
    requires Published(s.db, s.files, s.h.own) && Enabled(s, e) && NewRow(s, WriteOf(s, e))
    ensures Published(Next(s, e).db, Next(s, e).files, Next(s, e).h.own)
  {
    hide Lineage, Slugged, PrefixesApart, Next, Enabled, WriteOf, ApplyDb, Recorded, IsPublished, Keeps, Grows,
         NewRow, NewCert;
    var w, s' := WriteOf(s, e), Next(s, e);
    StepWrites(s, e);
    WritesGrow(s, w, SignerOf(s, e));
    forall id | id in s'.db.gens ensures IsPublished(s'.db, s'.files, s'.h.own, id) {
      if id in s.db.gens {
        FilesKept(s, e, id);
        PublicationStays(s.db, s.files, s.h.own, s'.db, s'.files, s'.h.own, id);
      } else {
        NewGenerationIsPublished(s, e);
      }
    }
  }

  lemma ThreadsKept(s: State, e: Event)
    requires Published(s.db, s.files, s.h.own) && ThreadsHold(s.threads, s.db, s.h.own) && Enabled(s, e)
    requires NewRow(s, WriteOf(s, e))
    ensures ThreadsHold(Next(s, e).threads, Next(s, e).db, Next(s, e).h.own)
  {
    hide Next, Enabled, WriteOf, SignerOf, ApplyDb, Recorded, Published, NewRow, Holds, Grows, RecordGrows;
    var s' := Next(s, e);
    StepWrites(s, e);
    WritesGrow(s, WriteOf(s, e), SignerOf(s, e));
    OwnIsRecorded(s, e);
    forall t | t in s'.threads ensures Holds(s'.threads[t], s'.db, s'.h.own) {
      ThreadHolds(s, e, t);
      HoldsOn(s'.threads[t], s.db, s.h, s'.db, Recorded(s.h, WriteOf(s, e), SignerOf(s, e)));
    }
  }

  lemma OwnIsRecorded(s: State, e: Event)
    requires Enabled(s, e)
    ensures Next(s, e).h.own == Recorded(s.h, WriteOf(s, e), SignerOf(s, e)).own
  {
    hide Next, Enabled, WriteOf, SignerOf, Recorded, ApplyDb;
    StepWrites(s, e);
  }

  lemma HoldsOn(thread: Thread, db: Db, h: History, after: Db, later: History)
    requires Holds(thread, db, h.own) && Grows(db, after) && RecordGrows(h, later)
    ensures Holds(thread, after, later.own)
  {
  }

  lemma ThreadHolds(s: State, e: Event, t: nat)
    requires Published(s.db, s.files, s.h.own) && ThreadsHold(s.threads, s.db, s.h.own) && Enabled(s, e)
    requires t in Next(s, e).threads
    ensures Holds(Next(s, e).threads[t], s.db, s.h.own)
  {
    hide Config.Slug, MintFiles, AppendCrl, WithGeneration;
    if e.Begin? && t == e.tid {
      assert IsPublished(s.db, s.files, s.h.own, ActiveOf(s.db.gens, e.purpose).value);
    } else if e.Collect? && t == e.tid {
      hide Published, ThreadsHold;
    } else {
      assert t in s.threads && Next(s, e).threads[t] == s.threads[t];
    }
  }

  // ---------------------------------------------------------------- runs

  lemma TablesKept(s: State, e: Event)
    requires TablesInv(s) && Published(s.db, s.files, s.h.own) && ThreadsHold(s.threads, s.db, s.h.own) && Enabled(s, e)
    ensures TablesInv(Next(s, e)) && NewRow(s, WriteOf(s, e))
  {
    hide Lineage, Slugged, PrefixesApart, NamesDistinct, Owns, Origins, KeysDistinct, StatusesMatch, Published,
         ThreadsHold;
    hide Next, Enabled, WriteOf, SignerOf, ApplyDb, Recorded, ProperWrite, NewRow, NewRows;
    var w, signer := WriteOf(s, e), SignerOf(s, e);
    StepWrites(s, e);
    WritesAreProper(s, e);
    RowsAreNew(s, w, signer);
    LineageKept(s, w, signer);
    SluggedKept(s, w, signer);
    PrefixesKept(s, w, signer);
    NamesKept(s, w, signer);
    KeysKept(s, w, signer);
    StatusesKept(s, w, signer);
    CertificatesKept(s, e);
  }

  lemma CertificatesKept(s: State, e: Event)
    requires Owns(s.db, s.h) && Origins(s.db, s.h, s.nextFp) && Enabled(s, e)
    requires NewRow(s, WriteOf(s, e)) && ProperWrite(s, WriteOf(s, e), SignerOf(s, e))
    ensures Owns(Next(s, e).db, Next(s, e).h) && Origins(Next(s, e).db, Next(s, e).h, Next(s, e).nextFp)
  {
    hide Owns, Origins, Next, Enabled, WriteOf, SignerOf, ApplyDb, Recorded, ProperWrite, NewRow, NewRows;
    var w, signer := WriteOf(s, e), SignerOf(s, e);
    StepWrites(s, e);
    NumbersAdvance(s, e);
    OwnsKept(s, w, signer);
    OriginsKept(s, w, signer);
    OriginsLoosen(Next(s, e).db, Recorded(s.h, w, signer), s.nextFp + NewRows(w), Next(s, e).nextFp);
    SameOrigins(Next(s, e).db, Recorded(s.h, w, signer), Next(s, e).h, Next(s, e).nextFp);
  }

  lemma NumbersAdvance(s: State, e: Event)
    requires Enabled(s, e)
    ensures s.nextFp + NewRows(WriteOf(s, e)) <= Next(s, e).nextFp
  {
    hide Config.Slug, MintFiles, AppendCrl, WithGeneration, CnIsTaken, FreshKey, Apart;
  }

  lemma OriginsLoosen(db: Db, h: History, n: nat, m: nat)
    requires Origins(db, h, n) && n <= m
    ensures Origins(db, h, m)
  {
    hide Placed;
  }

  lemma SameOrigins(db: Db, h: History, other: History, n: nat)
    requires other.(firsts := h.firsts, commits := h.commits) == h
    ensures Owns(db, h) ==> Owns(db, other)
    ensures Origins(db, h, n) ==> Origins(db, other, n)
  {
    assert other.own == h.own && other.origin == h.origin;
    if Owns(db, h) {
      forall id | id in db.gens ensures OwnCert(db, other, id) { assert OwnCert(db, h, id); }
    }
    if Origins(db, h, n) {
      forall fp | fp in db.certs ensures Placed(db, other, fp) { assert Placed(db, h, fp); }
    }
  }

  lemma NextKeeps(s: State, e: Event)
    requires Inv(s)
    ensures Inv(Next(s, e))
  {
    hide TablesInv, Published, ThreadsHold, Enabled, NewRow, WriteOf;
    if Enabled(s, e) {
      hide Next;
      TablesParts(s);
      TablesKept(s, e);
      PublishedKept(s, e);
      ThreadsKept(s, e);
    }
  }

  lemma {:induction false} RunKeeps(s: State, es: seq<Event>)
    requires Inv(s)
    ensures Inv(Run(s, es))
    decreases |es|
  {
    hide Inv, Next;
    if es != [] {
      NextKeeps(s, es[0]);
      RunKeeps(Next(s, es[0]), es[1..]);
    }
  }

  lemma TablesParts(s: State)
    requires TablesInv(s)
    ensures Lineage(s.db, s.h.tops) && Slugged(s.db) && PrefixesApart(s.db.prefixes) && NamesDistinct(s.db.gens)
    ensures Owns(s.db, s.h) && Origins(s.db, s.h, s.nextFp) && KeysDistinct(s.db.certs) && StatusesMatch(s.db, s.h.own)
  {
  }

  // ---------------------------------------------------------------- the first ceremony

  lemma FirstRows(sections: map<string, Section>, now: int, p: string)
    requires Accepted(sections) && p in sections
    ensures sections[p].fp in FirstHistory(sections).origin && FirstHistory(sections).origin[sections[p].fp] == GenId(p, 1)
    ensures sections[p].fp in FirstDb(sections, now).certs
    ensures FirstDb(sections, now).certs[sections[p].fp] == FirstCert(sections, p, now).cert
  {
  }

  lemma FirstCertsAre(sections: map<string, Section>, now: int, fp: nat) returns (p: string)
    requires Accepted(sections) && fp in FirstDb(sections, now).certs
    ensures p in sections && sections[p].fp == fp
  {
    p :| p in sections && sections[p].fp == fp;
  }

  lemma FirstLineage(sections: map<string, Section>, now: int)
    requires Accepted(sections)
    ensures Lineage(FirstDb(sections, now), FirstHistory(sections).tops) && Slugged(FirstDb(sections, now))
  {
  }

  lemma FirstNames(sections: map<string, Section>, now: int)
    requires Accepted(sections)
    ensures PrefixesApart(FirstDb(sections, now).prefixes) && NamesDistinct(FirstDb(sections, now).gens)
  {
    hide FirstSlug, Apart;
    var gens := FirstDb(sections, now).gens;
    forall a, b | a in gens && b in gens && gens[a].cn == gens[b].cn ensures a == b {
      assert sections[a.purpose].cn == sections[b.purpose].cn && a.gen == 1 == b.gen;
    }
  }

  lemma FirstOwns(sections: map<string, Section>, now: int)
    requires Accepted(sections)
    ensures Owns(FirstDb(sections, now), FirstHistory(sections))
  {
    var db, h := FirstDb(sections, now), FirstHistory(sections);
    forall id | id in db.gens ensures OwnCert(db, h, id) { FirstRows(sections, now, id.purpose); }
  }

  lemma FirstOrigins(sections: map<string, Section>, now: int, nextFp: nat)
    requires Accepted(sections) && Numbered(sections, nextFp)
    ensures Origins(FirstDb(sections, now), FirstHistory(sections), nextFp)
  {
    var db, h := FirstDb(sections, now), FirstHistory(sections);
    forall fp | fp in db.certs ensures fp < nextFp && fp in h.origin && Placed(db, h, fp) {
      var p := FirstCertsAre(sections, now, fp);
      FirstRows(sections, now, p);
    }
  }

  lemma FirstKeys(sections: map<string, Section>, now: int)
    requires Accepted(sections)
    ensures KeysDistinct(FirstDb(sections, now).certs)
  {
    var certs := FirstDb(sections, now).certs;
    forall a, b | a in certs && b in certs && certs[a].ski == certs[b].ski ensures a == b {
      var p := FirstCertsAre(sections, now, a);
      var q := FirstCertsAre(sections, now, b);
      FirstRows(sections, now, p);
      FirstRows(sections, now, q);
    }
  }

  lemma FirstPublished(sections: map<string, Section>, now: int)
    requires Accepted(sections)
    ensures Published(FirstDb(sections, now), FirstFiles(sections, now), FirstHistory(sections).own)
  {
    var db, files, own := FirstDb(sections, now), FirstFiles(sections, now), FirstHistory(sections).own;
    forall id | id in db.gens ensures IsPublished(db, files, own, id) {
      FirstRows(sections, now, id.purpose);
      FirstFile(sections, now, id.purpose);
    }
  }

  lemma FirstFile(sections: map<string, Section>, now: int, p: string)
    requires Accepted(sections) && p in sections
    ensures FirstSlug(sections, p) in FirstFiles(sections, now)
    ensures FirstFiles(sections, now)[FirstSlug(sections, p)] == FirstArtifacts(FirstCert(sections, p, now), now)
  {
    FirstSlugsDiffer(sections);
    hide FirstSlug, Apart;
  }

  lemma FirstStatuses(sections: map<string, Section>, now: int)
    requires Accepted(sections)
    ensures StatusesMatch(FirstDb(sections, now), FirstHistory(sections).own)
  {
    hide FirstSlug, Apart;
  }

  lemma InitOk(sections: map<string, Section>, now: int, nextFp: nat)
    requires Accepted(sections) && Numbered(sections, nextFp)
    ensures Inv(Init(sections, now, nextFp))
  {
    hide Lineage, Slugged, PrefixesApart, NamesDistinct, Owns, Origins, KeysDistinct, StatusesMatch, Published, Accepted,
         FirstDb, FirstFiles, FirstHistory, Numbered;
    FirstLineage(sections, now);
    FirstNames(sections, now);
    FirstOwns(sections, now);
    FirstOrigins(sections, now, nextFp);
    FirstKeys(sections, now);
    FirstStatuses(sections, now);
    FirstPublished(sections, now);
  }

  lemma {:induction false} ReachableInInv(s: State, steps: nat)
    requires ReachableIn(s, steps)
    ensures Inv(s)
    decreases steps
  {
    hide Inv, Next, Init, Accepted, CaStore.Numbered;
    if steps == 0 {
      var sections: map<string, Section> :|
        Accepted(sections) && CaStore.Numbered(sections, s.nextFp) && s == Init(sections, s.now, s.nextFp);
      InitOk(sections, s.now, s.nextFp);
    } else {
      var before: State, e: Event :| ReachableIn(before, steps - 1) && s == Next(before, e);
      ReachableInInv(before, steps - 1);
      NextKeeps(before, e);
    }
  }

  lemma ReachableInv(s: State)
    requires Reachable(s)
    ensures Inv(s)
  {
    hide Inv, ReachableIn;
    var steps: nat :| ReachableIn(s, steps);
    ReachableInInv(s, steps);
  }

  // ---------------------------------------------------------------- what the store promises

  lemma NumberedToTheTop(db: Db, tops: map<string, nat>, purpose: string)
    requires Lineage(db, tops) && purpose in db.prefixes
    ensures purpose in tops && tops[purpose] >= 1
    ensures forall g: nat :: GenId(purpose, g) in db.gens <==> 1 <= g <= tops[purpose]
    ensures forall g: nat :: 1 <= g < tops[purpose] ==> db.gens[GenId(purpose, g)].status != Active
  {
  }

  /** The generations of a created CA are 1 to n, the last one is active and no other is. */
  lemma GenerationsAreNumbered(s: State, purpose: string) returns (n: nat)
    requires Reachable(s) && purpose in s.db.prefixes
    ensures n >= 1 && forall g: nat :: GenId(purpose, g) in s.db.gens <==> 1 <= g <= n
    ensures ActiveOf(s.db.gens, purpose) == Some(GenId(purpose, n))
    ensures forall g: nat :: 1 <= g < n ==> s.db.gens[GenId(purpose, g)].status != Active
  {
    ReachableInv(s);
    TablesParts(s);
    hide Reachable, Inv, TablesInv, Lineage, Slugged, PrefixesApart, NamesDistinct, Owns, Origins, KeysDistinct,
         StatusesMatch;
    NumberedToTheTop(s.db, s.h.tops, purpose);
    ActiveIsTheTop(s.db, s.h.tops, purpose);
    n := s.h.tops[purpose];
  }

  /** The files under a generation's slug hold its certificate, the only CA certificate of its name in the index. */
  lemma FilesMatchTheIndex(s: State, id: GenId) returns (fp: nat)
    requires Reachable(s) && id in s.db.gens
    ensures fp in s.db.certs && s.db.certs[fp].kind == KindOf(id.purpose) && s.db.certs[fp].cn == s.db.gens[id].cn
    ensures forall other :: other in s.db.certs && !s.db.certs[other].kind.Leaf? && s.db.certs[other].cn == s.db.gens[id].cn
                            ==> other == fp
    ensures var slug := s.db.gens[id].slug;
            && slug in s.files && HasCrl(s.files, slug)
            && s.files[slug].pem == Some(Stored(fp, s.db.certs[fp])) == s.files[slug].crt
    ensures forall other :: other in s.db.gens && s.db.gens[other].slug == s.db.gens[id].slug ==> other == id
  {
    ReachableInv(s);
    TablesParts(s);
    OwnNames(s, id);
    assert IsPublished(s.db, s.files, s.h.own, id);
    fp := s.h.own[id];
    hide TablesInv, Published, ThreadsHold, Reachable, Lineage, KeysDistinct, StatusesMatch;
    forall other | other in s.db.certs && !s.db.certs[other].kind.Leaf? && s.db.certs[other].cn == s.db.gens[id].cn
      ensures other == fp
    {
      CaCertIsOwn(s, other);
    }
    forall other | other in s.db.gens && s.db.gens[other].slug == s.db.gens[id].slug ensures other == id {
      SlugIsItsOwn(s.db, other, id);
    }
  }

  lemma CaCertIsOwn(s: State, fp: nat)
    requires Owns(s.db, s.h) && Origins(s.db, s.h, s.nextFp) && fp in s.db.certs && !s.db.certs[fp].kind.Leaf?
    ensures var id := s.h.origin[fp]; id in s.db.gens && s.h.own[id] == fp && s.db.certs[fp].cn == s.db.gens[id].cn
  {
    assert Placed(s.db, s.h, fp) && OwnCert(s.db, s.h, s.h.origin[fp]);
  }

  /** Names tell generations apart, so an issuer name finds the generation that signed, however many came since. */
  lemma IssuerNameFindsTheSigner(s: State, fp: nat)
    requires Reachable(s) && fp in s.db.certs && s.db.certs[fp].kind.Leaf?
    ensures fp in s.h.origin && GenByCn(s.db.gens, s.db.certs[fp].issuerCn) == Some(s.h.origin[fp])
  {
    ReachableInv(s);
    TablesParts(s);
    assert Placed(s.db, s.h, fp);
    LookupFinds(s.db.gens, s.h.origin[fp]);
  }

  lemma BeginReads(s: State, t: nat, purpose: string)
    requires Enabled(s, Begin(t, purpose))
    ensures t in Next(s, Begin(t, purpose)).threads && Next(s, Begin(t, purpose)).threads[t].Issuing?
    ensures Next(s, Begin(t, purpose)).threads[t].id == ActiveOf(s.db.gens, purpose).value
  {
  }

  lemma IssueRecords(s: State, t: nat, cn: string, profile: string, life: nat, ski: nat)
    requires Enabled(s, Issue(t, cn, profile, life, ski))
    ensures t in s.threads && s.threads[t].Issuing? && s.nextFp in Next(s, Issue(t, cn, profile, life, ski)).h.origin
    ensures Next(s, Issue(t, cn, profile, life, ski)).h.origin[s.nextFp] == s.threads[t].id
  {
  }

  /** The recorded origin of a leaf is the generation that was active when the command issuing it began. */
  lemma LeavesComeFromTheActive(
      s: State, t: nat, purpose: string, waiting: seq<Event>, cn: string, profile: string, life: nat, ski: nat)
    requires Enabled(s, Begin(t, purpose)) && forall e :: e in waiting ==> !((e.Begin? || e.Issue? || e.Drop?) && e.tid == t)
    requires Enabled(Run(Next(s, Begin(t, purpose)), waiting), Issue(t, cn, profile, life, ski))
    ensures var later := Run(Next(s, Begin(t, purpose)), waiting);
            && ActiveOf(s.db.gens, purpose).Some? && later.nextFp in Next(later, Issue(t, cn, profile, life, ski)).h.origin
            && Next(later, Issue(t, cn, profile, life, ski)).h.origin[later.nextFp] == ActiveOf(s.db.gens, purpose).value
  {
    assert ActiveOf(s.db.gens, purpose).Some?;
    hide Enabled, Next;
    BeginReads(s, t, purpose);
    ThreadWaits(Next(s, Begin(t, purpose)), waiting, t);
    IssueRecords(Run(Next(s, Begin(t, purpose)), waiting), t, cn, profile, life, ski);
  }

  /** The event neither drops the command on thread `t` nor finishes it. */
  predicate Spares(thread: Thread, e: Event, t: nat) {
    match e
    case Issue(u, _, _, _, _) => u != t || thread.Refreshing?
    case Refresh(u, _) => u != t || thread.Issuing?
    case Drop(u) => u != t
    case _ => true
  }

  lemma {:induction false} ThreadWaits(s: State, es: seq<Event>, t: nat)
    requires t in s.threads && forall e :: e in es ==> Spares(s.threads[t], e, t)
    ensures t in Run(s, es).threads && Run(s, es).threads[t] == s.threads[t]
    decreases |es|
  {
    if es != [] {
      assert es[0] in es;
      ThreadUntouched(s, es[0], t);
      hide Next;
      ThreadWaits(Next(s, es[0]), es[1..], t);
    }
  }

  lemma ThreadUntouched(s: State, e: Event, t: nat)
    requires t in s.threads && Spares(s.threads[t], e, t)
    ensures t in Next(s, e).threads && Next(s, e).threads[t] == s.threads[t]
  {
    hide Config.Slug, MintFiles, AppendCrl, WithGeneration;
  }

  // ---------------------------------------------------------------- statuses over a run

  /** What one step may make of a status: a retired generation never comes back, an active one is never revoked. */
  predicate StatusMoves(before: Status, after: Status) {
    before == after || (before.Active? && after.Retiring?) || (before.Retiring? && after.Revoked?)
  }

  lemma RowMoves(s: State, w: DbWrite, signer: GenId, id: GenId)
    requires Lineage(s.db, s.h.tops) && NewRow(s, w) && ProperWrite(s, w, signer) && id in s.db.gens
    ensures id in ApplyDb(s.db, w).gens && StatusMoves(s.db.gens[id].status, ApplyDb(s.db, w).gens[id].status)
    ensures ApplyDb(s.db, w).gens[id].cn == s.db.gens[id].cn && ApplyDb(s.db, w).gens[id].slug == s.db.gens[id].slug
  {
    hide Config.Slug, Lineage, LeafKey, FreshKey, CnIsTaken, Apart;
  }

  lemma StepMoves(s: State, e: Event, id: GenId)
    requires Inv(s) && id in s.db.gens
    ensures id in Next(s, e).db.gens && StatusMoves(s.db.gens[id].status, Next(s, e).db.gens[id].status)
    ensures Next(s, e).db.gens[id].cn == s.db.gens[id].cn && Next(s, e).db.gens[id].slug == s.db.gens[id].slug
  {
    hide TablesInv, Published, ThreadsHold, Lineage, Slugged, PrefixesApart, NamesDistinct, Owns, Origins, KeysDistinct,
         StatusesMatch, Next, Enabled, WriteOf, ApplyDb, ProperWrite, NewRow, SignerOf;
    if Enabled(s, e) {
      InvParts(s, id);
      WritesAreProper(s, e);
      RowsAreNew(s, WriteOf(s, e), SignerOf(s, e));
      RowMoves(s, WriteOf(s, e), SignerOf(s, e), id);
      StepWrites(s, e);
    } else {
      RefusedIsNothing(s, e);
      assert StatusMoves(s.db.gens[id].status, s.db.gens[id].status);
    }
  }

  /** In every run a step retires an active generation, revokes a retired one, or leaves its status alone. */
  lemma GenerationsMove(s: State, e: Event, id: GenId)
    requires Reachable(s) && id in s.db.gens
    ensures id in Next(s, e).db.gens && StatusMoves(s.db.gens[id].status, Next(s, e).db.gens[id].status)
    ensures Next(s, e).db.gens[id].cn == s.db.gens[id].cn && Next(s, e).db.gens[id].slug == s.db.gens[id].slug
  {
    hide Reachable, Inv, Next, StatusMoves;
    ReachableInv(s);
    StepMoves(s, e, id);
  }

  function Rank(status: Status): nat {
    match status case Active => 0 case Retiring => 1 case Revoked => 2
  }

  /** Still there, with its name and slug, and no nearer to active than before. */
  ghost predicate Aged(gens: map<GenId, Gen>, later: map<GenId, Gen>, id: GenId)
    requires id in gens
  {
    && id in later && later[id].cn == gens[id].cn && later[id].slug == gens[id].slug
    && Rank(gens[id].status) <= Rank(later[id].status)
  }

  lemma {:induction false} RunAges(s: State, es: seq<Event>, id: GenId)
    requires Inv(s) && id in s.db.gens
    ensures Aged(s.db.gens, Run(s, es).db.gens, id)
    decreases |es|
  {
    hide Inv, Next;
    if es != [] {
      StepMoves(s, es[0], id);
      NextKeeps(s, es[0]);
      RunAges(Next(s, es[0]), es[1..], id);
    }
  }

  lemma GenerationsOnlyAge(s: State, es: seq<Event>, id: GenId)
    requires Reachable(s) && id in s.db.gens
    ensures Aged(s.db.gens, Run(s, es).db.gens, id)
  {
    hide Reachable, Inv, Run, Aged;
    ReachableInv(s);
    RunAges(s, es, id);
  }

  /** The purpose a command is about. */
  ghost predicate Touches(s: State, e: Event, purpose: string) {
    match e
    case Revoke(fp, _) => fp in s.h.origin && s.h.origin[fp].purpose == purpose
    case RevokeCa(cn, _) => GenByCn(s.db.gens, cn).Some? && (GenByCn(s.db.gens, cn).value.purpose == purpose || purpose == ROOT)
    case Renew(p, _, _) => p == purpose
    case Add(p, _, _, _) => p == purpose
    case Refresh(t, _) => t in s.threads && s.threads[t].Refreshing? && InScope(s.threads[t].scope, purpose)
    case _ => false
  }

  /** A command about one purpose leaves the generations and the files of every other alone. */
  lemma OtherPurposesUntouched(s: State, e: Event, id: GenId)
    requires Reachable(s) && id in s.db.gens && !Touches(s, e, id.purpose)
    ensures id in Next(s, e).db.gens && Next(s, e).db.gens[id] == s.db.gens[id]
    ensures s.db.gens[id].slug in s.files && s.db.gens[id].slug in Next(s, e).files
    ensures Next(s, e).files[s.db.gens[id].slug] == s.files[s.db.gens[id].slug]
  {
    hide Inv, Reachable, Touches, Enabled, Next, Lineage, Slugged, PrefixesApart, NamesDistinct, Owns, Origins;
    ReachableInv(s);
    InvParts(s, id);
    if Enabled(s, e) {
      OtherRowsUntouched(s, e, id);
      OtherFilesUntouched(s, e, id);
    } else {
      RefusedIsNothing(s, e);
    }
  }

  lemma RefusedIsNothing(s: State, e: Event)
    requires !Enabled(s, e)
    ensures Next(s, e) == s
  {
  }

  lemma OtherRowsUntouched(s: State, e: Event, id: GenId)
    requires Inv(s) && Enabled(s, e) && id in s.db.gens && !Touches(s, e, id.purpose)
    ensures id in Next(s, e).db.gens && Next(s, e).db.gens[id] == s.db.gens[id]
  {
    hide Inv, Config.Slug, MintFiles, AppendCrl, CnIsTaken, FreshKey, Apart;
  }

  ghost predicate SameFiles(s: State, e: Event, slug: string) {
    slug in s.files && slug in Next(s, e).files && Next(s, e).files[slug] == s.files[slug]
  }

  lemma OtherFilesUntouched(s: State, e: Event, id: GenId)
    requires Inv(s) && Enabled(s, e) && id in s.db.gens && !Touches(s, e, id.purpose)
    ensures SameFiles(s, e, s.db.gens[id].slug)
  {
    hide Inv, TablesInv, Published, ThreadsHold, Lineage, Owns, KeysDistinct, StatusesMatch, Slugged, PrefixesApart,
         NamesDistinct, Origins, IsPublished, SameFiles, Next, Enabled, Touches;
    InvParts(s, id);
    match e
    case Revoke(fp, _) => RevokeSparesOthers(s, e, id);
    case RevokeCa(cn, _) => RootCrlSparesOthers(s, e, id);
    case Renew(_, _, _) => CeremonySparesOthers(s, e, id);
    case Add(_, _, _, _) => CeremonySparesOthers(s, e, id);
    case Refresh(_, _) => InvThreads(s); RefreshSparesOthers(s, e, id);
    case _ => QuietStepsSpareFiles(s, e, id);
  }

  lemma InvThreads(s: State)
    requires Inv(s)
    ensures ThreadsHold(s.threads, s.db, s.h.own)
  {
  }

  lemma InvParts(s: State, id: GenId)
    requires Inv(s) && id in s.db.gens
    ensures Lineage(s.db, s.h.tops) && Slugged(s.db) && PrefixesApart(s.db.prefixes) && NamesDistinct(s.db.gens)
    ensures Owns(s.db, s.h) && Origins(s.db, s.h, s.nextFp) && s.db.gens[id].slug in s.files
  {
    assert IsPublished(s.db, s.files, s.h.own, id);
  }

  lemma QuietStepsSpareFiles(s: State, e: Event, id: GenId)
    requires Enabled(s, e) && (e.Tick? || e.Begin? || e.Issue? || e.Drop? || e.Collect?) && id in s.db.gens
    requires s.db.gens[id].slug in s.files
    ensures SameFiles(s, e, s.db.gens[id].slug)
  {
  }

  lemma RevokeSparesOthers(s: State, e: Event, id: GenId)
    requires NamesDistinct(s.db.gens) && Slugged(s.db) && PrefixesApart(s.db.prefixes) && Origins(s.db, s.h, s.nextFp)
    requires e.Revoke? && Enabled(s, e) && id in s.db.gens && s.db.gens[id].slug in s.files
    requires !Touches(s, e, id.purpose)
    ensures SameFiles(s, e, s.db.gens[id].slug)
  {
    hide NamesDistinct, Origins, Slugged, PrefixesApart, Next, Enabled, AppendCrl;
    RevokeFiles(s, e);
    LeafIsFrom(s, e.fp);
    if s.db.gens[s.h.origin[e.fp]].slug == s.db.gens[id].slug { SlugIsItsOwn(s.db, s.h.origin[e.fp], id); }
  }

  lemma RevokeFiles(s: State, e: Event)
    requires e.Revoke? && Enabled(s, e)
    ensures e.fp in s.db.certs && s.db.certs[e.fp].kind.Leaf? && GenByCn(s.db.gens, s.db.certs[e.fp].issuerCn).Some?
    ensures var slug := s.db.gens[GenByCn(s.db.gens, s.db.certs[e.fp].issuerCn).value].slug;
            HasCrl(s.files, slug) && Next(s, e).files == RewriteCrl(s.db, s.files, slug, s.now, [e.fp])
  {
  }

  lemma LeafIsFrom(s: State, fp: nat)
    requires NamesDistinct(s.db.gens) && Origins(s.db, s.h, s.nextFp) && fp in s.db.certs && s.db.certs[fp].kind.Leaf?
    ensures fp in s.h.origin && s.h.origin[fp] in s.db.gens && s.h.origin[fp].purpose != ROOT
    ensures GenByCn(s.db.gens, s.db.certs[fp].issuerCn) == Some(s.h.origin[fp])
  {
    assert Placed(s.db, s.h, fp);
    LookupFinds(s.db.gens, s.h.origin[fp]);
  }

  lemma RootCrlSparesOthers(s: State, e: Event, id: GenId)
    requires Slugged(s.db) && PrefixesApart(s.db.prefixes) && e.RevokeCa? && Enabled(s, e) && id in s.db.gens
    requires s.db.gens[id].slug in s.files && !Touches(s, e, id.purpose)
    ensures SameFiles(s, e, s.db.gens[id].slug)
  {
    var root := ActiveOf(s.db.gens, ROOT).value;
    hide Slugged, PrefixesApart, AppendCrl;
    if s.db.gens[root].slug == s.db.gens[id].slug { SlugIsItsOwn(s.db, root, id); }
  }

  lemma CeremonySparesOthers(s: State, e: Event, id: GenId)
    requires Lineage(s.db, s.h.tops) && Slugged(s.db) && PrefixesApart(s.db.prefixes)
    requires Enabled(s, e) && (e.Renew? || e.Add?) && id in s.db.gens && s.db.gens[id].slug in s.files
    ensures SameFiles(s, e, s.db.gens[id].slug)
  {
    hide Lineage, Slugged, PrefixesApart, Enabled, Next, Made, RootCert, Minted, Apart, Config.Slug;
    MadeIsNew(s, e);
    CeremonyFiles(s, e);
    CeremonySlugIsFree(s.db, s.h.tops, Made(s, e).0, Made(s, e).1);
  }

  lemma RefreshSparesOthers(s: State, e: Event, id: GenId)
    requires Slugged(s.db) && PrefixesApart(s.db.prefixes) && Enabled(s, e) && e.Refresh? && id in s.db.gens
    requires ThreadsHold(s.threads, s.db, s.h.own)
    requires !Touches(s, e, id.purpose) && s.db.gens[id].slug in s.files
    ensures SameFiles(s, e, s.db.gens[id].slug)
  {
    forall other | other in e.written ensures s.db.gens[other].slug != s.db.gens[id].slug {
      assert Holds(s.threads[e.tid], s.db, s.h.own) && other in s.threads[e.tid].jobs;
      if s.db.gens[other].slug == s.db.gens[id].slug { SlugIsItsOwn(s.db, other, id); }
    }
    hide Slugged, PrefixesApart, AppendCrl;
  }
}
