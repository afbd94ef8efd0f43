/**
 The CRLs a generation publishes over every run: which certificates each carries,
 what a crash between the CRL and the index leaves behind, and what a refresh
 rewrites.
 */
module CaCrl {
  import opened Strings
  import opened CaStore
  import opened CaLineage
  import Config

  const ROOT_ID: GenId := GenId(ROOT, 1)

  /** The generation whose CRL carries a certificate once it is revoked: its issuer. */
  ghost function Carrier(db: Db, h: History, fp: nat): GenId
    requires fp in db.certs && fp in h.origin
  {
    if db.certs[fp].kind.Leaf? then h.origin[fp] else ROOT_ID
  }

  ghost function CrlsOf(s: State, id: GenId): seq<Crl>
    requires id in s.db.gens
  {
    if s.db.gens[id].slug in s.files then s.files[s.db.gens[id].slug].crls else []
  }

  function Get(m: map<nat, nat>, fp: nat): Option<nat> {
    if fp in m then Some(m[fp]) else None
  }

  // ---------------------------------------------------------------- the story of one certificate

  /**
   A certificate is on no CRL before the first that carried it, on all from there
   to the one its revocation was completed with, and after that on each whose
   predecessor carried it and was not issued past its expiry.
   */
  ghost predicate Story(crls: seq<Crl>, fp: nat, notAfter: int, first: Option<nat>, commit: Option<nat>) {
    && (first.None? ==> commit.None?)
    && (first.Some? ==> first.value < |crls|)
    && (commit.Some? ==> first.value <= commit.value < |crls|)
    && (forall i :: 0 <= i < |crls| && (first.None? || i < first.value) ==> fp !in crls[i].entries)
    && (forall i :: 0 <= i < |crls| && first.Some? && first.value <= i && (commit.None? || i <= commit.value) ==> fp in crls[i].entries)
    && (forall i :: 0 < i < |crls| && commit.Some? && commit.value < i ==>
          (fp in crls[i].entries <==> fp in crls[i - 1].entries && notAfter >= crls[i - 1].thisUpdate))
  }

  lemma {:induction false} PruneKeeps(db: Db, entries: seq<nat>, thisUpdate: int, fp: nat)
    ensures fp in Prune(db, entries, thisUpdate) <==> fp in entries && !Prunable(db, fp, thisUpdate)
  {
    if entries != [] {
      PruneKeeps(db, entries[..|entries| - 1], thisUpdate, fp);
      assert entries == entries[..|entries| - 1] + [entries[|entries| - 1]];
    }
  }

  lemma NextEntries(db: Db, prev: Crl, now: int, added: seq<nat>, fp: nat)
    ensures fp in NextCrl(db, prev, now, added).entries <==>
              (fp in prev.entries && !Prunable(db, fp, prev.thisUpdate)) || fp in added
  {
    PruneKeeps(db, prev.entries, prev.thisUpdate, fp);
  }

  /** A CRL about other certificates goes on with the story. */
  lemma StoryGoesOn(db: Db, crls: seq<Crl>, now: int, added: seq<nat>, fp: nat, first: Option<nat>, commit: Option<nat>)
    requires crls != [] && fp in db.certs && Story(crls, fp, db.certs[fp].notAfter, first, commit)
    requires (commit.Some? <==> fp in db.revoked) && fp !in added
    ensures Story(crls + [NextCrl(db, crls[|crls| - 1], now, added)], fp, db.certs[fp].notAfter, first, commit)
  {
    NextEntries(db, crls[|crls| - 1], now, added, fp);
  }

  /** A CRL that adds the certificate: the story begins, goes on, or reaches its completion. */
  lemma StoryTurns(db: Db, crls: seq<Crl>, now: int, fp: nat, first: Option<nat>, committed: bool)
    requires crls != [] && fp in db.certs && Story(crls, fp, db.certs[fp].notAfter, first, None) && fp !in db.revoked
    ensures Story(crls + [NextCrl(db, crls[|crls| - 1], now, [fp])], fp, db.certs[fp].notAfter,
                  Some(if first.Some? then first.value else |crls|), if committed then Some(|crls|) else None)
  {
    NextEntries(db, crls[|crls| - 1], now, [fp], fp);
  }

  // ---------------------------------------------------------------- the invariant

  ghost predicate Told(s: State, fp: nat)
    requires fp in s.db.certs
  {
    && fp in s.h.origin && Carrier(s.db, s.h, fp) in s.db.gens
    && Story(CrlsOf(s, Carrier(s.db, s.h, fp)), fp, s.db.certs[fp].notAfter, Get(s.h.firsts, fp), Get(s.h.commits, fp))
  }

  ghost predicate Stories(s: State) {
    forall fp :: fp in s.db.certs && s.db.certs[fp].kind != RootCa ==> Told(s, fp)
  }

  /** The index calls revoked exactly the completed revocations. */
  ghost predicate CommitsMatch(s: State) {
    && s.h.commits.Keys == s.db.revoked
    && (forall fp :: fp in s.h.firsts ==> fp in s.db.certs)
    && s.db.revoked <= s.h.firsts.Keys
  }

  /** A generation's CRLs carry nothing but what it issued, and are numbered from 1. */
  ghost predicate OwnEntries(s: State) {
    forall id, i, fp :: id in s.db.gens && 0 <= i < |CrlsOf(s, id)| && fp in CrlsOf(s, id)[i].entries ==> Carries(s, id, fp)
  }

  ghost predicate Carries(s: State, id: GenId, fp: nat) {
    fp in s.db.certs && s.db.certs[fp].kind != RootCa && fp in s.h.origin && Carrier(s.db, s.h, fp) == id
  }

  ghost predicate Numbered(crls: seq<Crl>) {
    forall i :: 0 <= i < |crls| ==> crls[i].number == i + 1
  }

  ghost predicate AllNumbered(s: State) {
    forall id :: id in s.db.gens ==> Numbered(CrlsOf(s, id))
  }

  ghost predicate CrlInv(s: State) {
    Stories(s) && CommitsMatch(s) && OwnEntries(s) && AllNumbered(s)
  }

  // ---------------------------------------------------------------- what a step does to CRLs

  /** The certificate a step puts on a CRL. */
  ghost function Entered(s: State, e: Event): Option<nat>
    requires Enabled(s, e)
  {
    match e
    case Revoke(fp, _) => Some(fp)
    case RevokeCa(cn, _) => Some(LoadCaCert(s.files, s.db.gens[GenByCn(s.db.gens, cn).value].slug).value.fp)
    case _ => None
  }

  predicate Completes(e: Event) {
    (e.Revoke? || e.RevokeCa?) && e.committed
  }

  /** What a step adds to the CRL of a generation it writes. */
  ghost function AddedTo(s: State, e: Event, id: GenId): seq<nat>
    requires Enabled(s, e)
  {
    var fp := Entered(s, e);
    if fp.Some? && fp.value in s.db.certs && fp.value in s.h.origin && Carrier(s.db, s.h, fp.value) == id then [fp.value] else []
  }

  ghost predicate Extended(s: State, e: Event, id: GenId, before: seq<Crl>, after: seq<Crl>)
    requires Enabled(s, e)
  {
    || (after == before && AddedTo(s, e, id) == [])
    || (before != [] && after == before + [NextCrl(s.db, before[|before| - 1], s.now, AddedTo(s, e, id))])
  }

  lemma RevokeExtends(s: State, e: Event, id: GenId)
    requires NamesDistinct(s.db.gens) && Slugged(s.db) && PrefixesApart(s.db.prefixes) && Origins(s.db, s.h, s.nextFp)
    requires e.Revoke? && Enabled(s, e) && id in s.db.gens && s.db.gens[id].slug in s.files
    ensures s.db.gens[id].slug in Next(s, e).files
    ensures Extended(s, e, id, s.files[s.db.gens[id].slug].crls, Next(s, e).files[s.db.gens[id].slug].crls)
  {
    hide NamesDistinct, Slugged, PrefixesApart, Origins, Next, Enabled, Config.Slug, Prune;
    RevokeFiles(s, e);
    LeafIsFrom(s, e.fp);
    var signer := s.h.origin[e.fp];
    if s.db.gens[signer].slug == s.db.gens[id].slug { SlugIsItsOwn(s.db, signer, id); }
  }

  lemma RevokeCaFiles(s: State, e: Event)
    requires e.RevokeCa? && Enabled(s, e)
    ensures GenByCn(s.db.gens, e.cn).Some? && ActiveOf(s.db.gens, ROOT).Some? && Entered(s, e).Some?
    ensures Entered(s, e).value !in s.db.revoked
    ensures LoadCaCert(s.files, s.db.gens[GenByCn(s.db.gens, e.cn).value].slug).Some?
    ensures LoadCaCert(s.files, s.db.gens[GenByCn(s.db.gens, e.cn).value].slug).value.fp == Entered(s, e).value
    ensures var slug := s.db.gens[ActiveOf(s.db.gens, ROOT).value].slug;
            HasCrl(s.files, slug) && Next(s, e).files == RewriteCrl(s.db, s.files, slug, s.now, [Entered(s, e).value])
  {
    hide Prune, Config.Slug;
  }

  /** The victim of `revoke ca` is the certificate its generation is indexed with. */
  lemma VictimIsOwn(s: State, e: Event)
    requires Owns(s.db, s.h) && Published(s.db, s.files, s.h.own) && Lineage(s.db, s.h.tops) && e.RevokeCa?
    requires Enabled(s, e)
    ensures var id, fp := GenByCn(s.db.gens, e.cn), Entered(s, e);
            && id.Some? && fp.Some? && id.value in s.h.own && fp.value == s.h.own[id.value] && fp.value in s.db.certs
            && s.db.certs[fp.value].kind == SigningCa && fp.value in s.h.origin && s.h.origin[fp.value] == id.value
    ensures ActiveOf(s.db.gens, ROOT) == Some(ROOT_ID)
  {
    hide Next, Enabled, Lineage, OwnCert;
    RevokeCaFiles(s, e);
    var id := GenByCn(s.db.gens, e.cn).value;
    assert IsPublished(s.db, s.files, s.h.own, id);
    OwnNames(s, id);
    OwnOrigin(s, id);
    RootIsOne(s);
  }

  lemma OwnOrigin(s: State, id: GenId)
    requires Owns(s.db, s.h) && id in s.db.gens
    ensures id in s.h.own && s.h.own[id] in s.h.origin && s.h.origin[s.h.own[id]] == id
  {
    assert OwnCert(s.db, s.h, id);
  }

  lemma RootIsOne(s: State)
    requires Lineage(s.db, s.h.tops)
    ensures ROOT_ID in s.db.gens && ActiveOf(s.db.gens, ROOT) == Some(ROOT_ID)
  {
    ActiveIsTheTop(s.db, s.h.tops, ROOT);
  }

  lemma RevokeCaExtends(s: State, e: Event, id: GenId)
    requires Owns(s.db, s.h) && Published(s.db, s.files, s.h.own) && Lineage(s.db, s.h.tops)
    requires Slugged(s.db) && PrefixesApart(s.db.prefixes)
    requires e.RevokeCa? && Enabled(s, e) && id in s.db.gens && s.db.gens[id].slug in s.files
    ensures s.db.gens[id].slug in Next(s, e).files
    ensures Extended(s, e, id, s.files[s.db.gens[id].slug].crls, Next(s, e).files[s.db.gens[id].slug].crls)
  {
    hide Owns, Published, Lineage, Slugged, PrefixesApart, Next, Enabled, Entered, Config.Slug, Prune;
    RevokeCaFiles(s, e);
    VictimIsOwn(s, e);
    if s.db.gens[ROOT_ID].slug == s.db.gens[id].slug { SlugIsItsOwn(s.db, ROOT_ID, id); }
  }

  lemma RefreshExtends(s: State, e: Event, id: GenId)
    requires e.Refresh? && Enabled(s, e) && id in s.db.gens && s.db.gens[id].slug in s.files
    ensures s.db.gens[id].slug in Next(s, e).files
    ensures Extended(s, e, id, s.files[s.db.gens[id].slug].crls, Next(s, e).files[s.db.gens[id].slug].crls)
  {
    hide Prune;
  }

  lemma NothingEntered(s: State, e: Event, id: GenId)
    requires Enabled(s, e) && !e.Revoke? && !e.RevokeCa?
    ensures AddedTo(s, e, id) == [] && Entered(s, e).None?
  {
  }

  lemma CrlsExtend(s: State, e: Event, id: GenId)
    requires Inv(s) && Enabled(s, e) && id in s.db.gens
    ensures s.db.gens[id].slug in s.files && s.db.gens[id].slug in Next(s, e).files
    ensures Extended(s, e, id, s.files[s.db.gens[id].slug].crls, Next(s, e).files[s.db.gens[id].slug].crls)
  {
    hide Inv, Lineage, Slugged, PrefixesApart, NamesDistinct, Owns, Origins, Published, Next, Enabled, AddedTo, Entered;
    InvParts(s, id);
    FilesPublished(s);
    match e
    case Revoke(_, _) => RevokeExtends(s, e, id);
    case RevokeCa(_, _) => RevokeCaExtends(s, e, id);
    case Refresh(_, _) => RefreshExtends(s, e, id);
    case Renew(_, _, _) => CeremonySparesOthers(s, e, id); NothingEntered(s, e, id);
    case Add(_, _, _, _) => CeremonySparesOthers(s, e, id); NothingEntered(s, e, id);
    case _ => QuietStepsSpareFiles(s, e, id); NothingEntered(s, e, id);
  }

  lemma FilesPublished(s: State)
    requires Inv(s)
    ensures Published(s.db, s.files, s.h.own)
  {
  }

  lemma InvTables(s: State)
    requires Inv(s)
    ensures TablesInv(s)
  {
  }

  /** The step entered `fp` on its carrier's next CRL, and marked it revoked if it completed. */
  ghost predicate Noted(s: State, s': State, fp: nat, completed: bool) {
    && fp in s.db.certs && s.db.certs[fp].kind != RootCa && fp !in s.db.revoked && fp in s.h.origin
    && Carrier(s.db, s.h, fp) in s.db.gens
    && var k := |CrlsOf(s, Carrier(s.db, s.h, fp))|;
       && s'.h.firsts == (if fp in s.h.firsts then s.h.firsts else s.h.firsts[fp := k])
       && s'.h.commits == (if completed then s.h.commits[fp := k] else s.h.commits)
       && s'.db.revoked == (if completed then s.db.revoked + {fp} else s.db.revoked)
  }

  ghost predicate NothingNoted(s: State, s': State) {
    s'.h.firsts == s.h.firsts && s'.h.commits == s.h.commits && s'.db.revoked == s.db.revoked
  }

  lemma RevokeRecords(s: State, e: Event)
    requires e.Revoke? && Enabled(s, e)
    ensures e.fp in s.db.certs && s.db.certs[e.fp].kind.Leaf? && e.fp !in s.db.revoked
    ensures GenByCn(s.db.gens, s.db.certs[e.fp].issuerCn).Some?
    ensures var slug := s.db.gens[GenByCn(s.db.gens, s.db.certs[e.fp].issuerCn).value].slug;
            && slug in s.files
            && var k := |s.files[slug].crls|;
               && Next(s, e).h.firsts == (if e.fp in s.h.firsts then s.h.firsts else s.h.firsts[e.fp := k])
               && Next(s, e).h.commits == (if e.committed then s.h.commits[e.fp := k] else s.h.commits)
    ensures Next(s, e).db.revoked == (if e.committed then s.db.revoked + {e.fp} else s.db.revoked)
  {
    hide RewriteCrl;
  }

  lemma RevokeNotes(s: State, e: Event)
    requires NamesDistinct(s.db.gens) && Origins(s.db, s.h, s.nextFp) && e.Revoke? && Enabled(s, e)
    ensures Noted(s, Next(s, e), e.fp, e.committed)
  {
    hide NamesDistinct, Origins, Next, Enabled;
    RevokeRecords(s, e);
    LeafIsFrom(s, e.fp);
  }

  lemma RevokeCaNotes(s: State, e: Event)
    requires Owns(s.db, s.h) && Published(s.db, s.files, s.h.own) && Lineage(s.db, s.h.tops) && e.RevokeCa?
    requires Enabled(s, e)
    ensures Entered(s, e).Some? && Noted(s, Next(s, e), Entered(s, e).value, e.committed)
  {
    hide Owns, Published, Lineage, RewriteCrl;
    VictimIsOwn(s, e);
    RootIsOne(s);
  }

  lemma OthersNoteNothing(s: State, e: Event)
    requires Enabled(s, e) && !e.Revoke? && !e.RevokeCa?
    ensures NothingNoted(s, Next(s, e)) && Entered(s, e).None?
  {
    hide Config.Slug, MintFiles, Apart, CnIsTaken, FreshKey;
  }

  lemma CrlRecord(s: State, e: Event)
    requires Inv(s) && Enabled(s, e)
    ensures if Entered(s, e).Some? then Noted(s, Next(s, e), Entered(s, e).value, Completes(e)) else NothingNoted(s, Next(s, e))
  {
    hide TablesInv, Lineage, Owns, Origins, NamesDistinct, Published, ThreadsHold, Next, Enabled, Noted, NothingNoted, Slugged,
         PrefixesApart, KeysDistinct, StatusesMatch;
    TablesParts(s);
    match e
    case Revoke(fp, _) => RevokeNotes(s, e);
    case RevokeCa(cn, _) => RevokeCaNotes(s, e);
    case _ => OthersNoteNothing(s, e);
  }

  // ---------------------------------------------------------------- every step keeps it

  lemma OriginKnown(s: State, fp: nat)
    requires Lineage(s.db, s.h.tops) && Origins(s.db, s.h, s.nextFp) && fp in s.db.certs
    ensures fp in s.h.origin && s.h.origin[fp] in s.db.gens && Carrier(s.db, s.h, fp) in s.db.gens
  {
    assert Placed(s.db, s.h, fp);
    RootIsOne(s);
  }

  lemma CarrierStays(s: State, e: Event, fp: nat)
    requires Inv(s) && Enabled(s, e) && fp in s.db.certs
    ensures fp in Next(s, e).db.certs && Next(s, e).db.certs[fp] == s.db.certs[fp]
    ensures fp in s.h.origin && fp in Next(s, e).h.origin && Next(s, e).h.origin[fp] == s.h.origin[fp]
    ensures Carrier(Next(s, e).db, Next(s, e).h, fp) == Carrier(s.db, s.h, fp)
    ensures Carrier(s.db, s.h, fp) in s.db.gens
  {
    hide TablesInv, Lineage, Owns, Origins, NamesDistinct, Published, ThreadsHold, Next, Enabled, Slugged, WriteOf, SignerOf, ApplyDb,
         Recorded, PrefixesApart, KeysDistinct, StatusesMatch, NewRow, NewCert, NewGen;
    TablesParts(s);
    TablesKept(s, e);
    StepWrites(s, e);
    WritesGrow(s, WriteOf(s, e), SignerOf(s, e));
    OriginKnown(s, fp);
  }

  lemma GenStays(s: State, e: Event, id: GenId)
    requires Inv(s) && id in s.db.gens
    ensures id in Next(s, e).db.gens && Next(s, e).db.gens[id].slug == s.db.gens[id].slug
  {
    hide Inv, Next;
    StepMoves(s, e, id);
  }

  /** The CRLs of a generation that was there before the step. */
  lemma OldCrls(s: State, e: Event, id: GenId)
    requires Inv(s) && Enabled(s, e) && id in s.db.gens
    ensures id in Next(s, e).db.gens && Extended(s, e, id, CrlsOf(s, id), CrlsOf(Next(s, e), id))
    ensures CrlsOf(s, id) != []
  {
    hide Inv, Next, Enabled, Extended;
    GenStays(s, e, id);
    CrlsExtend(s, e, id);
    CrlsExist(s, id);
  }

  lemma CrlsExist(s: State, id: GenId)
    requires Inv(s) && id in s.db.gens
    ensures CrlsOf(s, id) != []
  {
    assert IsPublished(s.db, s.files, s.h.own, id);
  }

  lemma OldStoryKept(s: State, e: Event, fp: nat)
    requires Inv(s) && CommitsMatch(s) && Enabled(s, e) && fp in s.db.certs && s.db.certs[fp].kind != RootCa
    requires Told(s, fp)
    ensures fp in Next(s, e).db.certs && Told(Next(s, e), fp)
  {
    hide Inv, Next, Enabled, Story, Entered;
    CarrierStays(s, e, fp);
    var id := Carrier(s.db, s.h, fp);
    OldCrls(s, e, id);
    CrlRecord(s, e);
    var crls := CrlsOf(s, id);
    var first, commit := Get(s.h.firsts, fp), Get(s.h.commits, fp);
    if Entered(s, e) == Some(fp) {
      StoryTurns(s.db, crls, s.now, fp, first, Completes(e));
    } else {
      StoryGoesOn(s.db, crls, s.now, AddedTo(s, e, id), fp, first, commit);
    }
  }

  lemma UnlistedStays(s: State, e: Event, id: GenId, before: seq<Crl>, after: seq<Crl>, fp: nat, notAfter: int)
    requires Enabled(s, e) && Extended(s, e, id, before, after) && AddedTo(s, e, id) == []
    requires forall i :: 0 <= i < |before| ==> fp !in before[i].entries
    ensures Story(after, fp, notAfter, None, None)
  {
    if after != before { NextEntries(s.db, before[|before| - 1], s.now, [], fp); }
  }

  /** A new certificate is a leaf of a generation there, or the next generation's own, which the root would list. */
  lemma NewLeaf(s: State, e: Event, fp: nat)
    requires ThreadsHold(s.threads, s.db, s.h.own) && e.Issue? && Enabled(s, e) && fp in Next(s, e).db.certs
    requires fp !in s.db.certs
    ensures fp in Next(s, e).h.origin && Carrier(Next(s, e).db, Next(s, e).h, fp) in s.db.gens
  {
    assert Holds(s.threads[e.tid], s.db, s.h.own);
  }

  lemma NewCa(s: State, e: Event, fp: nat)
    requires Lineage(s.db, s.h.tops) && (e.Renew? || e.Add?) && Enabled(s, e) && fp in Next(s, e).db.certs
    requires fp !in s.db.certs
    ensures fp in Next(s, e).h.origin && Carrier(Next(s, e).db, Next(s, e).h, fp) in s.db.gens
  {
    RootIsOne(s);
    hide Lineage, Config.Slug, MintFiles, Apart, CnIsTaken, FreshKey;
  }

  lemma OthersAddNone(s: State, e: Event)
    requires Enabled(s, e) && !e.Issue? && !e.Renew? && !e.Add?
    ensures Next(s, e).db.certs == s.db.certs
  {
    hide RewriteCrl;
  }

  lemma LineageAndThreads(s: State)
    requires Inv(s)
    ensures Lineage(s.db, s.h.tops) && ThreadsHold(s.threads, s.db, s.h.own)
  {
  }

  lemma NewCertificate(s: State, e: Event, fp: nat)
    requires Inv(s) && Enabled(s, e) && fp in Next(s, e).db.certs && fp !in s.db.certs
    ensures e.Issue? || e.Renew? || e.Add?
    ensures fp in Next(s, e).h.origin && Carrier(Next(s, e).db, Next(s, e).h, fp) in s.db.gens
  {
    hide Inv, ThreadsHold, Lineage, Next, Enabled, Carrier;
    LineageAndThreads(s);
    match e
    case Issue(_, _, _, _, _) => NewLeaf(s, e, fp);
    case Renew(_, _, _) => NewCa(s, e, fp);
    case Add(_, _, _, _) => NewCa(s, e, fp);
    case _ => OthersAddNone(s, e);
  }

  /** A certificate issued by the step is on no CRL. */
  lemma NewStoryStarts(s: State, e: Event, fp: nat)
    requires Inv(s) && OwnEntries(s) && CommitsMatch(s) && Enabled(s, e) && fp in Next(s, e).db.certs
    requires fp !in s.db.certs
    ensures Told(Next(s, e), fp)
  {
    hide Inv, Next, Enabled, Noted, Story, Extended, AddedTo, Entered;
    NewCertificate(s, e, fp);
    CrlRecord(s, e);
    var s' := Next(s, e);
    var id := Carrier(s'.db, s'.h, fp);
    OldCrls(s, e, id);
    NothingEntered(s, e, id);
    forall i | 0 <= i < |CrlsOf(s, id)| ensures fp !in CrlsOf(s, id)[i].entries {
      assert !Carries(s, id, fp);
    }
    UnlistedStays(s, e, id, CrlsOf(s, id), CrlsOf(s', id), fp, s'.db.certs[fp].notAfter);
  }

  lemma StoriesKept(s: State, e: Event)
    requires Inv(s) && CrlInv(s) && Enabled(s, e)
    ensures Stories(Next(s, e))
  {
    hide Inv, Next, Enabled, Told, OwnEntries, CommitsMatch, AllNumbered;
    forall fp | fp in Next(s, e).db.certs && Next(s, e).db.certs[fp].kind != RootCa ensures Told(Next(s, e), fp) {
      if fp in s.db.certs {
        CarrierStays(s, e, fp);
        OldStoryKept(s, e, fp);
      } else {
        NewStoryStarts(s, e, fp);
      }
    }
  }

  lemma CommitsKept(s: State, e: Event)
    requires Inv(s) && CommitsMatch(s) && Enabled(s, e)
    ensures CommitsMatch(Next(s, e))
  {
    hide Inv, Next, Enabled, Entered, CrlsOf;
    CrlRecord(s, e);
    forall fp | fp in s.db.certs ensures fp in Next(s, e).db.certs { CarrierStays(s, e, fp); }
  }

  // ---------------------------------------------------------------- entries and numbers

  lemma NewGenerationHasOneCrl(s: State, e: Event, id: GenId)
    requires Inv(s) && Enabled(s, e) && id in Next(s, e).db.gens && id !in s.db.gens
    ensures CrlsOf(Next(s, e), id) == [Crl(1, s.now, [])]
  {
    hide Inv, Config.Slug, Apart, CnIsTaken, FreshKey;
  }

  lemma CarriesStays(s: State, e: Event, id: GenId, fp: nat)
    requires Inv(s) && Enabled(s, e) && Carries(s, id, fp)
    ensures Carries(Next(s, e), id, fp)
  {
    hide Inv, Next, Enabled;
    CarrierStays(s, e, fp);
  }

  lemma EnteredIsCarried(s: State, e: Event, id: GenId, fp: nat)
    requires Inv(s) && Enabled(s, e) && fp in AddedTo(s, e, id)
    ensures Carries(s, id, fp)
  {
    hide Inv, Next, Enabled, Entered, CrlsOf;
    CrlRecord(s, e);
  }

  lemma OwnEntriesKept(s: State, e: Event)
    requires Inv(s) && OwnEntries(s) && Enabled(s, e)
    ensures OwnEntries(Next(s, e))
  {
    hide Inv, Next, Enabled, Carries, AddedTo, CrlsOf;
    var s' := Next(s, e);
    forall id, i, fp | id in s'.db.gens && 0 <= i < |CrlsOf(s', id)| && fp in CrlsOf(s', id)[i].entries
      ensures Carries(s', id, fp)
    {
      if id in s.db.gens {
        OldCrls(s, e, id);
        OldEntry(s, e, id, i, fp);
        CarriesStays(s, e, id, fp);
      } else {
        NewGenerationHasOneCrl(s, e, id);
      }
    }
  }

  lemma OldEntry(s: State, e: Event, id: GenId, i: nat, fp: nat)
    requires Inv(s) && OwnEntries(s) && Enabled(s, e) && id in s.db.gens && id in Next(s, e).db.gens
    requires Extended(s, e, id, CrlsOf(s, id), CrlsOf(Next(s, e), id))
    requires i < |CrlsOf(Next(s, e), id)| && fp in CrlsOf(Next(s, e), id)[i].entries
    ensures Carries(s, id, fp)
  {
    hide Inv, Next, Enabled, Carries, AddedTo, CrlsOf;
    var before := CrlsOf(s, id);
    if i == |before| {
      NextEntries(s.db, before[i - 1], s.now, AddedTo(s, e, id), fp);
      if fp in AddedTo(s, e, id) { EnteredIsCarried(s, e, id, fp); }
    }
  }

  lemma NumbersKept(s: State, e: Event)
    requires Inv(s) && AllNumbered(s) && Enabled(s, e)
    ensures AllNumbered(Next(s, e))
  {
    hide Inv, Next, Enabled, AddedTo, CrlsOf;
    var s' := Next(s, e);
    forall id | id in s'.db.gens ensures Numbered(CrlsOf(s', id)) {
      if id in s.db.gens {
        OldCrls(s, e, id);
        assert Numbered(CrlsOf(s, id));
      } else {
        NewGenerationHasOneCrl(s, e, id);
      }
    }
  }

  // ---------------------------------------------------------------- runs

  lemma CrlNextKeeps(s: State, e: Event)
    requires Inv(s) && CrlInv(s)
    ensures CrlInv(Next(s, e))
  {
    hide Inv, Stories, CommitsMatch, OwnEntries, AllNumbered, Enabled;
    if Enabled(s, e) {
      hide Next;
      StoriesKept(s, e);
      CommitsKept(s, e);
      OwnEntriesKept(s, e);
      NumbersKept(s, e);
    }
  }

  lemma {:induction false} CrlRunKeeps(s: State, es: seq<Event>)
    requires Inv(s) && CrlInv(s)
    ensures Inv(Run(s, es)) && CrlInv(Run(s, es))
    decreases |es|
  {
    hide Inv, CrlInv, Next;
    if es != [] {
      NextKeeps(s, es[0]);
      CrlNextKeeps(s, es[0]);
      CrlRunKeeps(Next(s, es[0]), es[1..]);
    }
  }

  lemma FirstCrls(sections: map<string, Section>, now: int, nextFp: nat, id: GenId)
    requires Accepted(sections) && id in Init(sections, now, nextFp).db.gens
    ensures CrlsOf(Init(sections, now, nextFp), id) == [Crl(1, now, [])]
  {
    FirstFile(sections, now, id.purpose);
  }

  /** Nothing has been revoked, and every CRL is the empty first one. */
  ghost predicate Untouched(s: State, now: int) {
    && s.h.firsts == map[] && s.h.commits == map[] && s.db.revoked == {}
    && forall id :: id in s.db.gens ==> CrlsOf(s, id) == [Crl(1, now, [])]
  }

  lemma UntouchedStory(s: State, now: int, fp: nat)
    requires Lineage(s.db, s.h.tops) && Origins(s.db, s.h, s.nextFp) && Untouched(s, now) && fp in s.db.certs
    ensures Told(s, fp)
  {
    OriginKnown(s, fp);
    hide Lineage, Origins, CrlsOf;
  }

  lemma UntouchedOk(s: State, now: int)
    requires Inv(s) && Untouched(s, now)
    ensures CrlInv(s)
  {
    hide Lineage, Origins, Owns, Published, ThreadsHold, Slugged, PrefixesApart, NamesDistinct, KeysDistinct,
         StatusesMatch, CrlsOf, Told;
    forall fp | fp in s.db.certs ensures Told(s, fp) { UntouchedStory(s, now, fp); }
  }

  lemma CrlInitOk(sections: map<string, Section>, now: int, nextFp: nat)
    requires Accepted(sections) && CaStore.Numbered(sections, nextFp)
    ensures CrlInv(Init(sections, now, nextFp))
  {
    hide Accepted, CaStore.Numbered, Inv, CrlInv, CrlsOf, FirstFiles;
    InitOk(sections, now, nextFp);
    forall id | id in Init(sections, now, nextFp).db.gens ensures CrlsOf(Init(sections, now, nextFp), id) == [Crl(1, now, [])] {
      hide FirstDb;
      FirstCrls(sections, now, nextFp, id);
    }
    UntouchedOk(Init(sections, now, nextFp), now);
  }

  lemma {:induction false} ReachableInCrls(s: State, steps: nat)
    requires ReachableIn(s, steps)
    ensures Inv(s) && CrlInv(s)
    decreases steps
  {
    hide Inv, CrlInv, Next, Init, Accepted, CaStore.Numbered;
    if steps == 0 {
      var sections: map<string, Section> :|
        Accepted(sections) && CaStore.Numbered(sections, s.nextFp) && s == Init(sections, s.now, s.nextFp);
      InitOk(sections, s.now, s.nextFp);
      CrlInitOk(sections, s.now, s.nextFp);
    } else {
      var before: State, e: Event :| ReachableIn(before, steps - 1) && s == Next(before, e);
      ReachableInCrls(before, steps - 1);
      NextKeeps(before, e);
      CrlNextKeeps(before, e);
    }
  }

  lemma ReachableCrls(s: State)
    requires Reachable(s)
    ensures Inv(s) && CrlInv(s)
  {
    hide Inv, CrlInv, ReachableIn;
    var steps: nat :| ReachableIn(s, steps);
    ReachableInCrls(s, steps);
  }

  // ---------------------------------------------------------------- what a CRL carries

  /** Since `from`, no CRL is dated before an earlier one. */
  ghost predicate DatesAscend(crls: seq<Crl>, from: nat) {
    forall i, j :: from <= i <= j < |crls| ==> crls[i].thisUpdate <= crls[j].thisUpdate
  }

  lemma {:induction false} KeptUntilExpiry(crls: seq<Crl>, fp: nat, notAfter: int, first: nat, commit: nat, i: nat)
    requires Story(crls, fp, notAfter, Some(first), Some(commit)) && commit < i < |crls| && DatesAscend(crls, commit)
    ensures fp in crls[i].entries <==> notAfter >= crls[i - 1].thisUpdate
    decreases i
  {
    if i - 1 > commit { KeptUntilExpiry(crls, fp, notAfter, first, commit, i - 1); }
  }

  /**
   Which CRLs carry a certificate whose revocation was completed with number r,
   counting from 0: all from the first attempt to r, then those whose predecessor
   is not dated past its expiry.
   */
  lemma CrlClosedForm(s: State, fp: nat, i: nat)
    requires Reachable(s) && fp in s.db.revoked && fp in s.h.origin && fp in s.db.certs
    ensures Carrier(s.db, s.h, fp) in s.db.gens && fp in s.h.commits && fp in s.h.firsts
    ensures var crls, r := CrlsOf(s, Carrier(s.db, s.h, fp)), s.h.commits[fp];
            && s.h.firsts[fp] <= r < |crls|
            && (i < |crls| && DatesAscend(crls, r) ==>
                  (fp in crls[i].entries <==>
                     (s.h.firsts[fp] <= i <= r || (r < i && s.db.certs[fp].notAfter >= crls[i - 1].thisUpdate))))
  {
    RevokedIsTold(s, fp);
    var crls, r := CrlsOf(s, Carrier(s.db, s.h, fp)), s.h.commits[fp];
    if r < i < |crls| && DatesAscend(crls, r) {
      KeptUntilExpiry(crls, fp, s.db.certs[fp].notAfter, s.h.firsts[fp], r, i);
    }
  }

  lemma RevokedIsTold(s: State, fp: nat)
    requires Reachable(s) && fp in s.db.revoked
    ensures fp in s.db.certs && Told(s, fp) && fp in s.h.commits && fp in s.h.firsts
  {
    hide Reachable, Told, TablesInv, Published, ThreadsHold, OwnEntries, AllNumbered;
    ReachableCrls(s);
    RootIsNotRevoked(s, fp);
  }

  lemma RootIsNotRevoked(s: State, fp: nat)
    requires TablesInv(s) && fp in s.db.revoked
    ensures fp in s.db.certs && s.db.certs[fp].kind != RootCa
  {
    TablesParts(s);
    hide TablesInv, Lineage, Origins, Owns, Slugged, PrefixesApart, NamesDistinct, KeysDistinct;
    if s.db.certs[fp].kind == RootCa {
      CaCertIsOwn(s, fp);
      OwnNames(s, s.h.origin[fp]);
      RootIsActive(s, s.h.origin[fp]);
    }
  }

  lemma RootIsActive(s: State, id: GenId)
    requires Lineage(s.db, s.h.tops) && id in s.db.gens && id.purpose == ROOT
    ensures s.db.gens[id].status == Active
  {
  }

  lemma {:induction false} StoryDrops(crls: seq<Crl>, fp: nat, notAfter: int, first: nat, commit: nat, i: nat) returns (k: nat)
    requires Story(crls, fp, notAfter, Some(first), Some(commit)) && commit < i < |crls| && fp !in crls[i].entries
    ensures commit <= k < i && fp in crls[k].entries && crls[k].thisUpdate > notAfter
    decreases i
  {
    if fp in crls[i - 1].entries { k := i - 1; } else { k := StoryDrops(crls, fp, notAfter, first, commit, i - 1); }
  }

  /** A certificate the index calls revoked is on its issuer's current CRL, or an earlier one dated past its expiry carried it. */
  lemma RevokedIsListed(s: State, fp: nat) returns (k: nat)
    requires Reachable(s) && fp in s.db.revoked
    ensures fp in s.db.certs && fp in s.h.origin && Carrier(s.db, s.h, fp) in s.db.gens
    ensures var crls := CrlsOf(s, Carrier(s.db, s.h, fp));
            && k < |crls| && fp in crls[k].entries
            && (k == |crls| - 1 || crls[k].thisUpdate > s.db.certs[fp].notAfter)
  {
    hide Reachable;
    RevokedIsTold(s, fp);
    var crls := CrlsOf(s, Carrier(s.db, s.h, fp));
    if fp in crls[|crls| - 1].entries {
      k := |crls| - 1;
    } else {
      k := StoryDrops(crls, fp, s.db.certs[fp].notAfter, s.h.firsts[fp], s.h.commits[fp], |crls| - 1);
    }
  }

  /** Whatever the clock did, a CRL is without a revoked certificate only after one dated past its expiry carried it. */
  lemma DroppedAfterExpiry(s: State, fp: nat, i: nat) returns (k: nat)
    requires Reachable(s) && fp in s.db.revoked
    requires fp in s.h.commits && fp in s.db.certs && fp in s.h.origin && Carrier(s.db, s.h, fp) in s.db.gens
    requires s.h.commits[fp] < i < |CrlsOf(s, Carrier(s.db, s.h, fp))|
    requires fp !in CrlsOf(s, Carrier(s.db, s.h, fp))[i].entries
    ensures var crls := CrlsOf(s, Carrier(s.db, s.h, fp));
            s.h.commits[fp] <= k < i && fp in crls[k].entries && crls[k].thisUpdate > s.db.certs[fp].notAfter
  {
    hide Reachable;
    RevokedIsTold(s, fp);
    k := StoryDrops(CrlsOf(s, Carrier(s.db, s.h, fp)), fp, s.db.certs[fp].notAfter, s.h.firsts[fp], s.h.commits[fp], i);
  }

  /** A CRL carries only certificates of its own generation, and only those a revocation was begun for. */
  lemma NothingElseIsListed(s: State, id: GenId, i: nat, fp: nat)
    requires Reachable(s) && id in s.db.gens && i < |CrlsOf(s, id)| && fp in CrlsOf(s, id)[i].entries
    ensures fp in s.db.certs && fp in s.h.origin && fp in s.h.firsts && s.h.firsts[fp] <= i
    ensures if s.db.certs[fp].kind.Leaf? then GenByCn(s.db.gens, s.db.certs[fp].issuerCn) == Some(id)
            else s.db.certs[fp].kind == SigningCa && id == ROOT_ID
  {
    ReachableCrls(s);
    assert Carries(s, id, fp) && Told(s, fp);
    if s.db.certs[fp].kind.Leaf? { IssuerNameFindsTheSigner(s, fp); }
  }

  // ---------------------------------------------------------------- over a run

  lemma {:induction false} CrlsOnlyGrow(s: State, es: seq<Event>, id: GenId)
    requires Inv(s) && id in s.db.gens
    ensures id in Run(s, es).db.gens && CrlsOf(s, id) <= CrlsOf(Run(s, es), id)
    decreases |es|
  {
    if es != [] {
      StepGrows(s, es[0], id);
      NextKeeps(s, es[0]);
      hide Inv, Next, CrlsOf;
      CrlsOnlyGrow(Next(s, es[0]), es[1..], id);
    }
  }

  lemma StepGrows(s: State, e: Event, id: GenId)
    requires Inv(s) && id in s.db.gens
    ensures id in Next(s, e).db.gens && CrlsOf(s, id) <= CrlsOf(Next(s, e), id)
  {
    hide Inv, Enabled, AddedTo, CrlsOf;
    if Enabled(s, e) {
      hide Next;
      OldCrls(s, e, id);
    }
  }

  /** Each CRL a generation publishes carries the next number, so a new current CRL always has a higher one. */
  lemma NumbersRise(s: State, es: seq<Event>, id: GenId)
    requires Reachable(s) && id in s.db.gens
    ensures id in Run(s, es).db.gens
    ensures var before, after := CrlsOf(s, id), CrlsOf(Run(s, es), id);
            && before != [] && before <= after
            && before[|before| - 1].number == |before| && after[|after| - 1].number == |after|
            && (after[|after| - 1].number > before[|before| - 1].number <==> after != before)
  {
    hide Reachable, Inv, Stories, CommitsMatch, OwnEntries, Run, CrlsOf;
    ReachableCrls(s);
    CrlRunKeeps(s, es);
    CrlsOnlyGrow(s, es, id);
    CrlsExist(s, id);
    assert Numbered(CrlsOf(s, id)) && Numbered(CrlsOf(Run(s, es), id));
  }

  /** Reached without the clock ever going back. */
  ghost predicate ForwardIn(s: State, steps: nat)
    decreases steps
  {
    if steps == 0 then Initial(s) else
    exists before: State, e: Event :: ForwardIn(before, steps - 1) && (e.Tick? ==> e.seconds >= 0) && s == Next(before, e)
  }

  ghost predicate Dated(s: State) {
    forall id :: id in s.db.gens ==> DatedBy(CrlsOf(s, id), s.now)
  }

  ghost predicate DatedBy(crls: seq<Crl>, now: int) {
    DatesAscend(crls, 0) && forall i :: 0 <= i < |crls| ==> crls[i].thisUpdate <= now
  }

  lemma ClockAdvances(s: State, e: Event)
    requires e.Tick? ==> e.seconds >= 0
    ensures s.now <= Next(s, e).now
  {
    hide Config.Slug, MintFiles, RewriteCrl, Apart, CnIsTaken, FreshKey;
  }

  lemma DatedKept(s: State, e: Event)
    requires Inv(s) && Dated(s) && (e.Tick? ==> e.seconds >= 0)
    ensures Dated(Next(s, e))
  {
    hide Inv, Enabled, CrlsOf, AddedTo;
    ClockAdvances(s, e);
    if Enabled(s, e) {
      hide Next;
      forall id | id in Next(s, e).db.gens ensures DatedBy(CrlsOf(Next(s, e), id), Next(s, e).now) {
        if id in s.db.gens {
          assert DatedBy(CrlsOf(s, id), s.now);
          OldCrls(s, e, id);
        } else {
          NewGenerationHasOneCrl(s, e, id);
        }
      }
    }
  }

  lemma FirstDated(sections: map<string, Section>, now: int, nextFp: nat)
    requires Accepted(sections)
    ensures Dated(Init(sections, now, nextFp))
  {
    hide Accepted, CrlsOf, FirstFiles, FirstDb;
    forall id | id in Init(sections, now, nextFp).db.gens ensures CrlsOf(Init(sections, now, nextFp), id) == [Crl(1, now, [])] {
      FirstCrls(sections, now, nextFp, id);
    }
  }

  lemma {:induction false} ForwardIsDated(s: State, steps: nat)
    requires ForwardIn(s, steps)
    ensures Inv(s) && Dated(s)
    decreases steps
  {
    hide Inv, Dated, Next, Init, Accepted, CaStore.Numbered;
    if steps == 0 {
      var sections: map<string, Section> :|
        Accepted(sections) && CaStore.Numbered(sections, s.nextFp) && s == Init(sections, s.now, s.nextFp);
      InitOk(sections, s.now, s.nextFp);
      FirstDated(sections, s.now, s.nextFp);
    } else {
      var before: State, e: Event :|
        ForwardIn(before, steps - 1) && (e.Tick? ==> e.seconds >= 0) && s == Next(before, e);
      ForwardIsDated(before, steps - 1);
      NextKeeps(before, e);
      DatedKept(before, e);
    }
  }

  /** With a clock that never goes back, every CRL is dated no earlier than its predecessors. */
  lemma ForwardRunsDateInOrder(s: State, steps: nat, id: GenId)
    requires ForwardIn(s, steps) && id in s.db.gens
    ensures DatesAscend(CrlsOf(s, id), 0)
  {
    hide Inv, CrlsOf, ForwardIn;
    ForwardIsDated(s, steps);
    assert DatedBy(CrlsOf(s, id), s.now);
  }

  // ---------------------------------------------------------------- refresh

  /** A refresh never fails for want of files, and its jobs are the live, unexpired generations in scope. */
  lemma RefreshFindsItsJobs(s: State, scope: Scope, id: GenId)
    requires Reachable(s) && id in s.db.gens
    ensures Refreshable(s, scope)
    ensures id in s.h.own && s.h.own[id] in s.db.certs
    ensures id in Jobs(s, scope) <==>
              && s.db.gens[id].status != Revoked
              && (id.purpose == ROOT ==> scope == RootScope || scope == BothScopes)
              && (id.purpose != ROOT ==> scope == SigningScope || scope == BothScopes)
              && s.db.certs[s.h.own[id]].notAfter > s.now
  {
    hide Reachable, TablesInv, ThreadsHold;
    ReachableInv(s);
    forall other | other in s.db.gens ensures LoadCaCert(s.files, s.db.gens[other].slug).Some? && HasCrl(s.files, s.db.gens[other].slug) {
      assert IsPublished(s.db, s.files, s.h.own, other);
    }
    assert IsPublished(s.db, s.files, s.h.own, id);
  }

  lemma RefreshedCrls(s: State, written: set<GenId>, id: GenId)
    requires Slugged(s.db) && PrefixesApart(s.db.prefixes) && Rewritable(s, written)
    requires id in s.db.gens && CrlsOf(s, id) != []
    ensures var before, after := CrlsOf(s, id), CrlsOf(RefreshStep(s, written), id);
            after == if id in written then before + [NextCrl(s.db, before[|before| - 1], s.now, [])] else before
  {
    hide Slugged, PrefixesApart, NextCrl, SlugsOf;
    WrittenSlugs(s, written, id);
  }

  /** The CRLs written get the next number and the same entries less the prunable; nothing else changes. */
  lemma RefreshFrames(s: State, written: set<GenId>, id: GenId)
    requires Reachable(s) && Rewritable(s, written) && id in s.db.gens
    ensures CrlsOf(s, id) != [] && RefreshStep(s, written).db == s.db
    ensures id !in written ==> CrlsOf(RefreshStep(s, written), id) == CrlsOf(s, id)
    ensures id in written ==>
              var before, after := CrlsOf(s, id), CrlsOf(RefreshStep(s, written), id);
              var prev := before[|before| - 1];
              && |after| == |before| + 1 && before <= after
              && after[|before|].number == prev.number + 1 && after[|before|].thisUpdate == s.now
              && (forall fp :: fp in after[|before|].entries <==>
                    fp in prev.entries && !(fp in s.db.revoked && fp in s.db.certs && s.db.certs[fp].notAfter < prev.thisUpdate))
  {
    hide Reachable, Inv, Rewritable, Slugged, PrefixesApart, NamesDistinct, Owns, Origins, Lineage, CrlsOf, SlugsOf;
    ReachableInv(s);
    CrlsExist(s, id);
    InvParts(s, id);
    RefreshedCrls(s, written, id);
    var prev := CrlsOf(s, id)[|CrlsOf(s, id)| - 1];
    forall fp ensures fp in NextCrl(s.db, prev, s.now, []).entries <==> fp in prev.entries && !Prunable(s.db, fp, prev.thisUpdate) {
      NextEntries(s.db, prev, s.now, [], fp);
    }
  }

  lemma WrittenSlugs(s: State, written: set<GenId>, id: GenId)
    requires Slugged(s.db) && PrefixesApart(s.db.prefixes) && Rewritable(s, written) && id in s.db.gens
    ensures s.db.gens[id].slug in SlugsOf(s.db.gens, written) <==> id in written
  {
    forall other | other in written && s.db.gens[other].slug == s.db.gens[id].slug ensures other == id { SlugIsItsOwn(s.db, other, id); }
  }

  // ---------------------------------------------------------------- interrupted revocations

  /** A revocation that stops after its CRL leaves the tables alone, the CRL ahead of them, and can be repeated. */
  lemma InterruptedRevocation(s: State, fp: nat)
    requires Reachable(s) && Enabled(s, Revoke(fp, false))
    ensures var s' := Next(s, Revoke(fp, false));
            && s'.db == s.db && fp !in s'.db.revoked
            && fp in s.h.origin && s.h.origin[fp] in s.db.gens
            && var crls := CrlsOf(s', s.h.origin[fp]);
               && |crls| == |CrlsOf(s, s.h.origin[fp])| + 1 && fp in crls[|crls| - 1].entries
    ensures Enabled(Next(s, Revoke(fp, false)), Revoke(fp, true))
  {
    hide Reachable, Inv, Published, Origins, NamesDistinct, Prune;
    ReachableInv(s);
    InvTables(s);
    TablesParts(s);
    LeafIsFrom(s, fp);
    hide TablesInv, Lineage, Slugged, PrefixesApart, Owns, KeysDistinct, StatusesMatch;
    assert CrlsOf(Next(s, Revoke(fp, false)), s.h.origin[fp])
        == CrlsOf(s, s.h.origin[fp]) + [NextCrl(s.db, CrlsOf(s, s.h.origin[fp])[|CrlsOf(s, s.h.origin[fp])| - 1], s.now, [fp])];
  }
}
