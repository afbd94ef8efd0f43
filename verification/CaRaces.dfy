/**
 Three places where a command reads before it holds the write lock, and exactly when
 that is harmless: `revoke --cn`, which looks its certificate up twice; `add`, which
 first records generations the file declares and the index seems to hold; and
 `refresh`, which collects the generations whose CRLs it then re-signs.
 */
module CaRaces {
  import opened Strings
  import opened CaStore
  import opened CaLineage
  import opened CaCrl
  import Config
  import Issuance

  // ---------------------------------------------------------------- revoke by name

  predicate LiveLeaf(s: State, fp: nat, cn: string, profile: string) {
    && fp in s.db.certs && fp !in s.db.revoked && s.db.certs[fp].kind == Leaf(profile) && s.db.certs[fp].cn == cn
    && s.db.certs[fp].notAfter > s.now
  }

  /** What the lookup by name and profile may return: a live certificate, and none began later. */
  ghost predicate FoundByName(s: State, cn: string, profile: string, fp: nat) {
    && LiveLeaf(s, fp, cn, profile)
    && forall other :: LiveLeaf(s, other, cn, profile) ==> s.db.certs[other].notBefore <= s.db.certs[fp].notBefore
  }

  /** The slug whose CRL `revoke` rewrites, chosen by the first lookup. */
  ghost function ChosenSlug(s: State, first: nat): string
    requires first in s.db.certs && GenByCn(s.db.gens, s.db.certs[first].issuerCn).Some?
  {
    s.db.gens[GenByCn(s.db.gens, s.db.certs[first].issuerCn).value].slug
  }

  /** A leaf's issuer lists it now. */
  ghost predicate OnCurrentCrl(s: State, fp: nat) {
    && fp in s.h.origin && s.h.origin[fp] in s.db.gens && CrlsOf(s, s.h.origin[fp]) != []
    && fp in CrlsOf(s, s.h.origin[fp])[|CrlsOf(s, s.h.origin[fp])| - 1].entries
  }

  lemma IssuerHasCrl(s: State, fp: nat)
    requires Reachable(s) && fp in s.db.certs && s.db.certs[fp].kind.Leaf?
    ensures fp in s.h.origin && s.h.origin[fp] in s.db.gens
    ensures GenByCn(s.db.gens, s.db.certs[fp].issuerCn) == Some(s.h.origin[fp])
    ensures HasCrl(s.files, s.db.gens[s.h.origin[fp]].slug) && CrlsOf(s, s.h.origin[fp]) != []
  {
    hide Reachable, TablesInv, ThreadsHold, Published;
    ReachableInv(s);
    IssuerNameFindsTheSigner(s, fp);
    CrlsExist(s, s.h.origin[fp]);
  }

  lemma SameIssuerSameName(s: State, first: nat, second: nat)
    requires Origins(s.db, s.h, s.nextFp) && first in s.db.certs && second in s.db.certs
    requires s.db.certs[first].kind.Leaf? && s.db.certs[second].kind.Leaf?
    requires s.h.origin[first] == s.h.origin[second]
    ensures s.db.certs[first].issuerCn == s.db.certs[second].issuerCn
  {
    assert Placed(s.db, s.h, first) && Placed(s.db, s.h, second);
  }

  /** The write changes the CRLs of the generation whose slug it is, and of no other. */
  lemma WhereItLands(s: State, fp: nat, id: GenId)
    requires id in s.db.gens && HasCrl(s.files, s.db.gens[id].slug)
    ensures var s' := RevokeStep(s, fp, s.db.gens[id].slug, true);
            && fp in s'.db.revoked && s'.db.gens == s.db.gens && s'.h.origin == s.h.origin
            && CrlsOf(s', id) == CrlsOf(s, id) + [NextCrl(s.db, CrlsOf(s, id)[|CrlsOf(s, id)| - 1], s.now, [fp])]
            && forall other :: other in s.db.gens && s.db.gens[other].slug != s.db.gens[id].slug ==>
                 CrlsOf(s', other) == CrlsOf(s, other)
  {
    hide NextCrl;
  }

  lemma LandsExactlyWhen(s: State, first: nat, second: nat)
    requires Reachable(s) && first in s.db.certs && second in s.db.certs
    requires s.db.certs[first].kind.Leaf? && s.db.certs[second].kind.Leaf?
    ensures first in s.h.origin && s.h.origin[first] in s.db.gens && HasCrl(s.files, s.db.gens[s.h.origin[first]].slug)
    ensures var s' := RevokeStep(s, second, s.db.gens[s.h.origin[first]].slug, true);
            && second in s'.db.revoked
            && (OnCurrentCrl(s', second) <==>
                  s.db.certs[first].issuerCn == s.db.certs[second].issuerCn || OnCurrentCrl(s, second))
  {
    hide Reachable, Inv, Slugged, PrefixesApart, NamesDistinct, Owns, Origins, Lineage, CrlsOf, NextCrl, RevokeStep;
    IssuerHasCrl(s, first);
    IssuerHasCrl(s, second);
    var g, h := s.h.origin[first], s.h.origin[second];
    ReachableInv(s);
    InvParts(s, g);
    WhereItLands(s, second, g);
    if g == h {
      SameIssuerSameName(s, first, second);
      NextEntries(s.db, CrlsOf(s, h)[|CrlsOf(s, h)| - 1], s.now, [second], second);
    } else if s.db.gens[g].slug == s.db.gens[h].slug {
      SlugIsItsOwn(s.db, g, h);
    }
  }

  /** A certificate, its issuer and the issuer's slug are the same in every later state. */
  lemma {:induction false} LeafStays(s: State, es: seq<Event>, fp: nat)
    requires Inv(s) && fp in s.db.certs && fp in s.h.origin && s.h.origin[fp] in s.db.gens
    ensures var later := Run(s, es);
            && fp in later.db.certs && later.db.certs[fp] == s.db.certs[fp]
            && fp in later.h.origin && later.h.origin[fp] == s.h.origin[fp] && s.h.origin[fp] in later.db.gens
            && later.db.gens[s.h.origin[fp]].slug == s.db.gens[s.h.origin[fp]].slug
    decreases |es|
  {
    hide Inv, Next;
    if es != [] {
      LeafStaysOnce(s, es[0], fp);
      NextKeeps(s, es[0]);
      LeafStays(Next(s, es[0]), es[1..], fp);
    }
  }

  lemma LeafStaysOnce(s: State, e: Event, fp: nat)
    requires Inv(s) && fp in s.db.certs && fp in s.h.origin && s.h.origin[fp] in s.db.gens
    ensures var later := Next(s, e);
            && fp in later.db.certs && later.db.certs[fp] == s.db.certs[fp]
            && fp in later.h.origin && later.h.origin[fp] == s.h.origin[fp] && s.h.origin[fp] in later.db.gens
            && later.db.gens[s.h.origin[fp]].slug == s.db.gens[s.h.origin[fp]].slug
  {
    hide TablesInv, Published, ThreadsHold, Next, Enabled, WriteOf, SignerOf, ApplyDb, Recorded, NewRow;
    if Enabled(s, e) {
      TablesKept(s, e);
      StepWrites(s, e);
      WritesGrow(s, WriteOf(s, e), SignerOf(s, e));
      assert Next(s, e).h.origin == Recorded(s.h, WriteOf(s, e), SignerOf(s, e)).origin;
    } else {
      RefusedIsNothing(s, e);
    }
  }

  /**
   `revoke --cn` looks its certificate up before the lock, to choose the CRL, and
   again under it, to choose the entry. The certificate it then calls revoked is on
   its issuer's CRL exactly when both lookups found certificates of one issuer, or
   an interrupted revocation had listed it already.
   */
  lemma ByNameLandsExactlyWhen(s: State, es: seq<Event>, cn: string, profile: string, first: nat, second: nat)
    requires Reachable(s) && FoundByName(s, cn, profile, first) && FoundByName(Run(s, es), cn, profile, second)
    ensures GenByCn(s.db.gens, s.db.certs[first].issuerCn).Some? && HasCrl(Run(s, es).files, ChosenSlug(s, first))
    ensures var later := Run(s, es);
            var s' := RevokeStep(later, second, ChosenSlug(s, first), true);
            && second in s'.db.revoked
            && (OnCurrentCrl(s', second) <==>
                  s.db.certs[first].issuerCn == later.db.certs[second].issuerCn || OnCurrentCrl(later, second))
  {
    hide Reachable, Inv, Run, RevokeStep, OnCurrentCrl;
    LaterIsReachable(s, es);
    ReachableInv(s);
    IssuerHasCrl(s, first);
    LeafStays(s, es, first);
    LandsExactlyWhen(Run(s, es), first, second);
  }

  lemma LaterIsReachable(s: State, es: seq<Event>)
    requires Reachable(s)
    ensures Reachable(Run(s, es))
  {
    hide Run;
    var steps: nat :| ReachableIn(s, steps);
    hide ReachableIn;
    RunsStayReachable(s, steps, es);
  }

  // ---------------------------------------------------------------- a run whose two lookups disagree

  /** Not yet within the renewal window, so `create` refuses another certificate of the name. */
  predicate Blocks(c: Cert, now: int) {
    (c.notAfter - now) * 100 > (c.notAfter - c.notBefore) * Issuance.RENEW_WINDOW_PCT
  }

  lemma ActiveIsPublished(s: State, purpose: string)
    requires Reachable(s) && purpose in s.db.prefixes
    ensures var id := ActiveOf(s.db.gens, purpose);
            && id.Some? && id.value in s.db.gens && LoadCaCert(s.files, s.db.gens[id.value].slug).Some?
            && LoadCaCert(s.files, s.db.gens[id.value].slug).value.cert.cn == s.db.gens[id.value].cn
  {
    hide Reachable, Inv, ActiveOf;
    var n := GenerationsAreNumbered(s, purpose);
    var fp := FilesMatchTheIndex(s, GenId(purpose, n));
  }

  /** Issuing with nobody in between adds one leaf, signed by the active generation. */
  lemma IssuesAtOnce(s: State, purpose: string, cn: string, profile: string, life: nat, ski: nat)
    requires Reachable(s) && s.threads == map[] && purpose != ROOT && purpose in s.db.prefixes
    requires life > 0 && LeafKey(s.db.certs, ski)
    ensures ActiveOf(s.db.gens, purpose).Some? && ActiveOf(s.db.gens, purpose).value in s.db.gens
    ensures var s' := Next(Next(s, Begin(0, purpose)), Issue(0, cn, profile, life, ski));
            && s'.db.certs.Keys == s.db.certs.Keys + {s.nextFp}
            && s'.db == s.db.(certs := s.db.certs[s.nextFp := s'.db.certs[s.nextFp]])
            && s'.db.certs[s.nextFp] == Cert(cn, Leaf(profile), purpose, s.db.gens[ActiveOf(s.db.gens, purpose).value].cn,
                                             s.now, s.now + life, ski, s'.db.certs[s.nextFp].aki)
            && s' == s.(db := s'.db, nextFp := s.nextFp + 1, h := s'.h) && s'.h.firsts == s.h.firsts
  {
    hide Reachable, LeafKey;
    ActiveIsPublished(s, purpose);
    var begun := Next(s, Begin(0, purpose));
    assert begun.threads - {0} == map[];
  }

  lemma RenewIsEnabled(s: State, purpose: string, cn: string, c: Ceremony)
    requires Reachable(s) && purpose != ROOT && purpose in s.db.prefixes && cn != ""
    requires !CnIsTaken(s.db.gens, cn) && Proper(c) && FreshKey(s.db.certs, c.ski)
    ensures Enabled(s, Renew(purpose, cn, c))
  {
    hide Reachable, FreshKey, CnIsTaken, ActiveOf, LoadCaCert;
    RootIsLocked(s);
    ActiveIsPublished(s, purpose);
    ActiveIsPublished(s, ROOT);
  }

  lemma RootIsLocked(s: State)
    requires Reachable(s)
    ensures ROOT in s.db.prefixes
  {
    hide Reachable, TablesInv, Published, ThreadsHold;
    ReachableInv(s);
    TablesParts(s);
  }

  lemma RenewalAdds(s: State, purpose: string, cn: string, c: Ceremony)
    requires Renewable(s, purpose, cn, c) && c.committed
    ensures var s' := Next(s, Renew(purpose, cn, c));
            && (exists id :: id in s'.db.gens && id.purpose == purpose && s'.db.gens[id].cn == cn && s'.db.gens[id].status == Active)
            && s'.db == s.db.(gens := s'.db.gens, certs := s.db.certs[s.nextFp := s'.db.certs[s.nextFp]])
            && s'.db.certs[s.nextFp].kind == SigningCa && s'.db.certs[s.nextFp].ski == c.ski
            && s' == s.(db := s'.db, files := s'.files, nextFp := s.nextFp + 1, h := s'.h) && s'.h.firsts == s.h.firsts
  {
    hide FreshKey, CnIsTaken, MintFiles, Config.Slug;
    var s' := Next(s, Renew(purpose, cn, c));
    var id := GenId(purpose, ActiveOf(s.db.gens, purpose).value.gen + 1);
    assert id in s'.db.gens && s'.db.gens[id].cn == cn;
    assert s'.db.prefixes == s.db.prefixes;
  }

  lemma OnlyActive(s: State, id: GenId)
    requires Reachable(s) && id in s.db.gens && s.db.gens[id].status == Active
    ensures ActiveOf(s.db.gens, id.purpose) == Some(id)
  {
    hide Reachable;
    ReachableInv(s);
    assert id.purpose in s.db.prefixes;
    hide Inv;
    var n := GenerationsAreNumbered(s, id.purpose);
  }

  /** A completed renewal makes a generation of the new name the active one, and adds its certificate. */
  lemma RenewsAtOnce(s: State, purpose: string, cn: string, c: Ceremony)
    requires Reachable(s) && purpose != ROOT && purpose in s.db.prefixes && cn != ""
    requires !CnIsTaken(s.db.gens, cn) && Proper(c) && c.committed && FreshKey(s.db.certs, c.ski)
    ensures var s' := Next(s, Renew(purpose, cn, c));
            && ActiveOf(s'.db.gens, purpose).Some? && s'.db.gens[ActiveOf(s'.db.gens, purpose).value].cn == cn
            && s'.db == s.db.(gens := s'.db.gens, certs := s.db.certs[s.nextFp := s'.db.certs[s.nextFp]])
            && s'.db.certs[s.nextFp].kind == SigningCa && s'.db.certs[s.nextFp].ski == c.ski
            && s' == s.(db := s'.db, files := s'.files, nextFp := s.nextFp + 1, h := s'.h) && s'.h.firsts == s.h.firsts
  {
    hide Reachable, FreshKey, CnIsTaken, Next;
    RenewIsEnabled(s, purpose, cn, c);
    RenewalAdds(s, purpose, cn, c);
    var s' := Next(s, Renew(purpose, cn, c));
    StepIsReachable(s, Renew(purpose, cn, c));
    var id :| id in s'.db.gens && id.purpose == purpose && s'.db.gens[id].cn == cn && s'.db.gens[id].status == Active;
    OnlyActive(s', id);
  }

  lemma StepIsReachable(s: State, e: Event)
    requires Reachable(s)
    ensures Reachable(Next(s, e))
  {
    hide Next;
    var steps: nat :| ReachableIn(s, steps);
    assert ReachableIn(Next(s, e), steps + 1);
  }

  // the store the run starts from

  function Sections(): map<string, Section> {
    map[ROOT := Section("root ca", "r", 100000, 0), "s" := Section("ca one", "s", 50000, 1)]
  }

  lemma FirstRows(sections: map<string, Section>, now: int)
    requires Accepted(sections)
    ensures forall fp :: fp in FirstDb(sections, now).certs ==>
              !FirstDb(sections, now).certs[fp].kind.Leaf? && FirstDb(sections, now).certs[fp].ski == fp
              && exists p :: p in sections && sections[p].fp == fp
    ensures FirstDb(sections, now).revoked == {}
    ensures FirstDb(sections, now).prefixes == map p | p in sections :: sections[p].prefix
  {
    hide Apart, Config.Slug, PurposeIds;
  }

  lemma FirstGenerations(sections: map<string, Section>, now: int)
    requires Accepted(sections)
    ensures forall id :: id in FirstDb(sections, now).gens <==> id.purpose in sections && id.gen == 1
    ensures forall id :: id in FirstDb(sections, now).gens ==>
              && FirstDb(sections, now).gens[id].cn == sections[id.purpose].cn
              && FirstDb(sections, now).gens[id].status == Active
  {
    hide Apart, Config.Slug, FirstCert;
  }

  lemma FirstStore(sections: map<string, Section>, now: int, nextFp: nat) returns (s: State)
    requires Accepted(sections) && CaStore.Numbered(sections, nextFp)
    ensures Reachable(s) && s.threads == map[] && s.now == now && s.nextFp == nextFp && s.db == FirstDb(sections, now)
    ensures s.h.firsts == map[]
  {
    hide FirstFiles, FirstDb, Accepted, Reachable, CaStore.Numbered;
    s := Init(sections, now, nextFp);
    StartIsReachable(sections, now, nextFp);
  }

  lemma StartIsReachable(sections: map<string, Section>, now: int, nextFp: nat)
    requires Accepted(sections) && CaStore.Numbered(sections, nextFp)
    ensures Reachable(Init(sections, now, nextFp))
  {
    hide FirstFiles, FirstHistory, FirstDb, Accepted, CaStore.Numbered;
    var s := Init(sections, now, nextFp);
    assert Initial(s);
    assert ReachableIn(s, 0);
  }

  lemma SectionsAccepted()
    ensures Accepted(Sections())
  {
    hide Apart;
    LettersApart();
  }

  ghost predicate OneLeaf(s: State, fp: nat) {
    forall other :: other in s.db.certs && s.db.certs[other].kind.Leaf? ==> other == fp
  }

  /** After `init` and one `create`: one leaf, of the first generation. */
  ghost predicate OneIssued(s: State) {
    && Reachable(s) && s.threads == map[] && s.now == 0 && s.nextFp == 3 && s.db.revoked == {} && s.h.firsts == map[]
    && s.db.prefixes == map[ROOT := "r", "s" := "s"] && !CnIsTaken(s.db.gens, "ca two")
    && 2 in s.db.certs && s.db.certs[2].(aki := 0) == Cert("host", Leaf("server"), "s", "ca one", 0, 1000, 2, 0)
    && OneLeaf(s, 2) && (forall fp :: fp in s.db.certs ==> s.db.certs[fp].ski <= 2)
  }

  lemma FirstLeaf() returns (s: State)
    ensures OneIssued(s)
  {
    hide Reachable, FirstDb, Accepted, Next;
    SectionsAccepted();
    var s0 := FirstStore(Sections(), 0, 2);
    FirstRows(Sections(), 0);
    FirstGenerations(Sections(), 0);
    assert s0.db.prefixes == map[ROOT := "r", "s" := "s"];
    IssuesAtOnce(s0, "s", "host", "server", 1000, 2);
    StepIsReachable(s0, Begin(0, "s"));
    StepIsReachable(Next(s0, Begin(0, "s")), Issue(0, "host", "server", 1000, 2));
    s := Next(Next(s0, Begin(0, "s")), Issue(0, "host", "server", 1000, 2));
  }

  lemma RunFour(s: State, es: seq<Event>)
    requires |es| == 4
    ensures Run(s, es[..2]) == Next(Next(s, es[0]), es[1])
    ensures Run(s, es) == Next(Next(Next(Next(s, es[0]), es[1]), es[2]), es[3])
  {
    hide Next;
    var s1 := Next(s, es[0]);
    var s2 := Next(s1, es[1]);
    var s3 := Next(s2, es[2]);
    assert es[..2][1..] == [es[1]];
    assert Run(s1, [es[1]]) == Run(s2, []);
    assert es[1..][1..] == es[2..] && es[2..][1..] == es[3..] && es[3..][1..] == [];
    assert Run(s, es) == Run(s1, es[1..]) == Run(s2, es[2..]) == Run(s3, es[3..]) == Run(Next(s3, es[3]), []);
  }

  /** Renewing the CA and issuing the name again, with the first certificate in its renewal window. */
  const Overlap: seq<Event> := [
    Tick(700), Renew("s", "ca two", Ceremony(40000, 3, 3, true)), Begin(0, "s"), Issue(0, "host", "server", 1000, 4)]

  lemma SecondLeaf(s: State)
    requires OneIssued(s)
    ensures var mid, s' := Run(s, Overlap[..2]), Run(s, Overlap);
            && mid.now == 700 && mid.db.revoked == {} && OneLeaf(mid, 2) && 2 in mid.db.certs && mid.db.certs[2] == s.db.certs[2]
            && Reachable(s') && s'.now == 700 && s'.db.revoked == {} && s'.h.firsts == map[]
            && 4 in s'.db.certs && s'.db.certs[4].(aki := 0) == Cert("host", Leaf("server"), "s", "ca two", 700, 1700, 4, 0)
            && s'.db.certs == mid.db.certs[4 := s'.db.certs[4]]
  {
    hide Reachable, CnIsTaken;
    RunFour(s, Overlap);
    hide Run;
    var later := Next(s, Tick(700));
    assert later == s.(now := 700);
    hide Next;
    StepIsReachable(s, Tick(700));
    RenewsAtOnce(later, "s", "ca two", Ceremony(40000, 3, 3, true));
    StepIsReachable(later, Overlap[1]);
    var mid := Next(later, Overlap[1]);
    IssuesAtOnce(mid, "s", "host", "server", 1000, 4);
    StepIsReachable(mid, Overlap[2]);
    StepIsReachable(Next(mid, Overlap[2]), Overlap[3]);
  }

  lemma UntouchedIsUnlisted(s: State, fp: nat)
    requires Reachable(s) && fp !in s.h.firsts
    ensures !OnCurrentCrl(s, fp)
  {
    hide Reachable;
    if OnCurrentCrl(s, fp) { NothingElseIsListed(s, s.h.origin[fp], |CrlsOf(s, s.h.origin[fp])| - 1, fp); }
  }

  /**
   `init`, `create`; the first lookup; `renew signing-ca`, `create` for the same
   name; the second lookup. The certificate ends up called revoked, and its issuer's
   CRL does not list it.
   */
  lemma LookupsDisagree() returns (s: State, first: nat, second: nat)
    ensures Reachable(s) && FoundByName(s, "host", "server", first) && FoundByName(Run(s, Overlap), "host", "server", second)
    ensures forall fp :: LiveLeaf(Run(s, Overlap[..2]), fp, "host", "server") ==>
              !Blocks(Run(s, Overlap[..2]).db.certs[fp], Run(s, Overlap[..2]).now)
    ensures GenByCn(s.db.gens, s.db.certs[first].issuerCn).Some? && HasCrl(Run(s, Overlap).files, ChosenSlug(s, first))
    ensures var s' := RevokeStep(Run(s, Overlap), second, ChosenSlug(s, first), true);
            second in s'.db.revoked && !OnCurrentCrl(s', second)
  {
    hide Reachable, Run, CnIsTaken, OnCurrentCrl, RevokeStep;
    s := FirstLeaf();
    first, second := 2, 4;
    SecondLeaf(s);
    assert OneLeaf(s, 2);
    ByNameLandsExactlyWhen(s, Overlap, "host", "server", first, second);
    UntouchedIsUnlisted(Run(s, Overlap), second);
  }

  // ---------------------------------------------------------------- recording declared generations

  /** A section of the file: the name and the slug prefix of a CA. */
  datatype Declared = Declared(cn: string, prefix: string)

  ghost predicate HasGeneration(gens: map<GenId, Gen>, purpose: string) {
    exists id :: id in gens && id.purpose == purpose
  }

  ghost predicate CaCertNamed(certs: map<nat, Cert>, cn: string) {
    exists fp :: fp in certs && !certs[fp].kind.Leaf? && certs[fp].cn == cn
  }

  /** Sections without a generation whose name some CA certificate of the index bears. */
  ghost predicate Backfilled(db: Db, file: map<string, Declared>, purpose: string) {
    purpose in file && !HasGeneration(db.gens, purpose) && CaCertNamed(db.certs, file[purpose].cn)
  }

  ghost function BackfilledIds(db: Db, file: map<string, Declared>): (ids: set<GenId>)
    ensures forall id :: id in ids <==> id.gen == 1 && Backfilled(db, file, id.purpose)
  {
    var ids := set p | p in file && Backfilled(db, file, p) :: GenId(p, 1);
    assert forall id: GenId :: id.gen == 1 ==> id == GenId(id.purpose, 1);
    ids
  }

  /** The index after the step that records generation 1 of every CA the store seems to hold. */
  ghost function Backfill(db: Db, file: map<string, Declared>): map<GenId, Gen> {
    db.gens + map id | id in BackfilledIds(db, file) ::
      Gen(file[id.purpose].cn, Config.Slug(file[id.purpose].prefix, 1), Active)
  }

  lemma CaCertNamesAGeneration(s: State, cn: string)
    requires Owns(s.db, s.h) && Origins(s.db, s.h, s.nextFp)
    ensures CaCertNamed(s.db.certs, cn) <==> CnIsTaken(s.db.gens, cn)
  {
    hide OwnCert, Placed;
    if CaCertNamed(s.db.certs, cn) {
      var fp :| fp in s.db.certs && !s.db.certs[fp].kind.Leaf? && s.db.certs[fp].cn == cn;
      CaCertIsOwn(s, fp);
      assert s.h.origin[fp] in s.db.gens && s.db.gens[s.h.origin[fp]].cn == cn;
    }
    if CnIsTaken(s.db.gens, cn) {
      var id :| id in s.db.gens && s.db.gens[id].cn == cn;
      OwnNames(s, id);
      assert s.db.certs[s.h.own[id]].cn == cn;
    }
  }

  lemma NothingToBackfill(db: Db, file: map<string, Declared>)
    requires forall p :: p in file ==> !Backfilled(db, file, p)
    ensures Backfill(db, file) == db.gens
  {
    hide CaCertNamed, HasGeneration, Config.Slug;
    assert BackfilledIds(db, file) == {};
  }

  /** Names stay apart, and nothing is recorded at all, exactly when no new section bears the name of a generation. */
  lemma BackfillIsHarmlessExactlyWhen(s: State, file: map<string, Declared>)
    requires Reachable(s)
    ensures NamesDistinct(Backfill(s.db, file)) <==>
              forall p :: p in file && !HasGeneration(s.db.gens, p) ==> !CnIsTaken(s.db.gens, file[p].cn)
    ensures NamesDistinct(Backfill(s.db, file)) ==> Backfill(s.db, file) == s.db.gens
  {
    hide Reachable, Inv, TablesInv, Owns, Origins, CaCertNamed, CnIsTaken, Lineage, Slugged, PrefixesApart, KeysDistinct,
         StatusesMatch, NamesDistinct, Backfill, HasGeneration;
    ReachableInv(s);
    InvTables(s);
    TablesParts(s);
    forall p | p in file ensures CaCertNamed(s.db.certs, file[p].cn) <==> CnIsTaken(s.db.gens, file[p].cn) {
      CaCertNamesAGeneration(s, file[p].cn);
    }
    if p :| p in file && !HasGeneration(s.db.gens, p) && CnIsTaken(s.db.gens, file[p].cn) {
      BackfillDoublesAName(s, file, p);
    } else {
      NothingToBackfill(s.db, file);
    }
  }

  lemma BackfillDoublesAName(s: State, file: map<string, Declared>, p: string)
    requires Backfilled(s.db, file, p) && CnIsTaken(s.db.gens, file[p].cn)
    ensures !NamesDistinct(Backfill(s.db, file))
  {
    hide CaCertNamed, Config.Slug;
    var gens, id := Backfill(s.db, file), GenId(p, 1);
    var other :| other in s.db.gens && s.db.gens[other].cn == file[p].cn;
    assert other.purpose != p;
    assert id in BackfilledIds(s.db, file) && gens[id].cn == gens[other].cn;
  }

  /** A file that repeats the locked sections, in the loader's terms: names distinct, prefixes apart. */
  ghost predicate RepeatsLocked(s: State, file: map<string, Declared>) {
    && (forall p :: p in s.db.prefixes ==>
          && p in file && GenId(p, 1) in s.db.gens
          && file[p] == Declared(s.db.gens[GenId(p, 1)].cn, s.db.prefixes[p]))
    && (forall p, q :: p in file && q in file && p != q ==> file[p].cn != file[q].cn && Apart(file[p].prefix, file[q].prefix))
  }

  lemma RenewedStore() returns (s: State)
    ensures Reachable(s) && s.db.prefixes == map[ROOT := "r", "s" := "s"] && CnIsTaken(s.db.gens, "ca two")
    ensures !HasGeneration(s.db.gens, "t")
    ensures GenId(ROOT, 1) in s.db.gens && s.db.gens[GenId(ROOT, 1)].cn == "root ca"
    ensures GenId("s", 1) in s.db.gens && s.db.gens[GenId("s", 1)].cn == "ca one"
  {
    hide Reachable, FirstDb, Accepted, Next, Inv;
    SectionsAccepted();
    var s0 := FirstStore(Sections(), 0, 2);
    FirstRows(Sections(), 0);
    FirstGenerations(Sections(), 0);
    ReachableInv(s0);
    RenewsAtOnce(s0, "s", "ca two", Ceremony(40000, 2, 3, true));
    var e := Renew("s", "ca two", Ceremony(40000, 2, 3, true));
    s := Next(s0, e);
    StepIsReachable(s0, e);
    StepMoves(s0, e, GenId(ROOT, 1));
    StepMoves(s0, e, GenId("s", 1));
    assert s0.db.prefixes == map[ROOT := "r", "s" := "s"];
    LockedOnly(s, "t");
  }

  lemma LockedOnly(s: State, purpose: string)
    requires Reachable(s) && purpose !in s.db.prefixes
    ensures !HasGeneration(s.db.gens, purpose)
  {
    hide Reachable;
    ReachableInv(s);
  }

  /** After `init` and `renew signing-ca`, a file with a new section that bears the renewed generation's name. */
  lemma BackfillCanDouble() returns (s: State, file: map<string, Declared>)
    ensures Reachable(s) && RepeatsLocked(s, file) && !NamesDistinct(Backfill(s.db, file))
  {
    hide Reachable, CnIsTaken, HasGeneration, NamesDistinct, Backfill, Apart;
    s := RenewedStore();
    file := map[ROOT := Declared("root ca", "r"), "s" := Declared("ca one", "s"), "t" := Declared("ca two", "t")];
    LettersApart();
    BackfillIsHarmlessExactlyWhen(s, file);
  }

  lemma LettersApart()
    ensures Apart("r", "s") && Apart("s", "r") && Apart("r", "t") && Apart("t", "r") && Apart("s", "t") && Apart("t", "s")
  {
    assert "r"[0] != "s"[0] && "s"[0] != "t"[0] && "r"[0] != "t"[0];
  }
  // ---------------------------------------------------------------- refresh

  /** The generations whose CRLs a step changes. */
  ghost function Rewritten(s: State, s': State): set<GenId>
    requires s'.db.gens == s.db.gens
  {
    set id | id in s.db.gens && CrlsOf(s', id) != CrlsOf(s, id)
  }

  /** A generation keeps its certificate in every later state. */
  lemma {:induction false} OwnStays(s: State, es: seq<Event>, id: GenId)
    requires Inv(s) && id in s.db.gens && id in s.h.own && s.h.own[id] in s.db.certs
    ensures var later := Run(s, es);
            && id in later.db.gens && id in later.h.own && later.h.own[id] == s.h.own[id]
            && s.h.own[id] in later.db.certs && later.db.certs[s.h.own[id]] == s.db.certs[s.h.own[id]]
    decreases |es|
  {
    hide Inv, Next;
    if es != [] {
      OwnStaysOnce(s, es[0], id);
      NextKeeps(s, es[0]);
      OwnStays(Next(s, es[0]), es[1..], id);
    }
  }

  lemma OwnStaysOnce(s: State, e: Event, id: GenId)
    requires Inv(s) && id in s.db.gens && id in s.h.own && s.h.own[id] in s.db.certs
    ensures var later := Next(s, e);
            && id in later.db.gens && id in later.h.own && later.h.own[id] == s.h.own[id]
            && s.h.own[id] in later.db.certs && later.db.certs[s.h.own[id]] == s.db.certs[s.h.own[id]]
  {
    hide TablesInv, Published, ThreadsHold, Next, Enabled, WriteOf, SignerOf, ApplyDb, Recorded, NewRow;
    if Enabled(s, e) {
      TablesKept(s, e);
      StepWrites(s, e);
      WritesGrow(s, WriteOf(s, e), SignerOf(s, e));
      OwnIsRecorded(s, e);
    } else {
      RefusedIsNothing(s, e);
    }
  }

  lemma CollectsAtOnce(s: State, t: nat, scope: Scope)
    requires Reachable(s) && t !in s.threads
    ensures Next(s, Collect(t, scope)) == s.(threads := s.threads[t := Refreshing(scope, Jobs(s, scope))])
  {
    hide Reachable, Inv, Jobs;
    RootIsThere(s);
    RefreshFindsItsJobs(s, scope, ROOT_ID);
  }

  lemma RootIsThere(s: State)
    requires Reachable(s)
    ensures ROOT_ID in s.db.gens
  {
    hide Reachable, TablesInv, Published, ThreadsHold;
    ReachableInv(s);
    TablesParts(s);
    RootIsOne(s);
  }

  /** What the jobs collected in `s` have become when their CRLs are written in `later`. */
  lemma OldJob(s: State, later: State, es: seq<Event>, scope: Scope, id: GenId)
    requires Reachable(s) && Reachable(later) && later == Run(s, es) && s.now <= later.now && id in s.db.gens
    ensures id in later.db.gens && (id in Jobs(later, scope) ==> id in Jobs(s, scope))
  {
    hide Reachable, Inv, Jobs, Run;
    ReachableInv(s);
    RefreshFindsItsJobs(s, scope, id);
    OwnStays(s, es, id);
    RunAges(s, es, id);
    RefreshFindsItsJobs(later, scope, id);
  }

  /** The CRLs a refresh writes are those of the generations it is given. */
  lemma RefreshRewrites(s: State, t: nat, jobs: set<GenId>)
    requires Reachable(s) && t in s.threads && s.threads[t].Refreshing? && jobs <= s.threads[t].jobs
    ensures Enabled(s, Refresh(t, jobs)) && Next(s, Refresh(t, jobs)).db == s.db
    ensures Rewritten(s, Next(s, Refresh(t, jobs))) == jobs
  {
    hide Reachable, TablesInv, Published, RefreshStep, CrlsOf;
    ReachableInv(s);
    assert Holds(s.threads[t], s.db, s.h.own);
    forall id | id in jobs ensures HasCrl(s.files, s.db.gens[id].slug) { CrlIsThere(s, id); }
    hide Inv, ThreadsHold, Holds;
    var s' := Next(s, Refresh(t, jobs));
    RefreshKeepsDb(s, jobs);
    forall id | id in s.db.gens ensures CrlsOf(s', id) != CrlsOf(s, id) <==> id in jobs {
      RefreshFrames(s, jobs, id);
      SameCrls(RefreshStep(s, jobs), s', id);
    }
  }

  lemma RefreshKeepsDb(s: State, jobs: set<GenId>)
    requires Rewritable(s, jobs)
    ensures RefreshStep(s, jobs).db == s.db
  {
  }

  lemma SameCrls(s: State, s': State, id: GenId)
    requires id in s.db.gens && s'.db == s.db && s'.files == s.files
    ensures CrlsOf(s', id) == CrlsOf(s, id)
  {
  }

  lemma CrlIsThere(s: State, id: GenId)
    requires Reachable(s) && id in s.db.gens
    ensures HasCrl(s.files, s.db.gens[id].slug)
  {
    hide Reachable, Inv;
    var fp := FilesMatchTheIndex(s, id);
  }

  /** Revoked or expired: no refresh should sign its CRL any more. */
  predicate Over(s: State, id: GenId)
    requires id in s.db.gens
  {
    || s.db.gens[id].status == Revoked
    || (LoadCaCert(s.files, s.db.gens[id].slug).Some? && LoadCaCert(s.files, s.db.gens[id].slug).value.cert.notAfter <= s.now)
  }

  lemma JobUnlessOver(s: State, scope: Scope, id: GenId)
    requires Reachable(s) && id in s.db.gens
    ensures id in Jobs(s, scope) <==> InScope(scope, id.purpose) && !Over(s, id)
  {
    hide Reachable, Inv;
    RefreshFindsItsJobs(s, scope, id);
    var fp := FilesMatchTheIndex(s, id);
  }

  /**
   `refresh` collects its jobs before the lock and writes their CRLs under it. What
   it then re-signs are the CRLs of the live, unexpired generations in scope exactly
   when none of its jobs has been revoked or has expired meanwhile, and no other such
   generation has been added. The clock may not go back in between.
   */
  lemma RefreshesTheLiveExactlyWhen(s: State, t: nat, scope: Scope, es: seq<Event>)
    requires Reachable(s) && t !in s.threads
    requires forall e :: e in es ==> Spares(Refreshing(scope, Jobs(s, scope)), e, t)
    requires s.now <= Run(Next(s, Collect(t, scope)), es).now
    ensures var later, jobs := Run(Next(s, Collect(t, scope)), es), Jobs(s, scope);
            && Enabled(later, Refresh(t, jobs)) && Next(later, Refresh(t, jobs)).db == later.db
            && Rewritten(later, Next(later, Refresh(t, jobs))) == jobs && jobs <= later.db.gens.Keys
            && (jobs == Jobs(later, scope) <==>
                  && (forall id :: id in jobs ==> !Over(later, id))
                  && (forall id :: id in later.db.gens && id !in s.db.gens && InScope(scope, id.purpose) ==> Over(later, id)))
  {
    hide Reachable, Jobs, Run, Next, Over, CrlsOf;
    var start, jobs := Next(s, Collect(t, scope)), Jobs(s, scope);
    var later := Run(start, es);
    CollectsAtOnce(s, t, scope);
    StepIsReachable(s, Collect(t, scope));
    LaterIsReachable(start, es);
    ThreadWaits(start, es, t);
    RefreshRewrites(later, t, jobs);
    JobsAreKnown(s, scope);
    JobsAgree(s, start, scope);
    forall id | id in s.db.gens ensures id in later.db.gens && (id in Jobs(later, scope) ==> id in jobs) {
      OldJob(start, later, es, scope, id);
    }
    forall id | id in later.db.gens
      ensures id in Jobs(later, scope) <==> InScope(scope, id.purpose) && !Over(later, id)
    {
      JobUnlessOver(later, scope, id);
    }
    JobsAreKnown(later, scope);
  }

  lemma JobsAreKnown(s: State, scope: Scope)
    ensures forall id :: id in Jobs(s, scope) ==> id in s.db.gens && InScope(scope, id.purpose)
  {
  }

  lemma JobsAgree(s: State, s': State, scope: Scope)
    requires s'.db == s.db && s'.files == s.files && s'.now == s.now
    ensures Jobs(s', scope) == Jobs(s, scope)
  {
  }

  lemma RetiredIsRevocable(s: State, id: GenId)
    requires Reachable(s) && id in s.db.gens && id.purpose != ROOT && s.db.gens[id].status == Retiring
    ensures Enabled(s, RevokeCa(s.db.gens[id].cn, true)) && GenByCn(s.db.gens, s.db.gens[id].cn) == Some(id)
  {
    hide Reachable, TablesInv, Published, ThreadsHold, Lineage, Slugged, PrefixesApart, Owns, Origins, KeysDistinct;
    ReachableInv(s);
    TablesParts(s);
    LookupFinds(s.db.gens, id);
    RootIsOne(s);
    IsUnrevoked(s, id);
    CrlIsThere(s, ROOT_ID);
    var fp := FilesMatchTheIndex(s, ROOT_ID);
  }

  lemma IsUnrevoked(s: State, id: GenId)
    requires Inv(s) && id in s.db.gens && s.db.gens[id].status != Revoked
    ensures LoadCaCert(s.files, s.db.gens[id].slug).Some?
    ensures LoadCaCert(s.files, s.db.gens[id].slug).value.fp !in s.db.revoked
  {
    hide ThreadsHold, Lineage, Slugged, PrefixesApart, NamesDistinct, Owns, Origins, KeysDistinct;
    TablesParts(s);
    hide TablesInv;
    assert IsPublished(s.db, s.files, s.h.own, id);
  }

  /** A retired generation revoked while a refresh waits still gets a new CRL. */
  lemma RevokedIsRefreshed(s: State, t: nat, scope: Scope, id: GenId)
    requires Reachable(s) && t !in s.threads && id in Jobs(s, scope) && id.purpose != ROOT
    requires id in s.db.gens && s.db.gens[id].status == Retiring
    ensures var later, jobs := Run(Next(s, Collect(t, scope)), [RevokeCa(s.db.gens[id].cn, true)]), Jobs(s, scope);
            && Enabled(later, Refresh(t, jobs)) && Next(later, Refresh(t, jobs)).db == later.db
            && id in later.db.gens && later.db.gens[id].status == Revoked
            && id in Rewritten(later, Next(later, Refresh(t, jobs)))
  {
    hide Reachable, Jobs, Rewritten;
    var es, start := [RevokeCa(s.db.gens[id].cn, true)], Next(s, Collect(t, scope));
    CollectsAtOnce(s, t, scope);
    StepIsReachable(s, Collect(t, scope));
    RetiredIsRevocable(start, id);
    RunOne(start, es[0]);
    RevokeCaMarks(start, id);
    hide Next, Run, Enabled;
    RefreshesTheLiveExactlyWhen(s, t, scope, es);
  }

  lemma RunOne(s: State, e: Event)
    ensures Run(s, [e]) == Next(s, e)
  {
    hide Next;
    assert [e][1..] == [];
  }

  lemma RevokeCaMarks(s: State, id: GenId)
    requires id in s.db.gens && Enabled(s, RevokeCa(s.db.gens[id].cn, true)) && GenByCn(s.db.gens, s.db.gens[id].cn) == Some(id)
    ensures var later := Next(s, RevokeCa(s.db.gens[id].cn, true));
            later.now == s.now && id in later.db.gens && later.db.gens[id].status == Revoked
  {
    hide RewriteCrl, HasCrl;
  }

  lemma FirstRow(sections: map<string, Section>, now: int, p: string)
    requires Accepted(sections) && p in sections
    ensures sections[p].fp in FirstDb(sections, now).certs
    ensures FirstDb(sections, now).certs[sections[p].fp] == FirstCert(sections, p, now).cert
  {
    hide Apart, Config.Slug, PurposeIds;
  }

  /** After `init` and `renew signing-ca`, generation 1 is retiring and a refresh would take it up. */
  lemma RetiringJob() returns (s: State)
    ensures Reachable(s) && s.threads == map[] && GenId("s", 1) in s.db.gens
    ensures s.db.gens[GenId("s", 1)].status == Retiring && GenId("s", 1) in Jobs(s, SigningScope)
  {
    hide Reachable, FirstDb, Accepted, Next, Inv, Jobs;
    var id, e := GenId("s", 1), Renew("s", "ca two", Ceremony(40000, 2, 3, true));
    SectionsAccepted();
    var s0 := FirstStore(Sections(), 0, 2);
    FirstRows(Sections(), 0);
    FirstRow(Sections(), 0, "s");
    FirstGenerations(Sections(), 0);
    ReachableInv(s0);
    RenewsAtOnce(s0, "s", "ca two", Ceremony(40000, 2, 3, true));
    s := Next(s0, e);
    StepIsReachable(s0, e);
    StepMoves(s0, e, id);
    if s.db.gens[id].status == Active { OnlyActive(s, id); }
    JobUnlessOver(s, SigningScope, id);
    var fp := FilesMatchTheIndex(s, id);
    assert s.db.certs[1] == s0.db.certs[1];
  }

  /** `init`, `renew signing-ca`; `refresh` collects; `revoke ca`; `refresh` re-signs the revoked generation's CRL. */
  lemma RefreshSignsARevokedOne() returns (s: State, es: seq<Event>)
    ensures var later, jobs := Run(Next(s, Collect(0, SigningScope)), es), Jobs(s, SigningScope);
            && Reachable(s) && s.threads == map[] && Enabled(later, Refresh(0, jobs))
            && Next(later, Refresh(0, jobs)).db == later.db
            && exists id :: id in later.db.gens && later.db.gens[id].status == Revoked
                            && id in Rewritten(later, Next(later, Refresh(0, jobs)))
  {
    hide Reachable, Jobs, Run, Next, Enabled, Rewritten;
    s := RetiringJob();
    es := [RevokeCa(s.db.gens[GenId("s", 1)].cn, true)];
    RevokedIsRefreshed(s, 0, SigningScope, GenId("s", 1));
  }
}
