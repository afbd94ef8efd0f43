/**
 The chain of issuers served above a certificate: from authority key identifier to
 subject key identifier, nearest first, short of the self-signed anchor. The index
 may hold anything; the visited set is what bounds the walk.
 */
module IssuerWalk {
  import opened Strings
  import opened CaStore
  import opened CaLineage
  import opened CaCrl
  import Config

  type KeyId = Option<nat>

  /** A certificate as the walk sees it; an absent extension is `None`. */
  datatype WalkCert = WalkCert(fp: nat, ski: KeyId, aki: KeyId)

  /** `rows` is the identifier column of the index, `blobs` the stored certificates. */
  datatype Index = Index(rows: map<nat, KeyId>, blobs: map<nat, WalkCert>)

  /** The first fingerprint, in order, whose row has that identifier. */
  ghost function Lowest(rows: map<nat, KeyId>, key: KeyId): (r: Option<nat>)
    ensures r.None? ==> forall fp :: fp in rows ==> rows[fp] != key
    ensures r.Some? ==> r.value in rows && rows[r.value] == key && forall fp :: fp in rows && rows[fp] == key ==> r.value <= fp
  {
    var fps := set fp | fp in rows && rows[fp] == key;
    assert forall fp :: fp in rows && rows[fp] == key ==> fp in fps;
    if fps == {} then None else Some(Least(fps))
  }

  ghost function Least(fps: set<nat>): (m: nat)
    requires fps != {}
    ensures m in fps && forall fp :: fp in fps ==> m <= fp
  {
    var fp :| fp in fps;
    if fps == {fp} then fp else
      assert fps - {fp} != {} by { assert fps != {fp}; assert forall x :: x in fps && x !in fps - {fp} ==> x == fp; }
      var m := Least(fps - {fp});
      assert forall x :: x in fps ==> x == fp || x in fps - {fp};
      if fp < m then fp else m
  }

  /** The next issuer, unless there is none, it was seen, it is missing, or it is an anchor. */
  ghost function Above(index: Index, c: WalkCert, seen: set<nat>): Option<WalkCert> {
    if c.aki == None || c.aki == c.ski then None else
    var fp := Lowest(index.rows, c.aki);
    if fp.None? || fp.value in seen || fp.value !in index.blobs then None else
    var issuer := index.blobs[fp.value];
    if issuer.ski == issuer.aki then None else Some(issuer)
  }

  ghost function Walk(index: Index, c: WalkCert, seen: set<nat>): seq<WalkCert>
    decreases index.rows.Keys - seen
  {
    var issuer := Above(index, c, seen);
    if issuer.None? then [] else
    var fp := Lowest(index.rows, c.aki).value;
    assert fp in index.rows.Keys - seen;
    [issuer.value] + Walk(index, issuer.value, seen + {fp})
  }

  /** Blobs are stored under their fingerprints. */
  ghost predicate Stores(index: Index) {
    forall fp :: fp in index.blobs ==> index.blobs[fp].fp == fp
  }

  /** The first row, in order of fingerprints, with that identifier. */
  ghost predicate IsLowest(rows: map<nat, KeyId>, key: KeyId, fp: nat) {
    fp in rows && rows[fp] == key && forall other :: other in rows && rows[other] == key ==> fp <= other
  }

  lemma LowestIsLowest(rows: map<nat, KeyId>, key: KeyId, fp: nat)
    ensures Lowest(rows, key) == Some(fp) <==> IsLowest(rows, key, fp)
  {
  }

  /** Each certificate is the lowest-numbered one with the key its predecessor names. */
  ghost predicate Linked(index: Index, c: WalkCert, chain: seq<WalkCert>) {
    forall i :: 0 <= i < |chain| ==>
      IsLowest(index.rows, (if i == 0 then c else chain[i - 1]).aki, chain[i].fp)
  }

  /** Nothing above: no key named, its own key, no row of it, or the lowest such row visited, without its certificate, or an anchor. */
  ghost predicate AtTop(index: Index, c: WalkCert, seen: set<nat>) {
    || c.aki == None || c.aki == c.ski || (forall fp :: fp in index.rows ==> index.rows[fp] != c.aki)
    || exists fp :: IsLowest(index.rows, c.aki, fp)
         && (fp in seen || fp !in index.blobs || index.blobs[fp].ski == index.blobs[fp].aki)
  }

  lemma AtTopExactlyWhen(index: Index, c: WalkCert, seen: set<nat>)
    ensures Above(index, c, seen).None? <==> AtTop(index, c, seen)
  {
    if fp :| IsLowest(index.rows, c.aki, fp) { LowestIsLowest(index.rows, c.aki, fp); }
    if Lowest(index.rows, c.aki).Some? { LowestIsLowest(index.rows, c.aki, Lowest(index.rows, c.aki).value); }
  }

  ghost predicate Fresh(chain: seq<WalkCert>, seen: set<nat>) {
    && (forall i :: 0 <= i < |chain| ==> chain[i].fp !in seen)
    && (forall i, j :: 0 <= i < j < |chain| ==> chain[i].fp != chain[j].fp)
  }

  lemma {:induction false} WalkIsAChain(index: Index, c: WalkCert, seen: set<nat>)
    requires Stores(index)
    ensures var chain := Walk(index, c, seen);
            && Linked(index, c, chain) && Fresh(chain, seen)
            && (forall i :: 0 <= i < |chain| ==> chain[i].ski != chain[i].aki)
            && (forall i :: 0 <= i < |chain| ==> chain[i].fp in index.blobs && index.blobs[chain[i].fp] == chain[i])
    decreases index.rows.Keys - seen
  {
    hide Lowest;
    var issuer := Above(index, c, seen);
    if issuer.Some? {
      var fp := issuer.value.fp;
      assert Lowest(index.rows, c.aki) == Some(fp);
      LowestIsARow(index.rows, c.aki);
      LowestIsLowest(index.rows, c.aki, fp);
      WalkIsAChain(index, issuer.value, seen + {fp});
      var rest := Walk(index, issuer.value, seen + {fp});
      assert Walk(index, c, seen) == [issuer.value] + rest;
    }
  }

  lemma LowestIsARow(rows: map<nat, KeyId>, key: KeyId)
    ensures Lowest(rows, key).Some? ==> Lowest(rows, key).value in rows
  {
  }

  /** The chain goes as far as it can: its last certificate has no issuer to add. */
  lemma {:induction false} WalkIsMaximal(index: Index, c: WalkCert, seen: set<nat>)
    requires Stores(index)
    ensures var chain := Walk(index, c, seen);
            AtTop(index, if chain == [] then c else chain[|chain| - 1], seen + set x | x in chain :: x.fp)
    decreases index.rows.Keys - seen
  {
    hide Lowest, IsLowest, AtTop;
    var issuer := Above(index, c, seen);
    var chain := Walk(index, c, seen);
    AtTopExactlyWhen(index, c, seen);
    if issuer.Some? {
      var fp := issuer.value.fp;
      assert Lowest(index.rows, c.aki) == Some(fp);
      LowestIsARow(index.rows, c.aki);
      var rest := Walk(index, issuer.value, seen + {fp});
      WalkIsMaximal(index, issuer.value, seen + {fp});
      assert chain == [issuer.value] + rest;
      assert seen + {fp} + (set x | x in rest :: x.fp) == seen + set x | x in chain :: x.fp;
    } else {
      assert seen + (set x | x in chain :: x.fp) == seen;
    }
  }

  // ---------------------------------------------------------------- the loop

  method FindLowest(rows: map<nat, KeyId>, key: KeyId) returns (r: Option<nat>)
    ensures r == Lowest(rows, key)
  {
    r := None;
    var rest := rows.Keys;
    while rest != {}
      invariant rest <= rows.Keys
      invariant r.None? ==> forall fp :: fp in rows && fp !in rest ==> rows[fp] != key
      invariant r.Some? ==> r.value in rows && rows[r.value] == key && r.value !in rest
                            && forall fp :: fp in rows && fp !in rest && rows[fp] == key ==> r.value <= fp
      decreases rest
    {
      var fp :| fp in rest;
      rest := rest - {fp};
      if rows[fp] == key && (r.None? || fp < r.value) { r := Some(fp); }
    }
  }

  method IssuersAbove(index: Index, cert: WalkCert) returns (out: seq<WalkCert>)
    ensures out == Walk(index, cert, {cert.fp})
  {
    out := [];
    var c, seen := cert, {cert.fp};
    while true
      invariant out + Walk(index, c, seen) == Walk(index, cert, {cert.fp})
      decreases index.rows.Keys - seen
    {
      if c.aki == None || c.aki == c.ski { return; }
      var fp := FindLowest(index.rows, c.aki);
      if fp.None? || fp.value in seen { return; }
      if fp.value !in index.blobs { return; }
      var issuer := index.blobs[fp.value];
      if issuer.ski == issuer.aki { return; }
      assert fp.value in index.rows.Keys - seen;
      out := out + [issuer];
      seen := seen + {fp.value};
      c := issuer;
    }
  }

  // ---------------------------------------------------------------- over the CA store

  function Seen(fp: nat, c: Cert): WalkCert {
    WalkCert(fp, Some(c.ski), Some(c.aki))
  }

  function IndexOf(db: Db): Index {
    Index(map fp | fp in db.certs :: Some(db.certs[fp].ski), map fp | fp in db.certs :: Seen(fp, db.certs[fp]))
  }

  /** Every signing certificate names the root's key, and the root its own. */
  ghost predicate Anchored(certs: map<nat, Cert>, own: map<GenId, nat>) {
    && ROOT_ID in own && own[ROOT_ID] in certs && certs[own[ROOT_ID]].kind == RootCa
    && (forall fp :: fp in certs && certs[fp].kind == SigningCa ==> certs[fp].aki == certs[own[ROOT_ID]].ski)
    && (forall fp :: fp in certs && certs[fp].kind == RootCa ==> certs[fp].aki == certs[fp].ski)
  }

  lemma RootFileIsOwn(s: State)
    requires Lineage(s.db, s.h.tops) && Published(s.db, s.files, s.h.own)
    ensures ROOT_ID in s.h.own && s.h.own[ROOT_ID] in s.db.certs
    ensures RootCert(s) == Some(Stored(s.h.own[ROOT_ID], s.db.certs[s.h.own[ROOT_ID]]))
  {
    RootIsOne(s);
    hide Lineage;
    assert IsPublished(s.db, s.files, s.h.own, ROOT_ID);
  }

  /** The only CA certificate a step adds is a signing one, with the root's key above it. */
  lemma NewCertAnchored(s: State, e: Event, fp: nat)
    requires Lineage(s.db, s.h.tops) && Published(s.db, s.files, s.h.own) && Enabled(s, e)
    requires fp in Next(s, e).db.certs && fp !in s.db.certs && (e.Issue? || e.Renew? || e.Add?)
    ensures Next(s, e).db.certs[fp].kind != RootCa
    ensures ROOT_ID in s.h.own && s.h.own[ROOT_ID] in s.db.certs
    ensures Next(s, e).db.certs[fp].kind == SigningCa ==> Next(s, e).db.certs[fp].aki == s.db.certs[s.h.own[ROOT_ID]].ski
  {
    RootFileIsOwn(s);
    hide Lineage, Published, Config.Slug, MintFiles, Apart, CnIsTaken, FreshKey;
  }

  lemma RootStays(s: State, e: Event)
    requires Inv(s) && Enabled(s, e) && ROOT_ID in s.h.own
    ensures ROOT_ID in Next(s, e).h.own && Next(s, e).h.own[ROOT_ID] == s.h.own[ROOT_ID]
  {
    hide TablesInv, Lineage, Owns, Origins, NamesDistinct, Published, ThreadsHold, Next, Enabled, Slugged, WriteOf, SignerOf,
         ApplyDb, Recorded, PrefixesApart, KeysDistinct, StatusesMatch, NewRow, NewCert, NewGen, Grows;
    TablesParts(s);
    TablesKept(s, e);
    StepWrites(s, e);
    WritesGrow(s, WriteOf(s, e), SignerOf(s, e));
  }

  lemma AnchorGrows(certs: map<nat, Cert>, own: map<GenId, nat>, after: map<nat, Cert>, later: map<GenId, nat>)
    requires Anchored(certs, own) && ROOT_ID in later && later[ROOT_ID] == own[ROOT_ID]
    requires forall fp :: fp in certs ==> fp in after && after[fp] == certs[fp]
    requires forall fp :: fp in after && fp !in certs ==>
               after[fp].kind != RootCa && (after[fp].kind == SigningCa ==> after[fp].aki == certs[own[ROOT_ID]].ski)
    ensures Anchored(after, later)
  {
  }

  lemma AnchorKnown(certs: map<nat, Cert>, own: map<GenId, nat>)
    requires Anchored(certs, own)
    ensures ROOT_ID in own && own[ROOT_ID] in certs
  {
  }

  lemma AnchoredKept(s: State, e: Event)
    requires Inv(s) && Anchored(s.db.certs, s.h.own)
    ensures Anchored(Next(s, e).db.certs, Next(s, e).h.own)
  {
    hide Inv, Enabled, TablesInv, Lineage, Published, ThreadsHold, Anchored;
    if Enabled(s, e) {
      hide Next;
      AnchorKnown(s.db.certs, s.h.own);
      LineageAndThreads(s);
      FilesPublished(s);
      RootStays(s, e);
      var certs, certs' := s.db.certs, Next(s, e).db.certs;
      forall fp | fp in certs ensures fp in certs' && certs'[fp] == certs[fp] { CarrierStays(s, e, fp); }
      forall fp | fp in certs' && fp !in certs
        ensures certs'[fp].kind != RootCa && (certs'[fp].kind == SigningCa ==> certs'[fp].aki == certs[s.h.own[ROOT_ID]].ski)
      {
        NewCertificate(s, e, fp);
        NewCertAnchored(s, e, fp);
      }
      AnchorGrows(certs, s.h.own, certs', Next(s, e).h.own);
    }
  }

  lemma FirstAnchored(sections: map<string, Section>, now: int)
    requires Accepted(sections)
    ensures Anchored(FirstDb(sections, now).certs, FirstHistory(sections).own)
  {
    var certs, own := FirstDb(sections, now).certs, FirstHistory(sections).own;
    FirstRows(sections, now, ROOT);
    assert ROOT_ID in own;
    forall fp | fp in certs
      ensures certs[fp].kind == SigningCa ==> certs[fp].aki == certs[own[ROOT_ID]].ski
      ensures certs[fp].kind == RootCa ==> certs[fp].aki == certs[fp].ski
    {
      var p := FirstCertsAre(sections, now, fp);
      FirstRows(sections, now, p);
    }
  }

  lemma {:induction false} ReachableInAnchored(s: State, steps: nat)
    requires ReachableIn(s, steps)
    ensures Inv(s) && Anchored(s.db.certs, s.h.own)
    decreases steps
  {
    hide Inv, Anchored, Next, Accepted, CaStore.Numbered, FirstDb, FirstHistory, FirstFiles;
    if steps == 0 {
      var sections: map<string, Section> :|
        Accepted(sections) && CaStore.Numbered(sections, s.nextFp) && s == Init(sections, s.now, s.nextFp);
      InitOk(sections, s.now, s.nextFp);
      FirstAnchored(sections, s.now);
    } else {
      var before: State, e: Event :| ReachableIn(before, steps - 1) && s == Next(before, e);
      ReachableInAnchored(before, steps - 1);
      NextKeeps(before, e);
      AnchoredKept(before, e);
    }
  }

  lemma ReachableAnchored(s: State)
    requires Reachable(s)
    ensures Inv(s) && Anchored(s.db.certs, s.h.own)
  {
    hide Inv, Anchored, ReachableIn;
    var steps: nat :| ReachableIn(s, steps);
    ReachableInAnchored(s, steps);
  }

  /** A CA key is found on one row only. */
  lemma KeyFindsItsCert(db: Db, fp: nat)
    requires KeysDistinct(db.certs) && fp in db.certs && !db.certs[fp].kind.Leaf?
    ensures Lowest(IndexOf(db).rows, Some(db.certs[fp].ski)) == Some(fp)
  {
    var r := Lowest(IndexOf(db).rows, Some(db.certs[fp].ski));
    assert fp in IndexOf(db).rows;
    assert r.Some? && db.certs[r.value].ski == db.certs[fp].ski;
  }

  /** A leaf whose key names `ca`, under an anchor whose key `ca` names. */
  lemma OneLinkChain(db: Db, fp: nat, ca: nat, root: nat)
    requires KeysDistinct(db.certs) && fp in db.certs && ca in db.certs && root in db.certs
    requires db.certs[fp].kind.Leaf? && db.certs[ca].kind == SigningCa && db.certs[root].kind == RootCa
    requires db.certs[fp].aki == db.certs[ca].ski && db.certs[ca].aki == db.certs[root].ski == db.certs[root].aki
    ensures Walk(IndexOf(db), Seen(fp, db.certs[fp]), {fp}) == [Seen(ca, db.certs[ca])]
  {
    hide Lowest;
    KeyFindsItsCert(db, ca);
    KeyFindsItsCert(db, root);
    var index := IndexOf(db);
    var leaf, issuer := Seen(fp, db.certs[fp]), Seen(ca, db.certs[ca]);
    assert db.certs[ca].ski != db.certs[fp].ski && db.certs[root].ski != db.certs[ca].ski;
    assert Above(index, leaf, {fp}) == Some(issuer);
    assert Above(index, issuer, {fp} + {ca}).None?;
    assert Walk(index, leaf, {fp}) == [issuer] + Walk(index, issuer, {fp} + {ca});
  }

  lemma LeafNamesItsIssuer(s: State, fp: nat)
    requires Owns(s.db, s.h) && Origins(s.db, s.h, s.nextFp) && fp in s.db.certs && s.db.certs[fp].kind.Leaf?
    ensures fp in s.h.origin && s.h.origin[fp] in s.h.own
    ensures var ca := s.h.own[s.h.origin[fp]];
            ca in s.db.certs && s.db.certs[ca].kind == SigningCa && s.db.certs[fp].aki == s.db.certs[ca].ski
  {
    assert Placed(s.db, s.h, fp);
    OwnNames(s, s.h.origin[fp]);
  }

  /** Above a leaf there is just the certificate of the generation that issued it. */
  lemma LeafChainIsItsIssuer(s: State, fp: nat)
    requires Reachable(s) && fp in s.db.certs && s.db.certs[fp].kind.Leaf?
    ensures fp in s.h.origin && s.h.origin[fp] in s.h.own && s.h.own[s.h.origin[fp]] in s.db.certs
    ensures var ca := s.h.own[s.h.origin[fp]];
            Walk(IndexOf(s.db), Seen(fp, s.db.certs[fp]), {fp}) == [Seen(ca, s.db.certs[ca])]
  {
    hide Reachable, Inv, TablesInv, Lineage, Slugged, PrefixesApart, NamesDistinct, Owns, Origins, KeysDistinct,
         StatusesMatch, Walk;
    ReachableAnchored(s);
    InvTables(s);
    TablesParts(s);
    LeafNamesItsIssuer(s, fp);
    OneLinkChain(s.db, fp, s.h.own[s.h.origin[fp]], s.h.own[ROOT_ID]);
  }
}
