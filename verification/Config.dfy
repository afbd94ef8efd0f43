/**
 The checks of the configuration loader that span several CAs: names claimed by
 one CA only, and slug prefixes that stay apart once generation numbers are
 appended. Artifacts of every CA generation share one directory under these slugs.
 */
module Config {
  import opened Strings

  datatype Ca = Ca(slugPrefix: string, cn: string, profiles: seq<string>, policies: map<string, seq<string>>)

  /** `cas` in the order of their purposes. The root issues under no profile. */
  datatype Config = Config(root: Ca, cas: seq<Ca>)

  // ---------------------------------------------------------------- decimal numerals

  function Decimal(n: nat): (s: string)
    ensures s != ""
  {
    if n < 10 then [DigitOf(n)] else Decimal(n / 10) + [DigitOf(n % 10)]
  }

  function DigitOf(d: nat): (c: char)
    requires d < 10
    ensures IsDigit(c)
  {
    '0' + d as char
  }

  function Numeral(s: string): int {
    if s == "" then 0 else Numeral(s[..|s| - 1]) * 10 + (s[|s| - 1] as int - '0' as int)
  }

  lemma {:induction false} DecimalIsNumeral(n: nat)
    ensures AllDigits(Decimal(n)) && Numeral(Decimal(n)) == n && (n > 0 ==> Decimal(n)[0] != '0')
  {
    if n < 10 {
      assert Decimal(n)[..0] == "";
    } else {
      DecimalIsNumeral(n / 10);
      assert Decimal(n)[..|Decimal(n)| - 1] == Decimal(n / 10);
    }
  }

  /** A numeral without a leading zero is the decimal form of a positive number. */
  lemma {:induction false} NumeralIsDecimal(s: string)
    requires s != "" && AllDigits(s) && s[0] != '0'
    ensures Numeral(s) > 0 && Decimal(Numeral(s)) == s
    decreases |s|
  {
    var front, last := s[..|s| - 1], s[|s| - 1];
    assert last in s && forall c :: c in front ==> c in s;
    assert s == front + [last];
    if front != "" {
      NumeralIsDecimal(front);
      LastDigit(Numeral(front), last);
    }
  }

  lemma LastDigit(n: nat, last: char)
    requires n > 0 && IsDigit(last)
    ensures var whole := n * 10 + (last as int - '0' as int);
            whole >= 10 && Decimal(whole) == Decimal(n) + [last]
  {
    var whole := n * 10 + (last as int - '0' as int);
    assert whole / 10 == n && whole % 10 == last as int - '0' as int;
  }

  // ---------------------------------------------------------------- slugs

  function Slug(prefix: string, gen: nat): string {
    prefix + Decimal(gen)
  }

  /** `b` is `a` plus digits. */
  ghost predicate DigitsApart(a: string, b: string) {
    |a| <= |b| && b[..|a|] == a && AllDigits(b[|a|..])
  }

  method AreDigitsApart(a: string, b: string) returns (apart: bool)
    ensures apart == DigitsApart(a, b)
  {
    if |a| > |b| || b[..|a|] != a { return false; }
    for i := |a| to |b|
      invariant forall k :: |a| <= k < i ==> IsDigit(b[k])
    {
      if b[i] < '0' || b[i] > '9' {
        assert !IsDigit(b[|a|..][i - |a|]);
        return false;
      }
    }
    apart := true;
  }

  /** The shorter prefix of a collision is the longer one less some digits of its own generation. */
  lemma CollisionIsDigitsApart(a: string, i: nat, b: string, j: nat)
    requires Slug(a, i) == Slug(b, j) && |a| <= |b|
    ensures DigitsApart(a, b)
    ensures i > 0 && |a| < |b| ==> b[|a|] != '0'
  {
    DecimalIsNumeral(i);
    var s := Slug(a, i);
    assert a == s[..|a|] && b == s[..|b|] && Decimal(i) == s[|a|..];
    assert b[|a|..] == Decimal(i)[..|b| - |a|];
  }

  lemma SlugIsInjective(prefix: string, i: nat, j: nat)
    requires Slug(prefix, i) == Slug(prefix, j)
    ensures i == j
  {
    DecimalIsNumeral(i);
    DecimalIsNumeral(j);
    assert Decimal(i) == Slug(prefix, i)[|prefix|..] && Decimal(j) == Slug(prefix, j)[|prefix|..];
  }

  /** Some generations of the two prefixes share a slug. */
  ghost predicate Collide(a: string, b: string) {
    exists i: nat, j: nat :: i > 0 && j > 0 && Slug(a, i) == Slug(b, j)
  }

  ghost predicate DigitsApartWithoutZero(a: string, b: string) {
    DigitsApart(a, b) && |a| < |b| && b[|a|] != '0'
  }

  /** The check is exact but for one case: extra digits starting with zero are refused and cannot collide. */
  lemma CollideExactlyWhen(a: string, b: string)
    requires a != b
    ensures Collide(a, b) <==> DigitsApartWithoutZero(a, b) || DigitsApartWithoutZero(b, a)
  {
    if i: nat, j: nat :| i > 0 && j > 0 && Slug(a, i) == Slug(b, j) {
      if |a| <= |b| {
        CollisionIsDigitsApart(a, i, b, j);
        assert a == b[..|a|] && b == b[..|b|];
      } else {
        CollisionIsDigitsApart(b, j, a, i);
      }
    }
    if DigitsApartWithoutZero(a, b) { Collision(a, b); }
    if DigitsApartWithoutZero(b, a) { Collision(b, a); }
  }

  lemma Collision(a: string, b: string)
    requires DigitsApartWithoutZero(a, b)
    ensures Collide(a, b) && Collide(b, a)
  {
    var digits := b[|a|..] + "1";
    assert digits[0] == b[|a|];
    NumeralIsDecimal(digits);
    assert Slug(a, Numeral(digits)) == b + "1" by { assert b == a + b[|a|..]; }
    assert Slug(b, 1) == b + "1";
  }

  // ---------------------------------------------------------------- what the loader accepts

  function Everyone(c: Config): seq<Ca> {
    [c.root] + c.cas
  }

  /** Every profile claim, CA by CA. */
  function Claims(cas: seq<Ca>): seq<string> {
    if cas == [] then [] else Claims(cas[..|cas| - 1]) + cas[|cas| - 1].profiles
  }

  ghost predicate Accepted(c: Config) {
    var all := Everyone(c);
    && (forall i :: 0 <= i < |all| ==> all[i].slugPrefix != "" && all[i].cn != "")
    && (forall i, j :: 0 <= i < j < |all| ==> all[i].slugPrefix != all[j].slugPrefix && all[i].cn != all[j].cn)
    && NoDuplicates(Claims(c.cas))
    && (forall i, j :: 0 <= i < |all| && 0 <= j < |all| && i != j ==> !DigitsApart(all[i].slugPrefix, all[j].slugPrefix))
  }

  /** No two generations of the CAs of an accepted configuration share their artifacts' slug. */
  lemma SlugsNeverCollide(c: Config, i: nat, j: nat, g: nat, h: nat)
    requires Accepted(c) && i < |Everyone(c)| && j < |Everyone(c)|
    requires Slug(Everyone(c)[i].slugPrefix, g) == Slug(Everyone(c)[j].slugPrefix, h)
    ensures i == j && g == h
  {
    var a, b := Everyone(c)[i].slugPrefix, Everyone(c)[j].slugPrefix;
    if |a| <= |b| { CollisionIsDigitsApart(a, g, b, h); } else { CollisionIsDigitsApart(b, h, a, g); }
    SlugIsInjective(a, g, h);
  }

  // ---------------------------------------------------------------- the loader's loops

  datatype What = SlugPrefix | CommonName

  datatype Fault =
    | Empty(what: What, section: nat)
    | Shared(what: What, section: nat, name: string)
    | SharedProfile(section: nat, profile: string)
    | OnlyDigitsApart(a: string, b: string)

  /** The first `n` of the names are distinct, leaving aside the empty ones, which are faults already. */
  ghost predicate Distinct(names: seq<string>, n: nat)
    requires n <= |names|
  {
    forall i, j :: 0 <= i < j < n && names[i] != "" ==> names[i] != names[j]
  }

  ghost function Taken(names: seq<string>, n: nat): set<string>
    requires n <= |names|
  {
    set i | 0 <= i < n && names[i] != "" :: names[i]
  }

  function Prefixes(cas: seq<Ca>): (names: seq<string>)
    ensures |names| == |cas| && forall i :: 0 <= i < |cas| ==> names[i] == cas[i].slugPrefix
  {
    seq(|cas|, i requires 0 <= i < |cas| => cas[i].slugPrefix)
  }

  function Cns(cas: seq<Ca>): (names: seq<string>)
    ensures |names| == |cas| && forall i :: 0 <= i < |cas| ==> names[i] == cas[i].cn
  {
    seq(|cas|, i requires 0 <= i < |cas| => cas[i].cn)
  }

  /** Names claimed by two CAs; `taken` says who claimed a name first. */
  method Claim(names: seq<string>, what: What) returns (taken: map<string, nat>, faults: seq<Fault>)
    ensures taken.Keys == Taken(names, |names|)
    ensures faults == [] <==> Distinct(names, |names|)
  {
    taken, faults := map[], [];
    for i := 0 to |names|
      invariant taken.Keys == Taken(names, i)
      invariant faults == [] <==> Distinct(names, i)
    {
      if names[i] != "" {
        if names[i] in taken { faults := faults + [Shared(what, i, names[i])]; }
        else { taken := taken[names[i] := i]; }
      }
    }
  }

  /** Two profile claims of the same name, anywhere. */
  method ClaimProfiles(cas: seq<Ca>) returns (owner: map<string, nat>, faults: seq<Fault>)
    ensures owner.Keys == (set p | p in Claims(cas))
    ensures faults == [] <==> NoDuplicates(Claims(cas))
  {
    owner, faults := map[], [];
    ghost var claims: seq<string> := [];
    for i := 0 to |cas|
      invariant claims == Claims(cas[..i])
      invariant owner.Keys == (set p | p in claims)
      invariant faults == [] <==> NoDuplicates(claims)
    {
      assert cas[..i + 1][..i] == cas[..i];
      for k := 0 to |cas[i].profiles|
        invariant claims == Claims(cas[..i]) + cas[i].profiles[..k]
        invariant owner.Keys == (set p | p in claims)
        invariant faults == [] <==> NoDuplicates(claims)
      {
        var p := cas[i].profiles[k];
        OneMoreClaim(claims, p);
        claims := claims + [p];
        if p in owner { faults := faults + [SharedProfile(i, p)]; } else { owner := owner[p := i]; }
      }
      assert cas[i].profiles[..|cas[i].profiles|] == cas[i].profiles;
    }
    assert cas[..|cas|] == cas;
  }

  lemma OneMoreClaim(claims: seq<string>, p: string)
    ensures NoDuplicates(claims + [p]) <==> NoDuplicates(claims) && p !in claims
    ensures (set q | q in claims + [p]) == (set q | q in claims) + {p}
  {
    var more := claims + [p];
    if NoDuplicates(more) {
      forall i, j | 0 <= i < j < |claims| ensures claims[i] != claims[j] { assert more[i] != more[j]; }
      forall i | 0 <= i < |claims| ensures claims[i] != p { assert more[i] != more[|claims|]; }
    }
  }

  /** Pairs of distinct claimed prefixes that differ only by digits. */
  method ClaimsApart(slugs: map<string, nat>) returns (faults: seq<Fault>)
    ensures faults == [] <==> forall a, b :: a in slugs && b in slugs && a != b ==> !DigitsApart(a, b)
  {
    faults := [];
    var rest := slugs.Keys;
    while rest != {}
      invariant rest <= slugs.Keys
      invariant faults == [] <==> forall a, b :: a in slugs && a !in rest && b in slugs && a != b ==> !DigitsApart(a, b)
      decreases rest
    {
      var a :| a in rest;
      var others := slugs.Keys;
      while others != {}
        invariant others <= slugs.Keys
        invariant faults == [] <==>
                    && (forall x, b :: x in slugs && x !in rest && b in slugs && x != b ==> !DigitsApart(x, b))
                    && (forall b :: b in slugs && b !in others && a != b ==> !DigitsApart(a, b))
        decreases others
      {
        var b :| b in others;
        var apart := AreDigitsApart(a, b);
        if a != b && apart { faults := faults + [OnlyDigitsApart(a, b)]; }
        others := others - {b};
      }
      rest := rest - {a};
    }
  }

  /** The cross-CA half of loading: no fault exactly for the configurations the theorems are about. */
  method CheckSharedNames(c: Config) returns (faults: seq<Fault>)
    ensures faults == [] <==> Accepted(c)
  {
    var all := Everyone(c);
    var empties: seq<Fault> := [];
    for i := 0 to |all|
      invariant empties == [] <==> forall k :: 0 <= k < i ==> all[k].slugPrefix != "" && all[k].cn != ""
    {
      if all[i].slugPrefix == "" { empties := empties + [Empty(SlugPrefix, i)]; }
      if all[i].cn == "" { empties := empties + [Empty(CommonName, i)]; }
    }
    var slugs, slugFaults := Claim(Prefixes(all), SlugPrefix);
    var cns, cnFaults := Claim(Cns(all), CommonName);
    var owner, profileFaults := ClaimProfiles(c.cas);
    var apartFaults := ClaimsApart(slugs);
    faults := empties + slugFaults + cnFaults + profileFaults + apartFaults;
    if empties == [] { AcceptedInParts(c, slugs.Keys); }
  }

  lemma AcceptedInParts(c: Config, slugs: set<string>)
    requires forall i :: 0 <= i < |Everyone(c)| ==> Everyone(c)[i].slugPrefix != "" && Everyone(c)[i].cn != ""
    requires slugs == Taken(Prefixes(Everyone(c)), |Everyone(c)|)
    ensures Accepted(c) <==>
              && Distinct(Prefixes(Everyone(c)), |Everyone(c)|) && Distinct(Cns(Everyone(c)), |Everyone(c)|)
              && NoDuplicates(Claims(c.cas))
              && (forall a, b :: a in slugs && b in slugs && a != b ==> !DigitsApart(a, b))
  {
    var all, names := Everyone(c), Prefixes(Everyone(c));
    forall i | 0 <= i < |all| ensures all[i].slugPrefix in slugs { assert names[i] in slugs; }
  }

  // ---------------------------------------------------------------- queries

  /** The CA a profile is issued by: the only one that lists it. */
  method CaForProfile(c: Config, profile: string) returns (r: Option<nat>)
    ensures r.None? <==> forall i :: 0 <= i < |c.cas| ==> profile !in c.cas[i].profiles
    ensures r.Some? ==> r.value < |c.cas| && profile in c.cas[r.value].profiles
    ensures r.Some? && NoDuplicates(Claims(c.cas)) ==>
              forall i :: 0 <= i < |c.cas| && profile in c.cas[i].profiles ==> i == r.value
  {
    for i := 0 to |c.cas|
      invariant forall k :: 0 <= k < i ==> profile !in c.cas[k].profiles
    {
      if profile in c.cas[i].profiles {
        forall k | i < k < |c.cas| && profile in c.cas[k].profiles ensures !NoDuplicates(Claims(c.cas)) {
          ClaimedTwice(c.cas, i, k, profile);
        }
        return Some(i);
      }
    }
    r := None;
  }

  lemma {:induction false} ClaimIsListed(cas: seq<Ca>, i: nat, profile: string)
    requires i < |cas| && profile in cas[i].profiles
    ensures profile in Claims(cas)
    decreases |cas|
  {
    if i < |cas| - 1 { ClaimIsListed(cas[..|cas| - 1], i, profile); }
  }

  lemma {:induction false} ClaimedTwice(cas: seq<Ca>, i: nat, k: nat, profile: string)
    requires i < k < |cas| && profile in cas[i].profiles && profile in cas[k].profiles
    ensures !NoDuplicates(Claims(cas))
    decreases |cas|
  {
    var front, last := cas[..|cas| - 1], cas[|cas| - 1].profiles;
    var x, y :| 0 <= x < y < |Claims(cas)| && Claims(cas)[x] == Claims(cas)[y] by {
      if k < |front| {
        ClaimedTwice(front, i, k, profile);
        var x, y :| 0 <= x < y < |Claims(front)| && Claims(front)[x] == Claims(front)[y];
        assert Claims(cas)[x] == Claims(cas)[y];
      } else {
        ClaimIsListed(front, i, profile);
        var x :| 0 <= x < |Claims(front)| && Claims(front)[x] == profile;
        var y :| 0 <= y < |last| && last[y] == profile;
        assert Claims(cas)[x] == Claims(cas)[|Claims(front)| + y];
      }
    }
  }

  /** The policies of each listed profile, profile by profile. */
  function PolicyList(ca: Ca, n: nat): seq<string>
    requires n <= |ca.profiles|
  {
    if n == 0 then [] else PolicyList(ca, n - 1) + PoliciesOf(ca, ca.profiles[n - 1])
  }

  function PoliciesOf(ca: Ca, profile: string): seq<string> {
    if profile in ca.policies then ca.policies[profile] else []
  }

  /** The elements of `s` in the order of their first occurrence. */
  function Firsts(s: seq<string>): seq<string> {
    if s == [] then [] else
      var front := Firsts(s[..|s| - 1]);
      if s[|s| - 1] in front then front else front + [s[|s| - 1]]
  }

  lemma {:induction false} FirstsAreTheElements(s: seq<string>)
    ensures NoDuplicates(Firsts(s)) && (forall x :: x in Firsts(s) <==> x in s)
  {
    if s != [] {
      FirstsAreTheElements(s[..|s| - 1]);
      assert s == s[..|s| - 1] + [s[|s| - 1]];
    }
  }

  method AppendNew(out: seq<string>, ghost seen: seq<string>, oids: seq<string>) returns (r: seq<string>)
    requires out == Firsts(seen)
    ensures r == Firsts(seen + oids)
  {
    r := out;
    assert seen + oids[..0] == seen;
    for k := 0 to |oids|
      invariant r == Firsts(seen + oids[..k])
    {
      assert (seen + oids[..k + 1])[..|seen| + k] == seen + oids[..k];
      if oids[k] !in r { r := r + [oids[k]]; }
    }
    assert oids[..|oids|] == oids;
  }

  /** The policies of the CA's own certificate: each policy it may issue under, once. */
  method CaPolicies(ca: Ca) returns (out: seq<string>)
    ensures out == Firsts(PolicyList(ca, |ca.profiles|))
    ensures NoDuplicates(out)
    ensures forall oid :: oid in out <==>
              exists i :: 0 <= i < |ca.profiles| && ca.profiles[i] in ca.policies && oid in ca.policies[ca.profiles[i]]
    ensures forall a, b :: 0 <= a < b < |out| ==> ListedBefore(ca, out[a], out[b])
  {
    out := [];
    for i := 0 to |ca.profiles|
      invariant out == Firsts(PolicyList(ca, i))
    {
      if ca.profiles[i] in ca.policies {
        out := AppendNew(out, PolicyList(ca, i), ca.policies[ca.profiles[i]]);
      } else {
        assert PolicyList(ca, i + 1) == PolicyList(ca, i);
      }
    }
    PoliciesOnce(ca);
  }

  lemma PoliciesOnce(ca: Ca)
    ensures var out := Firsts(PolicyList(ca, |ca.profiles|));
            && NoDuplicates(out)
            && (forall oid :: oid in out <==>
                  exists i :: 0 <= i < |ca.profiles| && ca.profiles[i] in ca.policies && oid in ca.policies[ca.profiles[i]])
            && forall a, b :: 0 <= a < b < |out| ==> ListedBefore(ca, out[a], out[b])
  {
    var all := PolicyList(ca, |ca.profiles|);
    forall a, b | 0 <= a < b < |Firsts(all)| ensures ListedBefore(ca, Firsts(all)[a], Firsts(all)[b]) {
      var x := FirstsKeepOrder(all, a, b);
      var i, k := Locate(ca, |ca.profiles|, x);
      InPolicyList(ca, i);
      PrefixMisses(PolicyList(ca, i), PoliciesOf(ca, ca.profiles[i]), k, Firsts(all)[b]);
      assert ListedAt(ca, i, k, Firsts(all)[a], Firsts(all)[b]);
    }
    hide Firsts, NoDuplicates, PolicyList, ListedBefore;
    FirstsAreTheElements(all);
    InPolicyList(ca, |ca.profiles|);
  }

  /** `x` stands in the table of a listed profile, and `y` neither before it there nor under an earlier listed profile. */
  ghost predicate ListedBefore(ca: Ca, x: string, y: string) {
    exists i: nat, k: nat :: ListedAt(ca, i, k, x, y)
  }

  predicate ListedAt(ca: Ca, i: nat, k: nat, x: string, y: string) {
    && i < |ca.profiles| && ca.profiles[i] in ca.policies
    && var oids := ca.policies[ca.profiles[i]];
       && k < |oids| && oids[k] == x && (forall m :: 0 <= m <= k ==> oids[m] != y)
       && forall j :: 0 <= j < i && ca.profiles[j] in ca.policies ==> y !in ca.policies[ca.profiles[j]]
  }

  /** Of two first occurrences, the later one's element is nowhere up to some position of the earlier one's. */
  lemma {:induction false} FirstsKeepOrder(s: seq<string>, a: nat, b: nat) returns (x: nat)
    requires a < b < |Firsts(s)|
    ensures x < |s| && s[x] == Firsts(s)[a] && Firsts(s)[b] !in s[..x + 1]
    decreases |s|
  {
    var init := s[..|s| - 1];
    var front := Firsts(init);
    FirstsAreTheElements(init);
    if b < |front| {
      x := FirstsKeepOrder(init, a, b);
      assert init[..x + 1] == s[..x + 1];
    } else {
      assert front[a] in init;
      x :| 0 <= x < |init| && init[x] == front[a];
      forall m | 0 <= m <= x ensures s[m] != Firsts(s)[b] { assert init[m] in init; }
    }
  }

  /** A position of the concatenation is a profile and a position in its table. */
  lemma {:induction false} Locate(ca: Ca, n: nat, x: nat) returns (i: nat, k: nat)
    requires n <= |ca.profiles| && x < |PolicyList(ca, n)|
    ensures i < n && k < |PoliciesOf(ca, ca.profiles[i])| && PoliciesOf(ca, ca.profiles[i])[k] == PolicyList(ca, n)[x]
    ensures PolicyList(ca, n)[..x + 1] == PolicyList(ca, i) + PoliciesOf(ca, ca.profiles[i])[..k + 1]
  {
    var front := PolicyList(ca, n - 1);
    if x < |front| {
      i, k := Locate(ca, n - 1, x);
      assert PolicyList(ca, n)[..x + 1] == front[..x + 1];
    } else {
      i, k := n - 1, x - |front|;
    }
  }

  lemma PrefixMisses(front: seq<string>, oids: seq<string>, k: nat, y: string)
    requires k < |oids| && y !in front + oids[..k + 1]
    ensures y !in front && forall m :: 0 <= m <= k ==> oids[m] != y
  {
    forall m | 0 <= m <= k ensures oids[m] != y { assert oids[..k + 1][m] == oids[m]; }
  }

  lemma {:induction false} InPolicyList(ca: Ca, n: nat)
    requires n <= |ca.profiles|
    ensures forall oid :: oid in PolicyList(ca, n) <==> exists i :: 0 <= i < n && oid in PoliciesOf(ca, ca.profiles[i])
  {
    if n > 0 {
      InPolicyList(ca, n - 1);
      assert PolicyList(ca, n) == PolicyList(ca, n - 1) + PoliciesOf(ca, ca.profiles[n - 1]);
    }
  }
}
