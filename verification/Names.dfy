/**
 The names of a certificate on their way from the order to the leaf: the
 identifiers newOrder accepts, the CSR names finalize compares with them, and
 the subject alternative names the CA then builds from the same CSR.
 */
module Names {
  import opened Strings
  import opened Hostnames

  /**
   Lower case as far as it can make a host name: of the letters beyond ASCII only
   the Kelvin sign and the dotted capital I have an ASCII lower case, and any other
   is refused in either case.
   */
  function LowerChar(c: char): char {
    if IsUpper(c) then c + 32 as char
    else if c == '\U{212A}' then 'k'
    else if c == '\U{0130}' then 'i'
    else c
  }

  function Lower(s: string): string {
    seq(|s|, i requires 0 <= i < |s| => LowerChar(s[i]))
  }

  /** Character by character: A to Z become a to z, two letters beyond ASCII come into it, all others stay. */
  lemma LowerMeans(s: string, i: nat)
    requires i < |s|
    ensures |Lower(s)| == |s|
    ensures 'A' <= s[i] <= 'Z' ==> 'a' <= Lower(s)[i] <= 'z' && Lower(s)[i] as int - 'a' as int == s[i] as int - 'A' as int
    ensures s[i] as int == 0x212A ==> Lower(s)[i] == 'k'
    ensures s[i] as int == 0x130 ==> Lower(s)[i] == 'i'
    ensures !('A' <= s[i] <= 'Z') && s[i] as int != 0x212A && s[i] as int != 0x130 ==> Lower(s)[i] == s[i]
  {
  }

  function Elements<T>(s: seq<T>): set<T> {
    set x | x in s
  }

  function LowerAll(names: set<string>): set<string> {
    set d | d in names :: Lower(d)
  }

  // ---------------------------------------------------------------- what an account may order

  predicate HasSuffix(s: string, suffix: string) {
    |suffix| <= |s| && s[|s| - |suffix|..] == suffix
  }

  /** A pattern covers the exact name, or with a leading "*." any depth under its suffix. */
  predicate Covers(pattern: string, name: string) {
    pattern == name || (CutWildcard(pattern).1 && HasSuffix(name, "." + CutWildcard(pattern).0))
  }

  /** An account without a credential may order nothing, one with an empty policy everything. */
  predicate AllowedBy(policy: Option<seq<string>>, name: string) {
    policy.Some? && (policy.value == [] || exists i :: 0 <= i < |policy.value| && Covers(policy.value[i], name))
  }

  /** The pattern is the name, or "*." and a parent domain of it. */
  ghost predicate Matches(pattern: string, name: string) {
    pattern == name || exists sub, parent :: pattern == "*." + parent && name == sub + "." + parent
  }

  /** Some policy, and it is empty or has a pattern for the name. */
  ghost predicate MayName(policy: Option<seq<string>>, name: string) {
    policy.Some? && (policy.value == [] || exists pattern <- policy.value :: Matches(pattern, name))
  }

  lemma CoversMeans(pattern: string, name: string)
    ensures Covers(pattern, name) <==> Matches(pattern, name)
  {
    var (base, wildcard) := CutWildcard(pattern);
    if wildcard && HasSuffix(name, "." + base) {
      assert pattern == "*." + base;
      var sub := name[..|name| - |base| - 1];
      assert name == sub + "." + base;
    }
    if sub, parent :| pattern == "*." + parent && name == sub + "." + parent {
      assert pattern[2..] == parent && name[|name| - |"." + parent|..] == "." + parent;
    }
  }

  lemma AllowedMeans(policy: Option<seq<string>>, name: string)
    ensures AllowedBy(policy, name) <==> MayName(policy, name)
  {
    hide Matches, Covers;
    if policy.Some? {
      forall pattern <- policy.value ensures Covers(pattern, name) <==> Matches(pattern, name) { CoversMeans(pattern, name); }
      if exists pattern <- policy.value :: Matches(pattern, name) {
        var pattern :| pattern in policy.value && Matches(pattern, name);
        var i :| 0 <= i < |policy.value| && policy.value[i] == pattern;
      }
    }
  }

  method Allowed(policy: Option<seq<string>>, name: string) returns (ok: bool)
    ensures ok == AllowedBy(policy, name)
    ensures ok <==> MayName(policy, name)
  {
    AllowedMeans(policy, name);
    if policy.None? { return false; }
    var patterns := policy.value;
    if |patterns| == 0 { return true; }
    for i := 0 to |patterns|
      invariant forall j :: 0 <= j < i ==> !Covers(patterns[j], name)
    {
      if patterns[i] == name { return true; }
      var (suffix, wildcard) := CutWildcard(patterns[i]);
      if wildcard && HasSuffix(name, "." + suffix) { return true; }
    }
    return false;
  }

  // ---------------------------------------------------------------- newOrder

  datatype Identifier = Identifier(kind: string, value: string)
  datatype OrderError = Malformed | UnsupportedIdentifier | RejectedIdentifier
  datatype OrderNames = Accepted(names: seq<string>) | Refused(error: OrderError)

  /** The answer to one identifier, in the order the checks are made. */
  function Check(id: Identifier, dns01: bool, policy: Option<seq<string>>): Option<OrderError> {
    var name := Lower(id.value);
    var (base, wildcard) := CutWildcard(name);
    if id.kind != "dns" then Some(UnsupportedIdentifier)
    else if base == "" || !LowerDnsName(base) || '*' in base then Some(Malformed)
    else if wildcard && !dns01 then Some(UnsupportedIdentifier)
    else if !AllowedBy(policy, name) then Some(RejectedIdentifier)
    else None
  }

  /** A DNS name in any case, its base a host name, allowed by the policy; a wildcard only where DNS validation is. */
  predicate MayOrder(id: Identifier, dns01: bool, policy: Option<seq<string>>) {
    var name := Lower(id.value);
    && id.kind == "dns" && LowerDnsName(if IsWildcard(name) then name[2..] else name)
    && (IsWildcard(name) ==> dns01) && AllowedBy(policy, name)
  }

  /** Which identifiers pass, and which answer the others get. */
  lemma CheckMeans(id: Identifier, dns01: bool, policy: Option<seq<string>>)
    ensures var name := Lower(id.value);
            var base, r := if IsWildcard(name) then name[2..] else name, Check(id, dns01, policy);
            && (r == None <==> MayOrder(id, dns01, policy))
            && (r == Some(Malformed) <==> id.kind == "dns" && !LowerDnsName(base))
            && (r == Some(UnsupportedIdentifier) <==> id.kind != "dns" || (LowerDnsName(base) && IsWildcard(name) && !dns01))
            && (r == Some(RejectedIdentifier) <==>
                  id.kind == "dns" && LowerDnsName(base) && (IsWildcard(name) ==> dns01) && !AllowedBy(policy, name))
  {
    var name := Lower(id.value);
    var base := CutWildcard(name).0;
    WildcardIsCut(name);
    hide AllowedBy, Lower, CutWildcard;
    NoStarInName(base);
  }

  lemma NoStarInName(s: string)
    ensures LowerDnsName(s) ==> s != "" && '*' !in s
  {
    if '*' in s { NameCharsAreInLabels(s, '*'); }
  }

  /** The lower-cased names, each at its first occurrence. */
  function FirstOccurrences(ids: seq<Identifier>): (names: seq<string>)
    ensures NoDuplicates(names)
    ensures Elements(names) == set i | 0 <= i < |ids| :: Lower(ids[i].value)
  {
    if ids == [] then [] else
    var names := FirstOccurrences(ids[..|ids| - 1]);
    var name := Lower(ids[|ids| - 1].value);
    assert forall i :: 0 <= i < |ids| - 1 ==> ids[..|ids| - 1][i] == ids[i];
    if name in names then names
    else
      assert Elements(names + [name]) == Elements(names) + {name};
      names + [name]
  }

  /** Where a name first occurs among the identifiers; their number if it does not. */
  function FirstIndex(ids: seq<Identifier>, name: string): (k: nat)
    ensures k <= |ids| && (k < |ids| ==> Lower(ids[k].value) == name)
    ensures forall i :: 0 <= i < k ==> Lower(ids[i].value) != name
  {
    if ids == [] then 0 else
    var k := FirstIndex(ids[..|ids| - 1], name);
    if k < |ids| - 1 then k else if Lower(ids[|ids| - 1].value) == name then |ids| - 1 else |ids|
  }

  /** The names come in the order of their first occurrences. */
  lemma {:induction false} FirstOccurrencesKeepOrder(ids: seq<Identifier>, i: nat, j: nat)
    requires i < j < |FirstOccurrences(ids)|
    ensures FirstIndex(ids, FirstOccurrences(ids)[i]) < FirstIndex(ids, FirstOccurrences(ids)[j]) < |ids|
  {
    hide Lower;
    var front, names := ids[..|ids| - 1], FirstOccurrences(ids);
    var before := FirstOccurrences(front);
    Occurs(front, before[i]);
    if j < |before| {
      FirstOccurrencesKeepOrder(front, i, j);
    } else {
      DoesNotOccur(front, names[j]);
    }
  }

  lemma Occurs(ids: seq<Identifier>, name: string)
    requires name in FirstOccurrences(ids)
    ensures FirstIndex(ids, name) < |ids|
  {
    hide Lower;
    assert name in Elements(FirstOccurrences(ids));
  }

  lemma DoesNotOccur(ids: seq<Identifier>, name: string)
    requires name !in FirstOccurrences(ids)
    ensures FirstIndex(ids, name) == |ids|
  {
    hide Lower;
    assert name !in Elements(FirstOccurrences(ids));
  }

  /** Identifier `k` is the first one refused, with this error. */
  predicate FirstRefused(ids: seq<Identifier>, dns01: bool, policy: Option<seq<string>>, k: nat, error: OrderError) {
    k < |ids| && Check(ids[k], dns01, policy) == Some(error)
    && forall j :: 0 <= j < k ==> Check(ids[j], dns01, policy).None?
  }

  /** The checks of one identifier, in their order. */
  method CheckOne(id: Identifier, dns01: bool, policy: Option<seq<string>>) returns (error: Option<OrderError>)
    ensures error == Check(id, dns01, policy)
  {
    hide LowerDnsName, AllowedBy, MayName, Lower, CutWildcard;
    var name := Lower(id.value);
    var (base, wildcard) := CutWildcard(name);
    if id.kind != "dns" { return Some(UnsupportedIdentifier); }
    var safe := HostSafe(base);
    if base == "" || !safe || '*' in base { return Some(Malformed); }
    if wildcard && !dns01 { return Some(UnsupportedIdentifier); }
    var allowed := Allowed(policy, name);
    error := if allowed then None else Some(RejectedIdentifier);
  }

  method NamesOfOrder(ids: seq<Identifier>, dns01: bool, policy: Option<seq<string>>) returns (r: OrderNames)
    ensures r.Accepted? <==> ids != [] && forall id <- ids :: Check(id, dns01, policy).None?
    ensures r.Accepted? <==> ids != [] && forall id <- ids :: MayOrder(id, dns01, policy)
    ensures r.Accepted? ==> r.names == FirstOccurrences(ids)
    ensures r.Refused? && ids != [] ==> exists k :: FirstRefused(ids, dns01, policy, k, r.error)
    ensures ids == [] ==> r == Refused(Malformed)
  {
    AllMayOrder(ids, dns01, policy);
    hide MayOrder, Check, Lower;
    if |ids| == 0 { return Refused(Malformed); }
    var seen: set<string>, names: seq<string> := {}, [];
    for i := 0 to |ids|
      invariant forall j :: 0 <= j < i ==> Check(ids[j], dns01, policy).None?
      invariant names == FirstOccurrences(ids[..i]) && seen == Elements(names)
    {
      var error := CheckOne(ids[i], dns01, policy);
      assert ids[i] in ids;
      if error.Some? {
        assert FirstRefused(ids, dns01, policy, i, error.value);
        return Refused(error.value);
      }
      var name := Lower(ids[i].value);
      OneMoreName(ids, i);
      if name !in seen {
        seen := seen + {name};
        names := names + [name];
      }
    }
    assert ids[..|ids|] == ids;
    return Accepted(names);
  }

  lemma OneMoreName(ids: seq<Identifier>, i: nat)
    requires i < |ids|
    ensures var names, name := FirstOccurrences(ids[..i]), Lower(ids[i].value);
            && FirstOccurrences(ids[..i + 1]) == (if name in names then names else names + [name])
            && Elements(names + [name]) == Elements(names) + {name}
            && (name in names <==> name in Elements(names))
  {
    hide Lower;
    assert ids[..i + 1][..i] == ids[..i];
  }

  lemma AllMayOrder(ids: seq<Identifier>, dns01: bool, policy: Option<seq<string>>)
    ensures (forall id <- ids :: Check(id, dns01, policy).None?) <==> (forall id <- ids :: MayOrder(id, dns01, policy))
  {
    forall id <- ids ensures Check(id, dns01, policy) == None <==> MayOrder(id, dns01, policy) {
      CheckMeans(id, dns01, policy);
    }
    hide MayOrder, Check;
  }

  // ---------------------------------------------------------------- finalize

  /** What a PKCS#10 request carries: common names, then the SAN entries by type. */
  datatype Csr = Csr(cns: seq<string>, dns: seq<string>, emails: set<string>, ips: set<nat>, uris: set<string>)

  /** The common name as the frontend's parser reports it: the last one, or empty. */
  function FrontendCn(csr: Csr): string {
    if csr.cns == [] then "" else Lower(csr.cns[|csr.cns| - 1])
  }

  /** The names the frontend collects from a request. */
  function CsrNames(csr: Csr): set<string> {
    LowerAll(Elements(csr.dns)) + if FrontendCn(csr) == "" then {} else {FrontendCn(csr)}
  }

  predicate SameSetTest(got: set<string>, want: seq<string>) {
    |got| == |want| && forall w <- want :: w in got
  }

  method SameSet(got: set<string>, want: seq<string>) returns (ok: bool)
    ensures ok == SameSetTest(got, want)
  {
    if |got| != |want| { return false; }
    for i := 0 to |want|
      invariant forall j :: 0 <= j < i ==> want[j] in got
    {
      if want[i] !in got {
        assert want[i] in want;
        return false;
      }
    }
    return true;
  }

  lemma {:induction false} ElementsCount<T>(s: seq<T>)
    ensures |Elements(s)| <= |s|
    ensures |Elements(s)| == |s| <==> NoDuplicates(s)
  {
    if s == [] {
      assert Elements(s) == {};
    } else {
      var init, last := s[..|s| - 1], s[|s| - 1];
      ElementsCount(init);
      assert s == init + [last];
      assert Elements(s) == Elements(init) + {last};
      assert NoDuplicates(s) <==> NoDuplicates(init) && last !in init by {
        assert forall i :: 0 <= i < |init| ==> init[i] == s[i];
      }
    }
  }

  lemma SubsetOfSameSize<T>(a: set<T>, b: set<T>)
    requires a <= b && |a| == |b|
    ensures a == b
  {
    assert |b| == |a| + |b - a| by { assert b == a + (b - a); }
    assert b - a == {};
  }

  /** The comparison is set equality for every request exactly when the order lists no name twice. */
  lemma SameSetIsEquality(want: seq<string>)
    ensures NoDuplicates(want) <==> forall got: set<string> :: SameSetTest(got, want) <==> got == Elements(want)
  {
    ElementsCount(want);
    if NoDuplicates(want) {
      forall got: set<string> | SameSetTest(got, want) ensures got == Elements(want) {
        SubsetOfSameSize(Elements(want), got);
      }
    } else {
      assert !SameSetTest(Elements(want), want);
    }
  }

  predicate FinalizeTest(csr: Csr, identifiers: seq<string>) {
    && csr.ips == {} && csr.emails == {} && csr.uris == {}
    && (FrontendCn(csr) != "" ==> FrontendCn(csr) in identifiers)
    && SameSetTest(CsrNames(csr), identifiers)
  }

  /** The name is, in lower case, a DNS name of the request or its last CN. */
  ghost predicate IsNameOf(name: string, csr: Csr) {
    (exists d <- csr.dns :: name == Lower(d)) || (csr.cns != [] && name != "" && name == Lower(csr.cns[|csr.cns| - 1]))
  }

  /** For an order that repeats no name, the test is that the request names exactly its identifiers, and nothing of another kind. */
  lemma FinalizeTestMeans(csr: Csr, identifiers: seq<string>)
    ensures NoDuplicates(identifiers) ==>
              (FinalizeTest(csr, identifiers) <==>
                 && csr.ips == {} && csr.emails == {} && csr.uris == {}
                 && forall name :: name in identifiers <==> IsNameOf(name, csr))
  {
    hide Lower, SameSetTest;
    if NoDuplicates(identifiers) {
      SameSetIsEquality(identifiers);
      assert SameSetTest(CsrNames(csr), identifiers) <==> CsrNames(csr) == Elements(identifiers);
      forall name ensures name in CsrNames(csr) <==> IsNameOf(name, csr) { NamesOfCsr(csr, name); }
    }
  }

  lemma NamesOfCsr(csr: Csr, name: string)
    ensures name in CsrNames(csr) <==> IsNameOf(name, csr)
  {
    hide Lower;
    if exists d <- csr.dns :: name == Lower(d) {
      var d :| d in csr.dns && name == Lower(d);
      assert d in Elements(csr.dns);
    }
  }

  method FinalizeAccepts(csr: Csr, identifiers: seq<string>) returns (ok: bool)
    ensures ok == FinalizeTest(csr, identifiers)
    ensures NoDuplicates(identifiers) ==>
              (ok <==> && csr.ips == {} && csr.emails == {} && csr.uris == {}
                       && forall name :: name in identifiers <==> IsNameOf(name, csr))
  {
    FinalizeTestMeans(csr, identifiers);
    if |csr.ips| > 0 || |csr.emails| > 0 || |csr.uris| > 0 { return false; }
    var names: set<string> := {};
    for i := 0 to |csr.dns|
      invariant names == LowerAll(Elements(csr.dns[..i]))
    {
      names := names + {Lower(csr.dns[i])};
      assert csr.dns[..i + 1] == csr.dns[..i] + [csr.dns[i]];
      assert Elements(csr.dns[..i + 1]) == Elements(csr.dns[..i]) + {csr.dns[i]};
    }
    assert csr.dns[..|csr.dns|] == csr.dns;
    var cn := FrontendCn(csr);
    if cn != "" {
      if cn !in identifiers { return false; }
      names := names + {cn};
    }
    ok := SameSet(names, identifiers);
  }

  // ---------------------------------------------------------------- the CA's side

  datatype Leaf = Leaf(cn: string, dns: set<string>, emails: set<string>, ips: set<nat>, uris: set<string>)

  /** What a profile asks of the subject. */
  datatype Subject = DnsCn | RequireSan | EmailMatchingCn

  /** Byte by byte, a shorter string before its extensions. */
  predicate LexLess(a: string, b: string) {
    b != "" && (a == "" || a[0] < b[0] || (a[0] == b[0] && LexLess(a[1..], b[1..])))
  }

  lemma {:induction false} LexTotal(a: string, b: string)
    ensures a == b || LexLess(a, b) || LexLess(b, a)
  {
    if a != "" && b != "" && a[0] == b[0] {
      assert a == [a[0]] + a[1..] && b == [b[0]] + b[1..];
      LexTotal(a[1..], b[1..]);
    }
  }

  lemma {:induction false} LexTransitive(a: string, b: string, c: string)
    requires LexLess(a, b) && LexLess(b, c)
    ensures LexLess(a, c)
  {
    if a != "" && a[0] == b[0] == c[0] { LexTransitive(a[1..], b[1..], c[1..]); }
  }

  /** The name a sorted set begins with. */
  function Least(names: seq<string>): (least: string)
    requires names != []
    ensures least in names && forall d <- names :: d == least || LexLess(least, d)
  {
    var front, last := names[..|names| - 1], names[|names| - 1];
    assert forall d <- names :: d in front || d == last;
    if front == [] then last else
    var least := Least(front);
    LexTotal(last, least);
    if LexLess(last, least)
    then
      assert forall d <- front :: d == least || LexLess(last, d) by { LessThanAll(front, least, last); }
      last
    else least
  }

  lemma LessThanAll(names: seq<string>, least: string, s: string)
    requires LexLess(s, least) && forall d <- names :: d == least || LexLess(least, d)
    ensures forall d <- names :: LexLess(s, d)
  {
    forall d <- names ensures LexLess(s, d) {
      if d != least { LexTransitive(s, least, d); }
    }
  }

  predicate Graphic(s: string) {
    s != "" && forall c <- s :: '!' <= c <= '~'
  }

  /** The CN the CA settles on: the one given, or the DNS name that sorts first. */
  function CnFor(csr: Csr): string
    requires csr.cns != [] || csr.dns != []
  {
    if csr.cns != [] then csr.cns[0] else Least(csr.dns)
  }

  /** The requests the CA issues for; `uris` are those that pass its check of URIs. */
  ghost predicate CaAccepts(csr: Csr, subject: Subject, uris: set<string>) {
    && |csr.cns| <= 1 && (csr.cns == [] ==> csr.dns != [])
    && (forall d <- csr.dns :: DnsName(WithoutWildcard(d))) && (forall m <- csr.emails :: Graphic(m))
    && |csr.uris| <= 1 && csr.uris <= uris
    && match subject
       case DnsCn => DnsName(WithoutWildcard(CnFor(csr)))
       case RequireSan => csr.dns != [] || csr.emails != {} || csr.ips != {} || csr.uris != {}
       case EmailMatchingCn => CnFor(csr) in csr.emails
  }

  /** The names of the certificate for a request. */
  function LeafOf(csr: Csr, subject: Subject): Leaf
    requires csr.cns != [] || csr.dns != []
  {
    Leaf(CnFor(csr), Elements(csr.dns) + if subject == DnsCn then {CnFor(csr)} else {}, csr.emails, csr.ips, csr.uris)
  }

  method LeastOf(names: seq<string>) returns (least: string)
    requires names != []
    ensures least == Least(names)
  {
    least := names[0];
    assert names[..1] == [names[0]];
    for i := 1 to |names|
      invariant least == Least(names[..i])
    {
      assert names[..i + 1][..i] == names[..i];
      if LexLess(names[i], least) { least := names[i]; }
    }
    assert names[..|names|] == names;
  }

  method AllSafe(names: seq<string>) returns (ok: bool)
    ensures ok <==> forall d <- names :: DnsName(WithoutWildcard(d))
  {
    hide DnsName, WithoutWildcard;
    for i := 0 to |names|
      invariant forall j :: 0 <= j < i ==> DnsName(WithoutWildcard(names[j]))
    {
      var safe := DnsSafe(names[i]);
      if !safe {
        assert names[i] in names;
        return false;
      }
    }
    return true;
  }

  method AddAll(an: set<string>, names: seq<string>) returns (all: set<string>)
    ensures all == Elements(names) + an
  {
    all := an;
    for i := 0 to |names|
      invariant all == Elements(names[..i]) + an
    {
      all := all + {names[i]};
      assert names[..i + 1] == names[..i] + [names[i]];
    }
    assert names[..|names|] == names;
  }

  /** `a` sorts before `b`: a proper prefix of it, or smaller at the first difference. */
  ghost predicate Precedes(a: string, b: string) {
    exists k: nat :: DiffersAt(a, b, k)
  }

  predicate DiffersAt(a: string, b: string, k: nat) {
    k <= |a| && k < |b| && a[..k] == b[..k] && (k == |a| || a[k] < b[k])
  }

  lemma {:induction false} LexMeans(a: string, b: string)
    ensures LexLess(a, b) <==> Precedes(a, b)
  {
    if b != "" {
      if a == "" || a[0] < b[0] {
        assert DiffersAt(a, b, 0);
      } else {
        LexMeans(a[1..], b[1..]);
        if Precedes(a[1..], b[1..]) && a[0] == b[0] {
          var k: nat :| DiffersAt(a[1..], b[1..], k);
          assert a[..k + 1] == [a[0]] + a[1..][..k] && b[..k + 1] == [b[0]] + b[1..][..k];
          assert DiffersAt(a, b, k + 1);
        }
        if k: nat :| DiffersAt(a, b, k) {
          if k > 0 { DiffersAfter(a, b, k); }
        }
      }
    }
  }

  lemma DiffersAfter(a: string, b: string, k: nat)
    requires k > 0 && DiffersAt(a, b, k)
    ensures a[0] == b[0] && DiffersAt(a[1..], b[1..], k - 1)
  {
    assert a[0] == a[..k][0] == b[..k][0] == b[0];
    assert a[1..][..k - 1] == a[..k][1..] == b[..k][1..] == b[1..][..k - 1];
  }

  /** The CN given, or the DNS name before which no other sorts. */
  ghost predicate IsCn(cn: string, csr: Csr) {
    if csr.cns != [] then cn == csr.cns[0] else cn in csr.dns && forall d <- csr.dns :: d == cn || Precedes(cn, d)
  }

  /** A DNS name after its wildcard label, if it has one. */
  ghost predicate IsDnsNameOrWildcard(d: string) {
    DnsName(if IsWildcard(d) then d[2..] else d)
  }

  lemma CnForMeans(csr: Csr)
    requires csr.cns != [] || csr.dns != []
    ensures IsCn(CnFor(csr), csr)
  {
    hide LexLess, Precedes;
    if csr.cns == [] {
      forall d <- csr.dns ensures d == CnFor(csr) || Precedes(CnFor(csr), d) { LexMeans(CnFor(csr), d); }
    }
  }

  lemma WithoutMeans(d: string)
    ensures DnsName(WithoutWildcard(d)) <==> IsDnsNameOrWildcard(d)
  {
    WildcardIsCut(d);
  }

  /** The requests the CA accepts, in terms of their parts alone. */
  lemma CaAcceptsMeans(csr: Csr, subject: Subject, uris: set<string>)
    ensures CaAccepts(csr, subject, uris) <==>
              && |csr.cns| <= 1 && |csr.uris| <= 1 && csr.uris <= uris && (csr.cns != [] || csr.dns != [])
              && (forall d <- csr.dns :: IsDnsNameOrWildcard(d))
              && (forall m <- csr.emails :: m != "" && forall c <- m :: 0x21 <= c as int <= 0x7E)
              && (subject.DnsCn? && csr.cns != [] ==> IsDnsNameOrWildcard(csr.cns[0]))
              && (subject.RequireSan? ==> csr.dns != [] || csr.emails != {} || csr.ips != {} || csr.uris != {})
              && (subject.EmailMatchingCn? ==> exists cn :: IsCn(cn, csr) && cn in csr.emails)
  {
    hide DnsName, WithoutWildcard, IsDnsNameOrWildcard, Least, Precedes;
    forall d ensures DnsName(WithoutWildcard(d)) <==> IsDnsNameOrWildcard(d) { WithoutMeans(d); }
    if csr.cns != [] || csr.dns != [] {
      CnForMeans(csr);
      OneCn(csr);
    }
  }

  lemma OneCn(csr: Csr)
    requires csr.cns != [] || csr.dns != []
    ensures forall cn :: IsCn(cn, csr) ==> cn == CnFor(csr)
  {
    CnForMeans(csr);
    forall cn | IsCn(cn, csr) ensures cn == CnFor(csr) {
      if cn != CnFor(csr) && csr.cns == [] {
        LexMeans(cn, CnFor(csr));
        LexMeans(CnFor(csr), cn);
        LexAsymmetric(cn, CnFor(csr));
      }
    }
  }

  lemma {:induction false} LexAsymmetric(a: string, b: string)
    ensures !(LexLess(a, b) && LexLess(b, a))
  {
    if a != "" && b != "" && a[0] == b[0] { LexAsymmetric(a[1..], b[1..]); }
  }

  /** The names a certificate carries, kind by kind. */
  ghost predicate CarriesNamesOf(leaf: Leaf, csr: Csr, subject: Subject) {
    && IsCn(leaf.cn, csr)
    && (forall d :: d in leaf.dns <==> d in csr.dns || (subject.DnsCn? && d == leaf.cn))
    && leaf.emails == csr.emails && leaf.ips == csr.ips && leaf.uris == csr.uris
    && (subject.DnsCn? ==> IsDnsNameOrWildcard(leaf.cn))
    && (subject.EmailMatchingCn? ==> leaf.cn in leaf.emails)
    && (subject.RequireSan? ==> leaf.dns != {} || leaf.emails != {} || leaf.ips != {} || leaf.uris != {})
  }

  lemma LeafOfMeans(csr: Csr, subject: Subject, uris: set<string>)
    requires CaAccepts(csr, subject, uris)
    ensures csr.cns != [] || csr.dns != []
    ensures CarriesNamesOf(LeafOf(csr, subject), csr, subject)
  {
    hide DnsName, WithoutWildcard, IsDnsNameOrWildcard, Precedes, Graphic, Least;
    CnForMeans(csr);
    WithoutMeans(CnFor(csr));
    hide IsCn, CnFor;
    if csr.dns != [] { assert csr.dns[0] in Elements(csr.dns); }
  }

  /** The checks of a signing request in their order, then the names collected for the certificate. */
  method LeafFor(csr: Csr, subject: Subject, uris: set<string>) returns (leaf: Option<Leaf>)
    ensures leaf.Some? <==> CaAccepts(csr, subject, uris)
    ensures leaf.Some? ==> leaf.value == LeafOf(csr, subject)
    ensures leaf.Some? ==> CarriesNamesOf(leaf.value, csr, subject)
    ensures leaf.Some? <==>
              && |csr.cns| <= 1 && |csr.uris| <= 1 && csr.uris <= uris && (csr.cns != [] || csr.dns != [])
              && (forall d <- csr.dns :: IsDnsNameOrWildcard(d))
              && (forall m <- csr.emails :: m != "" && forall c <- m :: 0x21 <= c as int <= 0x7E)
              && (subject.DnsCn? && csr.cns != [] ==> IsDnsNameOrWildcard(csr.cns[0]))
              && (subject.RequireSan? ==> csr.dns != [] || csr.emails != {} || csr.ips != {} || csr.uris != {})
              && (subject.EmailMatchingCn? ==> exists cn :: IsCn(cn, csr) && cn in csr.emails)
  {
    hide IsCn, IsDnsNameOrWildcard, CarriesNamesOf;
    CaAcceptsMeans(csr, subject, uris);
    leaf := CheckAndCollect(csr, subject, uris);
    hide CaAccepts, LeafOf;
    if leaf.Some? { LeafOfMeans(csr, subject, uris); }
  }

  method CheckAndCollect(csr: Csr, subject: Subject, uris: set<string>) returns (leaf: Option<Leaf>)
    ensures leaf.Some? <==> CaAccepts(csr, subject, uris)
    ensures leaf.Some? ==> leaf.value == LeafOf(csr, subject)
  {
    hide DnsName, WithoutWildcard, Least, Graphic, Elements, CnFor, IsCn;
    leaf := None;
    var cn := ChooseCn(csr);
    if cn.None? { return; }
    var ok := PartsPass(csr, uris);
    if !ok { return; }
    var an := {};
    match subject {
      case DnsCn =>
        ok := DnsSafe(cn.value);
        an := {cn.value};
      case RequireSan => ok := !(csr.dns == [] && csr.emails == {} && csr.ips == {} && csr.uris == {});
      case EmailMatchingCn => ok := cn.value in csr.emails;
    }
    if !ok { return; }
    an := AddAll(an, csr.dns);
    leaf := Some(Leaf(cn.value, an, csr.emails, csr.ips, csr.uris));
  }

  method ChooseCn(csr: Csr) returns (cn: Option<string>)
    ensures cn.Some? <==> |csr.cns| <= 1 && (csr.cns == [] ==> csr.dns != [])
    ensures cn.Some? ==> cn.value == CnFor(csr)
  {
    hide Least;
    if |csr.cns| > 1 { return None; }
    if |csr.cns| == 1 { return Some(csr.cns[0]); }
    if |csr.dns| == 0 { return None; }
    var least := LeastOf(csr.dns);
    return Some(least);
  }

  method PartsPass(csr: Csr, uris: set<string>) returns (ok: bool)
    ensures ok <==>
              && (forall d <- csr.dns :: DnsName(WithoutWildcard(d))) && (forall m <- csr.emails :: Graphic(m))
              && |csr.uris| <= 1 && csr.uris <= uris
  {
    hide DnsName, WithoutWildcard, Graphic;
    ok := AllSafe(csr.dns);
    if !ok { return; }
    if exists m <- csr.emails :: !Graphic(m) { return false; }
    if |csr.uris| > 1 { return false; }
    ok := csr.uris <= uris;
  }

  lemma FinalizedNames(csr: Csr, identifiers: seq<string>)
    requires NoDuplicates(identifiers) && FinalizeTest(csr, identifiers)
    ensures CsrNames(csr) == Elements(identifiers)
  {
    hide Lower;
    SameSetIsEquality(identifiers);
  }

  /**
   Names agree end to end: whatever the CA issues for a request that finalize
   accepted carries, case aside, exactly the names newOrder accepted, and no SAN
   of another type.
   */
  lemma LeafCarriesTheOrder(ids: seq<Identifier>, csr: Csr, uris: set<string>)
    requires FinalizeTest(csr, FirstOccurrences(ids)) && CaAccepts(csr, DnsCn, uris)
    ensures var leaf := LeafOf(csr, DnsCn);
            && LowerAll(leaf.dns) == (set i | 0 <= i < |ids| :: Lower(ids[i].value))
            && leaf.emails == {} && leaf.ips == {} && leaf.uris == {}
            && Lower(leaf.cn) in FirstOccurrences(ids)
  {
    hide DnsName, WithoutWildcard, Lower, LowerAll, CsrNames, FinalizeTest, CaAccepts;
    LeafBearsTheNames(csr, uris, FirstOccurrences(ids));
  }

  /** The same for any list of names that repeats none. */
  lemma LeafBearsTheNames(csr: Csr, uris: set<string>, identifiers: seq<string>)
    requires NoDuplicates(identifiers) && FinalizeTest(csr, identifiers) && CaAccepts(csr, DnsCn, uris)
    ensures csr.cns != [] || csr.dns != []
    ensures var leaf := LeafOf(csr, DnsCn);
            && LowerAll(leaf.dns) == Elements(identifiers)
            && leaf.emails == {} && leaf.ips == {} && leaf.uris == {}
            && Lower(leaf.cn) in identifiers
  {
    AcceptedCn(csr, uris);
    hide DnsName, WithoutWildcard, Lower, LowerAll, CsrNames, FinalizeTest, CaAccepts;
    FinalizedNames(csr, identifiers);
    LeafNamesAreCsrNames(csr, CnFor(csr));
    NonDnsRefused(csr, identifiers);
  }

  lemma AcceptedCn(csr: Csr, uris: set<string>)
    requires CaAccepts(csr, DnsCn, uris)
    ensures csr.cns != [] || csr.dns != []
    ensures CnOf(csr, CnFor(csr)) && Lower(CnFor(csr)) != ""
  {
    assert CnFor(csr) != "" && |Lower(CnFor(csr))| == |CnFor(csr)|;
  }

  /** The only common name given, or one of the DNS names. */
  predicate CnOf(csr: Csr, cn: string) {
    (|csr.cns| == 1 && cn == csr.cns[0]) || (csr.cns == [] && cn in csr.dns)
  }

  lemma LowerAllPlus(names: set<string>, d: string)
    ensures LowerAll(names + {d}) == LowerAll(names) + {Lower(d)}
  {
    hide Lower;
  }

  lemma LeafNamesAreCsrNames(csr: Csr, cn: string)
    requires CnOf(csr, cn) && Lower(cn) != ""
    ensures LowerAll(Elements(csr.dns) + {cn}) == CsrNames(csr) && Lower(cn) in CsrNames(csr)
  {
    hide Lower;
    LowerAllPlus(Elements(csr.dns), cn);
    if csr.cns == [] {
      assert Lower(cn) in LowerAll(Elements(csr.dns));
    }
    hide LowerAll;
  }

  lemma NonDnsRefused(csr: Csr, identifiers: seq<string>)
    requires FinalizeTest(csr, identifiers)
    ensures csr.ips == {} && csr.emails == {} && csr.uris == {}
  {
  }
}
