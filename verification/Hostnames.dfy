/**
 The two host name checks: the CA scans the name once with a running label
 length, the ACME frontend splits it into labels. Both are proved against the
 label-by-label definition, so they agree on every name the frontend can pass on.
 Strings are byte strings.
 */
module Hostnames {
  import opened Strings

  predicate IsLower(c: char) { 'a' <= c <= 'z' }
  predicate IsUpper(c: char) { 'A' <= c <= 'Z' }
  predicate IsAlnum(c: char) { IsLower(c) || IsUpper(c) || IsDigit(c) }

  /** `strings.Split(s, ".")`: one label more than there are dots. */
  function Labels(s: string): (labels: seq<string>)
    ensures |labels| > 0
    decreases |s|
  {
    var k := Dot(s);
    if k == |s| then [s] else [s[..k]] + Labels(s[k + 1..])
  }

  /** The position of the first dot, or the length. */
  function Dot(s: string): (k: nat)
    ensures k <= |s| && (k < |s| ==> s[k] == '.') && '.' !in s[..k]
  {
    if s == [] || s[0] == '.' then 0 else
    var k := 1 + Dot(s[1..]);
    assert s[..k] == [s[0]] + s[1..][..k - 1];
    k
  }

  // ---------------------------------------------------------------- what a host name is

  /** A label of 1 to 63 letters, digits and hyphens with no hyphen at either end. */
  predicate LabelOk(l: string) {
    1 <= |l| <= 63 && l[0] != '-' && l[|l| - 1] != '-' && forall c <- l :: IsAlnum(c) || c == '-'
  }

  predicate LabelsOk(labels: seq<string>) {
    forall l <- labels :: LabelOk(l)
  }

  predicate HostName(s: string) {
    1 <= |s| <= 253 && LabelsOk(Labels(s))
  }

  function LastLabel(s: string): string {
    Labels(s)[|Labels(s)| - 1]
  }

  /** A host name that cannot be mistaken for an IPv4 literal. */
  predicate DnsName(s: string) {
    HostName(s) && !AllDigits(LastLabel(s))
  }

  predicate LowerLabelOk(l: string) {
    LabelOk(l) && forall c <- l :: !IsUpper(c)
  }

  /** What the frontend accepts: the same, in lower case only. */
  predicate LowerDnsName(s: string) {
    && 1 <= |s| <= 253 && (forall l <- Labels(s) :: LowerLabelOk(l))
    && !AllDigits(LastLabel(s))
  }

  // ---------------------------------------------------------------- the same by positions

  /** The stretch from `i` to `j` lies between two dots or ends, with no dot inside. */
  predicate IsStretch(s: string, i: nat, j: nat)
    ensures IsStretch(s, i, j) ==> i <= j <= |s|
  {
    && i <= j <= |s| && (i == 0 || s[i - 1] == '.') && (j == |s| || s[j] == '.')
    && forall k :: i <= k < j ==> s[k] != '.'
  }

  /** 1 to 63 letters, digits and hyphens, with no hyphen at either end. */
  predicate StretchOk(s: string, i: nat, j: nat)
    requires i <= j <= |s|
  {
    && 1 <= j - i <= 63 && s[i] != '-' && s[j - 1] != '-'
    && forall k :: i <= k < j ==>
         'a' <= s[k] <= 'z' || 'A' <= s[k] <= 'Z' || '0' <= s[k] <= '9' || s[k] == '-'
  }

  lemma StretchIsLabel(s: string, i: nat, j: nat)
    requires i <= j <= |s|
    ensures LabelOk(s[i..j]) <==> StretchOk(s, i, j)
  {
    var l := s[i..j];
    assert forall k :: i <= k < j ==> s[k] == l[k - i] && s[k] in l;
    assert forall c <- l :: exists k :: 0 <= k < |l| && l[k] == c;
  }

  /** The labels of a name are its stretches. */
  lemma {:induction false} StretchIsInLabels(s: string, i: nat, j: nat)
    requires IsStretch(s, i, j)
    ensures s[i..j] in Labels(s)
    decreases |s|
  {
    hide Labels, Dot;
    var d := Dot(s);
    NoDotBefore(s);
    if d == |s| {
      NoDotNoSplit(s);
      assert s[0..|s|] == s;
    } else {
      var t := s[d + 1..];
      LabelsAtDot(s);
      StretchSides(s, d, t, i, j);
      if i > d { StretchIsInLabels(t, i - d - 1, j - d - 1); } else { assert s[0..d] == s[..d]; }
    }
  }

  lemma {:induction false} LabelIsAStretch(s: string, l: string) returns (i: nat, j: nat)
    requires l in Labels(s)
    ensures IsStretch(s, i, j) && s[i..j] == l
    decreases |s|
  {
    hide Labels, Dot;
    var d := Dot(s);
    NoDotBefore(s);
    i, j := 0, d;
    assert s[0..d] == s[..d];
    if d == |s| {
      NoDotNoSplit(s);
      assert s[..d] == s;
    } else {
      var t := s[d + 1..];
      LabelsAtDot(s);
      if l != s[..d] {
        i, j := LabelIsAStretch(t, l);
        StretchAfterDot(s, d, t, i, j);
        i, j := i + d + 1, j + d + 1;
      }
    }
  }

  lemma NoDotBefore(s: string)
    ensures '.' !in s[..Dot(s)] && forall k :: 0 <= k < Dot(s) ==> s[k] != '.'
    ensures Dot(s) == |s| ==> '.' !in s
  {
    assert forall k :: 0 <= k < Dot(s) ==> s[k] == s[..Dot(s)][k];
    if Dot(s) == |s| { assert s[..|s|] == s; }
  }

  lemma StretchAfterDot(s: string, d: nat, t: string, i: nat, j: nat)
    requires d < |s| && s[d] == '.' && t == s[d + 1..] && IsStretch(t, i, j)
    ensures IsStretch(s, i + d + 1, j + d + 1) && s[i + d + 1..j + d + 1] == t[i..j]
  {
  }

  /** A stretch is the one before the first dot, or one of what follows it. */
  lemma StretchSides(s: string, d: nat, t: string, i: nat, j: nat)
    requires d < |s| && s[d] == '.' && (forall k :: 0 <= k < d ==> s[k] != '.') && t == s[d + 1..] && IsStretch(s, i, j)
    ensures (i == 0 && j == d) || (i > d && IsStretch(t, i - d - 1, j - d - 1) && t[i - d - 1..j - d - 1] == s[i..j])
  {
  }

  /** A host name by its positions alone. */
  lemma HostNameMeans(s: string)
    ensures HostName(s) <==> 1 <= |s| <= 253 && forall i: nat, j: nat :: IsStretch(s, i, j) ==> StretchOk(s, i, j)
  {
    hide LabelOk, StretchOk, Labels, IsStretch;
    if HostName(s) {
      forall i: nat, j: nat | IsStretch(s, i, j) ensures StretchOk(s, i, j) {
        StretchIsInLabels(s, i, j);
        StretchIsLabel(s, i, j);
      }
    }
    if forall i: nat, j: nat :: IsStretch(s, i, j) ==> StretchOk(s, i, j) {
      forall l <- Labels(s) ensures LabelOk(l) {
        var i, j := LabelIsAStretch(s, l);
        StretchIsLabel(s, i, j);
      }
    }
  }

  // ---------------------------------------------------------------- the one-pass scanner

  /** The scan from position `i`, with `run` characters of the current label already seen. */
  predicate Scan(s: string, i: nat, run: nat)
    requires run <= i <= |s|
    decreases |s| - i
  {
    if i == |s| then run > 0 && s[|s| - 1] != '-'
    else if s[i] == '.' then run > 0 && s[i - 1] != '-' && Scan(s, i + 1, 0)
    else (IsAlnum(s[i]) || s[i] == '-') && !(s[i] == '-' && run == 0) && run + 1 <= 63 && Scan(s, i + 1, run + 1)
  }

  lemma {:induction false} DotIsAfter(s: string, k: nat)
    requires k <= |s| && '.' !in s[..k]
    ensures k <= Dot(s) && (k < |s| && s[k] == '.' ==> Dot(s) == k)
    decreases k
  {
    if k > 0 {
      assert s[..k] == [s[0]] + s[1..][..k - 1];
      DotIsAfter(s[1..], k - 1);
    }
  }

  lemma {:induction false} DotIsBefore(s: string, i: nat)
    requires i < |s| && s[i] == '.'
    ensures Dot(s) <= i
  {
    if i > 0 && s[0] != '.' {
      DotIsBefore(s[1..], i - 1);
    }
  }

  /** A prefix without dots lies within the first label. */
  lemma DotFreePrefix(s: string, k: nat)
    requires k <= |s| && '.' !in s[..k]
    ensures k <= |Labels(s)[0]| && Labels(s)[0][..k] == s[..k]
  {
    DotIsAfter(s, k);
    assert s[..Dot(s)][..k] == s[..k];
  }

  lemma SplitAtDot(l: string, rest: string)
    requires '.' !in l
    ensures Labels(l + "." + rest) == [l] + Labels(rest)
  {
    var s := l + "." + rest;
    assert s[..|l|] == l;
    DotIsAfter(s, |l|);
    assert s[|l| + 1..] == rest;
  }

  lemma NoDotNoSplit(l: string)
    requires '.' !in l
    ensures Labels(l) == [l]
  {
    assert l[..|l|] == l;
    DotIsAfter(l, |l|);
  }

  /** A bad character, or one too many, spoils the label it falls into. */
  lemma BadLabel(s: string, k: nat)
    requires k < |s| && '.' !in s[..k + 1]
    requires !(IsAlnum(s[k]) || s[k] == '-') || (k == 0 && s[k] == '-') || k >= 63
    ensures !LabelOk(Labels(s)[0])
  {
    DotFreePrefix(s, k + 1);
    var first := Labels(s)[0];
    assert first[k] == first[..k + 1][k] == s[k];
  }

  /** What the scanner knows of the label it is in. */
  predicate GoodRun(current: string) {
    |current| <= 63 && (|current| > 0 ==> current[0] != '-') && forall c <- current :: IsAlnum(c) || c == '-'
  }

  /** The scan accepts exactly the suffixes whose labels, the current one included, are all good. */
  lemma {:induction false} ScanMeaning(s: string, i: nat, run: nat)
    requires run <= i <= |s| && GoodRun(s[i - run..i])
    ensures Scan(s, i, run) <==> LabelsOk(Labels(s[i - run..]))
    decreases |s| - i
  {
    hide Labels, LabelsOk, LabelOk, GoodRun;
    var from, current := s[i - run..], s[i - run..i];
    GoodRunIsLabel(current);
    if i == |s| {
      assert from == current;
      NoDotNoSplit(from);
      FirstLabelCounts(from, []);
    } else if s[i] == '.' {
      assert from == current + "." + s[i + 1..];
      SplitAtDot(current, s[i + 1..]);
      FirstLabelCounts(current, Labels(s[i + 1..]));
      assert s[i + 1..i + 1] == "";
      ScanMeaning(s, i + 1, 0);
    } else if GoodRun(current + [s[i]]) {
      assert s[i - run..i + 1] == current + [s[i]];
      ScanMeaning(s, i + 1, run + 1);
      GoodRunIsScanned(current, s[i]);
    } else {
      assert from[..run + 1] == current + [s[i]];
      GoodRunIsScanned(current, s[i]);
      BadLabel(from, run);
      FirstLabelCounts(Labels(from)[0], Labels(from)[1..]);
      assert Labels(from) == [Labels(from)[0]] + Labels(from)[1..];
    }
  }

  lemma GoodRunIsLabel(current: string)
    requires GoodRun(current)
    ensures LabelOk(current) <==> |current| > 0 && current[|current| - 1] != '-'
    ensures '.' !in current && |current| <= 63 && GoodRun("")
  {
  }

  lemma FirstLabelCounts(l: string, rest: seq<string>)
    ensures LabelsOk([l] + rest) <==> LabelOk(l) && LabelsOk(rest)
    ensures [l] + [] == [l] && LabelsOk([])
  {
    assert l in [l] + rest && forall m :: m in rest ==> m in [l] + rest;
  }

  lemma GoodRunIsScanned(current: string, c: char)
    requires GoodRun(current)
    ensures GoodRun(current + [c]) <==>
            (IsAlnum(c) || c == '-') && !(c == '-' && |current| == 0) && |current| + 1 <= 63
  {
    assert c in current + [c];
    assert forall d :: d in current ==> d in current + [c];
  }

  method ValidHostname(s: string) returns (ok: bool)
    ensures ok == HostName(s)
  {
    if |s| == 0 || |s| > 253 { return false; }
    ScanMeaning(s, 0, 0);
    assert s[0..] == s;
    var run := 0;
    var i := 0;
    while i < |s|
      invariant 0 <= run <= i <= |s|
      invariant Scan(s, 0, 0) == Scan(s, i, run)
    {
      var c := s[i];
      if c == '.' {
        if run == 0 || s[i - 1] == '-' { return false; }
        run := 0;
      } else {
        if !IsAlnum(c) && c != '-' { return false; }
        if c == '-' && run == 0 { return false; }
        run := run + 1;
        if run > 63 { return false; }
      }
      i := i + 1;
    }
    ok := run > 0 && s[|s| - 1] != '-';
  }

  // ---------------------------------------------------------------- the last label

  lemma LastLabelAfterDot(s: string, rest: string)
    requires Dot(s) < |s| && rest == s[Dot(s) + 1..]
    ensures LastLabel(s) == LastLabel(rest)
  {
    hide Labels;
    LabelsAtDot(s);
    LastOfMore(s[..Dot(s)], Labels(rest));
  }

  lemma LastOfMore(first: string, rest: seq<string>)
    requires rest != []
    ensures ([first] + rest)[|[first] + rest| - 1] == rest[|rest| - 1]
  {
  }

  lemma LabelsAtDot(s: string)
    requires Dot(s) < |s|
    ensures Labels(s) == [s[..Dot(s)]] + Labels(s[Dot(s) + 1..])
  {
  }

  lemma {:induction false} LastLabelIs(s: string, d: nat)
    requires d <= |s| && '.' !in s[d..] && (d > 0 ==> s[d - 1] == '.')
    ensures LastLabel(s) == s[d..]
    decreases |s|
  {
    hide LastLabel;
    if d == 0 {
      assert s[0..] == s;
      LastLabelOfOne(s);
    } else {
      var k := Dot(s);
      DotIsBefore(s, d - 1);
      var rest, e := s[k + 1..], d - k - 1;
      LastLabelAfterDot(s, rest);
      assert rest[e..] == s[d..];
      assert e > 0 ==> rest[e - 1] == s[d - 1];
      LastLabelIs(rest, e);
    }
  }

  lemma LastLabelOfOne(s: string)
    requires '.' !in s
    ensures LastLabel(s) == s
  {
    NoDotNoSplit(s);
  }

  /** And a DNS name: the last stretch is not all digits. */
  lemma DnsNameMeans(s: string)
    ensures DnsName(s) <==>
              && 1 <= |s| <= 253 && (forall i: nat, j: nat :: IsStretch(s, i, j) ==> StretchOk(s, i, j))
              && exists i: nat, k: nat :: IsStretch(s, i, |s|) && i <= k < |s| && !('0' <= s[k] <= '9')
  {
    hide HostName, StretchOk, LastLabel;
    HostNameMeans(s);
    var d := LastDot(s);
    LastLabelIs(s, d);
    assert forall k :: d <= k < |s| ==> s[k] == s[d..][k - d] && s[k] in s[d..] && s[k] != '.';
    assert IsStretch(s, d, |s|);
    OneLastStretch(s, d);
    if !AllDigits(LastLabel(s)) {
      var c :| c in s[d..] && !IsDigit(c);
      var k :| 0 <= k < |s[d..]| && s[d..][k] == c;
      assert s[d + k] == c;
    }
  }

  lemma OneLastStretch(s: string, d: nat)
    requires IsStretch(s, d, |s|)
    ensures forall i: nat :: IsStretch(s, i, |s|) ==> i == d
  {
  }

  /** The position after the last dot. */
  function LastDot(s: string): (d: nat)
    ensures d <= |s| && '.' !in s[d..] && (d > 0 ==> s[d - 1] == '.')
  {
    if s == "" || s[|s| - 1] == '.' then |s| else
    var d := LastDot(s[..|s| - 1]);
    assert s[d..] == s[..|s| - 1][d..] + [s[|s| - 1]];
    d
  }

  /** The name without its wildcard label, if it has one. */
  function WithoutWildcard(s: string): string {
    CutWildcard(s).0
  }

  method DnsSafe(s: string) returns (ok: bool)
    ensures ok == DnsName(WithoutWildcard(s))
  {
    var host := WithoutWildcard(s);
    var valid := ValidHostname(host);
    if !valid { return false; }
    var d := |host|;
    while d > 0 && host[d - 1] != '.'
      invariant 0 <= d <= |host| && '.' !in host[d..]
    {
      d := d - 1;
    }
    LastLabelIs(host, d);
    var last := host[d..];
    ok := false;
    for i := 0 to |last|
      invariant !ok && AllDigits(last[..i])
    {
      if !IsDigit(last[i]) {
        assert last[i] in LastLabel(host);
        return true;
      }
    }
    assert last[..|last|] == last;
  }

  // ---------------------------------------------------------------- the split-based check

  method HostSafe(s: string) returns (ok: bool)
    ensures ok == LowerDnsName(s)
  {
    if |s| == 0 || |s| > 253 { return false; }
    var labels := Labels(s);
    for i := 0 to |labels|
      invariant forall j :: 0 <= j < i ==> LowerLabelOk(labels[j])
    {
      var l := labels[i];
      if |l| == 0 || |l| > 63 || l[0] == '-' || l[|l| - 1] == '-' {
        assert !LowerLabelOk(l);
        return false;
      }
      for k := 0 to |l|
        invariant forall c <- l[..k] :: (IsAlnum(c) || c == '-') && !IsUpper(c)
      {
        if !(IsLower(l[k]) || IsDigit(l[k]) || l[k] == '-') {
          assert l[k] in l && !LowerLabelOk(l);
          return false;
        }
      }
      assert l[..|l|] == l;
    }
    var last := labels[|labels| - 1];
    ok := exists c :: c in last && !IsDigit(c);
  }

  // ---------------------------------------------------------------- they agree

  lemma {:induction false} LabelCharsComeFromName(s: string, l: string, c: char)
    requires l in Labels(s) && c in l
    ensures c in s
    decreases |s|
  {
    var k := Dot(s);
    if k < |s| && l != s[..k] {
      LabelCharsComeFromName(s[k + 1..], l, c);
    }
  }

  lemma {:induction false} NameCharsAreInLabels(s: string, c: char)
    requires c in s && c != '.'
    ensures exists l :: l in Labels(s) && c in l
    decreases |s|
  {
    var k := Dot(s);
    if k == |s| || c in s[..k] {
      assert Labels(s)[0] in Labels(s) && c in Labels(s)[0];
    } else {
      assert s == s[..k] + "." + s[k + 1..];
      assert c in s[k + 1..];
      NameCharsAreInLabels(s[k + 1..], c);
      var l :| l in Labels(s[k + 1..]) && c in l;
      assert l in Labels(s);
    }
  }

  lemma LabelsStartLikeTheName(s: string)
    requires LowerDnsName(s)
    ensures WithoutWildcard(s) == s
  {
    assert LowerLabelOk(Labels(s)[0]);
    if s[0] == '*' { BadLabel(s, 0); }
  }

  /**
   The frontend accepts exactly the names the CA accepts that are in lower case
   and carry no wildcard label.
   */
  lemma ScannersAgree(s: string)
    ensures LowerDnsName(s) <==>
            DnsName(WithoutWildcard(s)) && WithoutWildcard(s) == s && forall c <- s :: !IsUpper(c)
  {
    if LowerDnsName(s) {
      LabelsStartLikeTheName(s);
      forall c | c in s ensures !IsUpper(c) {
        if c != '.' { NameCharsAreInLabels(s, c); }
      }
    } else if WithoutWildcard(s) == s && forall c <- s :: !IsUpper(c) {
      forall l, c | l in Labels(s) && c in l ensures !IsUpper(c) {
        LabelCharsComeFromName(s, l, c);
      }
    }
  }

  /** A name the frontend accepts has no wildcard label, so the CA accepts it with one or without. */
  lemma FrontendNamesPassTheCa(base: string, wildcard: bool)
    requires LowerDnsName(base)
    ensures DnsName(WithoutWildcard(if wildcard then "*." + base else base))
  {
    ScannersAgree(base);
    assert ("*." + base)[2..] == base;
  }
}
