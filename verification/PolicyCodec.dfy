/**
 The list and policy columns of the CA's config tables: a list joined by commas,
 and a map of lists as `key=item,item;key=item`. The codec has no escapes, so the
 round trip holds for exactly the lists whose shape survives it.
 */
module PolicyCodec {
  import opened Strings

  // ---------------------------------------------------------------- what the loops compute

  /** The position of the first `sep`, or the length. */
  function Find(s: string, sep: char): (k: nat)
    ensures k <= |s| && (forall i :: 0 <= i < k ==> s[i] != sep) && (k < |s| ==> s[k] == sep)
  {
    if s == "" || s[0] == sep then 0 else Find(s[1..], sep) + 1
  }

  /** The parts of `s`; a last part that is empty is lost. */
  function Fields(s: string, sep: char): (parts: seq<string>)
    decreases |s|
  {
    if s == "" then [] else
      var k := Find(s, sep);
      if k == |s| then [s] else [s[..k]] + Fields(s[k + 1..], sep)
  }

  /** Items joined from the left; while nothing has been written, no separator is. */
  function Joined(l: seq<string>, sep: char): string {
    if l == [] then "" else
      var front := Joined(l[..|l| - 1], sep);
      if front == "" then l[|l| - 1] else front + [sep] + l[|l| - 1]
  }

  predicate Without(l: seq<string>, sep: char) {
    forall i :: 0 <= i < |l| ==> sep !in l[i]
  }

  /** The lists that survive: no separator inside an item, neither end empty. */
  predicate Joinable(l: seq<string>, sep: char) {
    Without(l, sep) && (l != [] ==> l[0] != "" && l[|l| - 1] != "")
  }

  // ---------------------------------------------------------------- round trip

  /** The same join from the right, with a separator between any two items. */
  function Interposed(l: seq<string>, sep: char): string {
    if l == [] then "" else if |l| == 1 then l[0] else l[0] + [sep] + Interposed(l[1..], sep)
  }

  lemma {:induction false} InterposedGrows(l: seq<string>, x: string, sep: char)
    requires l != []
    ensures Interposed(l + [x], sep) == Interposed(l, sep) + [sep] + x
  {
    if |l| == 1 {
      assert (l + [x])[1..] == [x];
    } else {
      assert (l + [x])[1..] == l[1..] + [x];
      InterposedGrows(l[1..], x, sep);
    }
  }

  lemma {:induction false} JoinedIsInterposed(l: seq<string>, sep: char)
    requires l != [] && l[0] != ""
    ensures Joined(l, sep) == Interposed(l, sep) != ""
  {
    var front, last := l[..|l| - 1], l[|l| - 1];
    assert l == front + [last];
    if front == [] {
      assert Joined(front, sep) == "";
    } else {
      JoinedIsInterposed(front, sep);
      InterposedGrows(front, last, sep);
    }
  }

  lemma FindsFirst(item: string, rest: string, sep: char)
    requires sep !in item
    ensures Find(item + [sep] + rest, sep) == |item|
  {
    var s := item + [sep] + rest;
    assert s[|item|] == sep;
    assert forall i :: 0 <= i < |item| ==> s[i] == item[i];
  }

  lemma {:induction false} FieldsOfInterposed(l: seq<string>, sep: char)
    requires Without(l, sep) && (l != [] ==> l[|l| - 1] != "")
    ensures Fields(Interposed(l, sep), sep) == l
    ensures l != [] ==> Interposed(l, sep) != ""
  {
    if |l| == 1 {
      assert Find(l[0], sep) == |l[0]|;
    } else if |l| > 1 {
      var rest := Interposed(l[1..], sep);
      FindsFirst(l[0], rest, sep);
      var s := l[0] + [sep] + rest;
      assert s[..|l[0]|] == l[0] && s[|l[0]| + 1..] == rest;
      FieldsOfInterposed(l[1..], sep);
    }
  }

  /** Parts without the separator that give the string when it is put between them, but for one at its end. */
  ghost predicate Rejoins(parts: seq<string>, s: string, sep: char) {
    && (parts == [] <==> s == "") && (forall i :: 0 <= i < |parts| ==> sep !in parts[i])
    && s == Interposed(parts, sep) + if s != "" && s[|s| - 1] == sep then [sep] else ""
  }

  /** Splitting loses nothing but a trailing separator. */
  lemma {:induction false} JoiningUndoesSplitting(s: string, sep: char)
    ensures Rejoins(Fields(s, sep), s, sep)
    decreases |s|
  {
    hide Rejoins, Fields;
    LastParts(s, sep);
    var k := Find(s, sep);
    if k < |s| {
      var part, rest := s[..k], s[k + 1..];
      assert Fields(s, sep) == [part] + Fields(rest, sep) && s == part + [sep] + rest by { FirstPart(s, sep); }
      JoiningUndoesSplitting(rest, sep);
      OnePartMore(part, Fields(rest, sep), rest, sep);
    }
  }

  lemma FirstPart(s: string, sep: char)
    requires Find(s, sep) < |s|
    ensures var k := Find(s, sep);
            Fields(s, sep) == [s[..k]] + Fields(s[k + 1..], sep) && s == s[..k] + [sep] + s[k + 1..]
  {
  }

  lemma LastParts(s: string, sep: char)
    ensures Find(s, sep) == |s| ==> Rejoins(Fields(s, sep), s, sep)
  {
  }

  lemma OnePartMore(part: string, parts: seq<string>, rest: string, sep: char)
    requires sep !in part && Rejoins(parts, rest, sep)
    ensures Rejoins([part] + parts, part + [sep] + rest, sep)
  {
    var s := part + [sep] + rest;
    assert ([part] + parts)[1..] == parts;
    if rest != "" {
      assert s[|s| - 1] == rest[|rest| - 1];
      var tail := if rest[|rest| - 1] == sep then [sep] else "";
      assert part + [sep] + (Interposed(parts, sep) + tail) == part + [sep] + Interposed(parts, sep) + tail;
    }
  }

  // ---------------------------------------------------------------- what does not survive

  function Count(s: string, sep: char): nat {
    if s == "" then 0 else Count(s[..|s| - 1], sep) + if s[|s| - 1] == sep then 1 else 0
  }

  lemma {:induction false} CountConcat(a: string, b: string, sep: char)
    ensures Count(a + b, sep) == Count(a, sep) + Count(b, sep)
    decreases |b|
  {
    if b == "" {
      assert a + b == a;
    } else {
      assert (a + b)[..|a + b| - 1] == a + b[..|b| - 1];
      CountConcat(a, b[..|b| - 1], sep);
    }
  }

  lemma {:induction false} CountWithout(s: string, sep: char)
    requires sep !in s
    ensures Count(s, sep) == 0
  {
    if s != "" { CountWithout(s[..|s| - 1], sep); }
  }

  lemma {:induction false} FieldsAreFew(s: string, sep: char)
    ensures |Fields(s, sep)| <= Count(s, sep) + 1
    ensures s == "" || s[|s| - 1] == sep ==> |Fields(s, sep)| <= Count(s, sep)
    ensures Without(Fields(s, sep), sep)
    decreases |s|
  {
    var k := Find(s, sep);
    if k < |s| {
      FieldsAreFew(s[k + 1..], sep);
      assert s == s[..k] + [sep] + s[k + 1..];
      CountConcat(s[..k], [sep], sep);
      CountConcat(s[..k] + [sep], s[k + 1..], sep);
      assert Count([sep], sep) == 1 by { assert [sep][..0] == ""; }
    }
  }

  lemma {:induction false} JoinedCount(l: seq<string>, sep: char)
    requires Without(l, sep)
    ensures Count(Joined(l, sep), sep) <= if l == [] then 0 else |l| - 1
  {
    if l != [] {
      var front, last := l[..|l| - 1], l[|l| - 1];
      JoinedCount(front, sep);
      CountWithout(last, sep);
      if Joined(front, sep) != "" {
        assert front != [];
        CountConcat(Joined(front, sep), [sep], sep);
        CountConcat(Joined(front, sep) + [sep], last, sep);
        assert Count([sep], sep) == 1 by { assert [sep][..0] == ""; }
      }
    }
  }

  lemma {:induction false} LeadingEmptyIsLost(l: seq<string>, sep: char)
    requires l != [] && l[0] == ""
    ensures Joined(l, sep) == Joined(l[1..], sep)
  {
    var front := l[..|l| - 1];
    if front == [] {
      assert l[1..] == [] && Joined(front, sep) == "";
    } else {
      LeadingEmptyIsLost(front, sep);
      assert front[1..] == l[1..][..|l[1..]| - 1];
    }
  }

  lemma LostItem(l: seq<string>, sep: char)
    requires Without(l, sep) && l != [] && (l[0] == "" || l[|l| - 1] == "")
    ensures |Fields(Joined(l, sep), sep)| < |l|
  {
    FieldsAreFew(Joined(l, sep), sep);
    JoinedCount(l, sep);
    if l[0] == "" {
      LeadingEmptyIsLost(l, sep);
      JoinedCount(l[1..], sep);
    }
  }

  /** Splitting undoes joining for exactly the joinable lists. */
  lemma ListRoundTripsExactlyWhen(l: seq<string>, sep: char)
    ensures Fields(Joined(l, sep), sep) == l <==> Joinable(l, sep)
  {
    if Joinable(l, sep) {
      if l != [] { JoinedIsInterposed(l, sep); }
      FieldsOfInterposed(l, sep);
    } else if Without(l, sep) {
      LostItem(l, sep);
    } else {
      FieldsAreFew(Joined(l, sep), sep);
    }
  }

  // ---------------------------------------------------------------- policies

  type Policies = map<string, seq<string>>

  function Entry(m: Policies, key: string): string
    requires key in m
  {
    key + "=" + Joined(m[key], ',')
  }

  function Entries(m: Policies, keys: seq<string>): (entries: seq<string>)
    requires forall key <- keys :: key in m
    ensures |entries| == |keys| && forall i :: 0 <= i < |keys| ==> entries[i] == Entry(m, keys[i])
  {
    seq(|keys|, i requires 0 <= i < |keys| => Entry(m, keys[i]))
  }

  /** An entry without an equals sign is its own key and its own list. */
  function ParseEntry(entry: string): (string, seq<string>) {
    var eq := Find(entry, '=');
    if eq == |entry| then (entry, Fields(entry, ',')) else (entry[..eq], Fields(entry[eq + 1..], ','))
  }

  /** Later entries of a key replace earlier ones. */
  function Parsed(entries: seq<string>): Policies {
    if entries == [] then map[] else
      var (key, oids) := ParseEntry(entries[|entries| - 1]);
      Parsed(entries[..|entries| - 1])[key := oids]
  }

  /** The maps that survive: neither separators nor the equals sign where they would be read as such. */
  predicate Storable(m: Policies) {
    forall key :: key in m ==> '=' !in key && ';' !in key && Joinable(m[key], ',') && Without(m[key], ';')
  }

  lemma {:induction false} JoinedWithout(l: seq<string>, sep: char, c: char)
    requires Without(l, c) && c != sep
    ensures c !in Joined(l, sep)
  {
    if l != [] { JoinedWithout(l[..|l| - 1], sep, c); }
  }

  lemma EntryRoundTrip(m: Policies, key: string)
    requires Storable(m) && key in m
    ensures ParseEntry(Entry(m, key)) == (key, m[key])
    ensures ';' !in Entry(m, key) && Entry(m, key) != ""
  {
    var rest := Joined(m[key], ',');
    FindsFirst(key, rest, '=');
    assert Entry(m, key) == key + ['='] + rest;
    assert Entry(m, key)[..|key|] == key && Entry(m, key)[|key| + 1..] == rest;
    ListRoundTripsExactlyWhen(m[key], ',');
    JoinedWithout(m[key], ',', ';');
  }

  function Picked(m: Policies, keys: seq<string>): Policies {
    map key | key in keys && key in m :: m[key]
  }

  lemma PickedGrows(m: Policies, keys: seq<string>, key: string)
    requires key in m
    ensures Picked(m, keys + [key]) == Picked(m, keys)[key := m[key]]
  {
  }

  lemma {:induction false} ParsedEntries(m: Policies, keys: seq<string>)
    requires Storable(m) && forall key <- keys :: key in m
    ensures Parsed(Entries(m, keys)) == Picked(m, keys)
  {
    if keys != [] {
      var front, last := keys[..|keys| - 1], keys[|keys| - 1];
      assert keys == front + [last] && Entries(m, keys) == Entries(m, front) + [Entry(m, last)];
      ParsedEntries(m, front);
      EntryRoundTrip(m, last);
      hide *;
      OneMoreParsed(Entries(m, front), Entry(m, last));
      PickedGrows(m, front, last);
    }
  }

  /** In whatever order the keys are written, reading the column gives the map back. */
  lemma PoliciesRoundTrip(m: Policies, keys: seq<string>)
    requires Storable(m) && forall key :: key in keys <==> key in m
    ensures Parsed(Fields(Joined(Entries(m, keys), ';'), ';')) == m
  {
    var entries := Entries(m, keys);
    forall i | 0 <= i < |entries| ensures ';' !in entries[i] && entries[i] != "" { EntryRoundTrip(m, keys[i]); }
    ListRoundTripsExactlyWhen(entries, ';');
    ParsedEntries(m, keys);
    assert Picked(m, keys) == m;
  }

  // ---------------------------------------------------------------- the loops

  method JoinProfiles(profiles: seq<string>) returns (out: string)
    ensures out == Joined(profiles, ',')
  {
    out := "";
    for i := 0 to |profiles|
      invariant out == Joined(profiles[..i], ',')
    {
      assert profiles[..i + 1][..i] == profiles[..i];
      if out != "" { out := out + ","; }
      out := out + profiles[i];
    }
    assert profiles[..|profiles|] == profiles;
  }

  method IndexOf(s: string, sep: char, from: nat) returns (end: nat)
    requires from <= |s|
    ensures end == from + Find(s[from..], sep)
  {
    end := from;
    while end < |s| && s[end] != sep
      invariant from <= end <= |s|
      invariant Find(s[from..], sep) == end - from + Find(s[end..], sep)
    {
      assert s[end..][1..] == s[end + 1..];
      end := end + 1;
    }
  }

  /** `out` holds the fields of `s` before position `i`. */
  ghost predicate Split(s: string, sep: char, i: nat, out: seq<string>) {
    i <= |s| && out + Fields(s[i..], sep) == Fields(s, sep)
  }

  lemma SplitStarts(s: string, sep: char)
    ensures Split(s, sep, 0, [])
  {
    assert s[0..] == s;
  }

  lemma SplitGoesOn(s: string, sep: char, i: nat, out: seq<string>, end: nat)
    requires i < |s| && Split(s, sep, i, out) && end == i + Find(s[i..], sep)
    ensures end <= |s|
    ensures end == |s| ==> out + [s[i..end]] == Fields(s, sep)
    ensures end < |s| ==> Split(s, sep, end + 1, out + [s[i..end]])
  {
    assert s[i..][..end - i] == s[i..end];
    if end == |s| {
      assert s[i..end] == s[i..];
    } else {
      assert s[i..][end - i + 1..] == s[end + 1..];
      assert out + ([s[i..end]] + Fields(s[end + 1..], sep)) == out + [s[i..end]] + Fields(s[end + 1..], sep);
    }
  }

  lemma SplitEnds(s: string, sep: char, out: seq<string>)
    requires Split(s, sep, |s|, out)
    ensures out == Fields(s, sep)
  {
    assert s[|s|..] == "";
  }

  method SplitProfiles(s: string) returns (out: seq<string>)
    ensures out == Fields(s, ',')
  {
    out := [];
    var i := 0;
    hide Fields, Split;
    SplitStarts(s, ',');
    while i < |s|
      invariant 0 <= i <= |s| && Split(s, ',', i, out)
      decreases |s| - i
    {
      var end := IndexOf(s, ',', i);
      SplitGoesOn(s, ',', i, out, end);
      out := out + [s[i..end]];
      if end == |s| { return; }
      i := end + 1;
    }
    SplitEnds(s, ',', out);
  }

  method JoinPolicies(m: Policies, keys: seq<string>) returns (out: string)
    requires forall key <- keys :: key in m
    ensures out == Joined(Entries(m, keys), ';')
  {
    out := "";
    ghost var entries := Entries(m, keys);
    hide Entries;
    for i := 0 to |keys|
      invariant out == Joined(entries[..i], ';')
    {
      assert entries[..i + 1][..i] == entries[..i];
      if out != "" { out := out + ";"; }
      var oids := JoinProfiles(m[keys[i]]);
      out := out + keys[i] + "=" + oids;
      assert keys[i] + "=" + oids == entries[i];
    }
    assert entries[..|entries|] == entries;
  }

  lemma OneMoreParsed(entries: seq<string>, entry: string)
    ensures Parsed(entries + [entry]) == Parsed(entries)[ParseEntry(entry).0 := ParseEntry(entry).1]
  {
    assert (entries + [entry])[..|entries|] == entries;
  }

  method SplitPolicies(s: string) returns (out: Policies)
    ensures out == Parsed(Fields(s, ';'))
  {
    out := map[];
    var i := 0;
    ghost var entries: seq<string> := [];
    assert Parsed([]) == map[];
    hide Fields, Split, ParseEntry, Parsed;
    SplitStarts(s, ';');
    while i < |s|
      invariant 0 <= i <= |s| && Split(s, ';', i, entries)
      invariant out == Parsed(entries)
      decreases |s| - i
    {
      var end := IndexOf(s, ';', i);
      SplitGoesOn(s, ';', i, entries, end);
      var key, oids := SplitEntry(s[i..end]);
      OneMoreParsed(entries, s[i..end]);
      out := out[key := oids];
      entries := entries + [s[i..end]];
      if end == |s| { return; }
      i := end + 1;
    }
    SplitEnds(s, ';', entries);
  }

  lemma EntryMeans(entry: string)
    ensures var (key, oids) := ParseEntry(entry);
            && ('=' !in entry ==> key == entry && oids == Fields(entry, ','))
            && ('=' in entry ==> '=' !in key && exists list :: entry == key + "=" + list && oids == Fields(list, ','))
  {
    hide Fields;
    var eq := Find(entry, '=');
    hide Find;
    if eq < |entry| { assert entry == entry[..eq] + "=" + entry[eq + 1..]; }
  }

  method SplitEntry(entry: string) returns (key: string, oids: seq<string>)
    ensures (key, oids) == ParseEntry(entry)
    ensures '=' !in entry ==> key == entry && oids == Fields(entry, ',')
    ensures '=' in entry ==> '=' !in key && exists list :: entry == key + "=" + list && oids == Fields(list, ',')
  {
    EntryMeans(entry);
    hide Fields;
    var eq := IndexOf(entry, '=', 0);
    assert entry[0..] == entry && entry[..|entry|] == entry;
    key := entry[..eq];
    oids := SplitProfiles(if eq == |entry| then entry else entry[eq + 1..]);
  }

  /** What the columns look like. */
  lemma ColumnsLookLike()
    ensures Joined(["1.4", "1.5"], ',') == "1.4,1.5"
    ensures var m: Policies := map["client" := ["1.4", "1.5"], "server" := ["1.2"]];
            Joined(Entries(m, ["client", "server"]), ';') == "client=1.4,1.5;server=1.2"
  {
    var m: Policies := map["client" := ["1.4", "1.5"], "server" := ["1.2"]];
    JoinedPair("1.4", "1.5", ',');
    assert Joined(["1.2"], ',') == "1.2" by { assert ["1.2"][..0] == []; }
    assert "client" + "=" + "1.4,1.5" == "client=1.4,1.5" && "server" + "=" + "1.2" == "server=1.2";
    assert Entry(m, "client") == "client=1.4,1.5" && Entry(m, "server") == "server=1.2";
    assert Entries(m, ["client", "server"]) == ["client=1.4,1.5", "server=1.2"];
    JoinedPair("client=1.4,1.5", "server=1.2", ';');
  }

  lemma JoinedPair(a: string, b: string, sep: char)
    requires a != ""
    ensures Joined([a, b], sep) == a + [sep] + b
  {
    assert [a, b][..1] == [a] && [a][..0] == [];
    assert Joined([a], sep) == a;
  }

  // ---------------------------------------------------------------- what loading accepts

  const Profiles: seq<string> := ["server", "client", "email"]
  const ANY_POLICY: string := "2.5.29.32.0"

  /** One line of a `policies` table: a profile and its object identifiers. */
  datatype Line = Line(profile: string, oids: seq<string>)

  predicate DottedDecimal(s: string) {
    s != "" && forall c <- s :: IsDigit(c) || c == '.'
  }

  /** A list the loader takes; `oids` are the strings the library reads and prints alike. */
  predicate ListAccepted(list: seq<string>, oids: set<string>) {
    NoDuplicates(list) && forall oid <- list :: oid in oids && oid != ANY_POLICY
  }

  predicate TableAccepted(table: seq<Line>, profiles: seq<string>, oids: set<string>) {
    forall line <- table :: line.profile in profiles && ListAccepted(line.oids, oids)
  }

  lemma ListMeans(list: seq<string>, oids: set<string>)
    ensures ListAccepted(list, oids) <==>
              && (forall i, j :: 0 <= i < j < |list| ==> list[i] != list[j])
              && (forall i :: 0 <= i < |list| ==> list[i] in oids && list[i] != "2.5.29.32.0")
  {
  }

  method LoadList(list: seq<string>, oids: set<string>) returns (kept: seq<string>, ok: bool)
    ensures ok <==> ListAccepted(list, oids)
    ensures ok ==> kept == list
    ensures ok <==>
              && (forall i, j :: 0 <= i < j < |list| ==> list[i] != list[j])
              && (forall i :: 0 <= i < |list| ==> list[i] in oids && list[i] != "2.5.29.32.0")
  {
    kept, ok := [], true;
    for i := 0 to |list|
      invariant ok <==> ListAccepted(list[..i], oids)
      invariant ok ==> kept == list[..i]
    {
      assert list[..i + 1] == list[..i] + [list[i]];
      if list[i] !in oids || list[i] == ANY_POLICY || list[i] in kept {
        assert ok ==> !ListAccepted(list[..i + 1], oids) by {
          if ok && list[i] in kept { assert !NoDuplicates(list[..i + 1]); }
        }
        assert !ok ==> !ListAccepted(list[..i + 1], oids) by { ListPrefix(list, i, oids); }
        ok := false;
      } else {
        ListPrefix(list, i, oids);
        kept := kept + [list[i]];
      }
    }
    assert list[..|list|] == list;
    ListMeans(list, oids);
    hide ListAccepted;
  }

  lemma ListPrefix(list: seq<string>, i: nat, oids: set<string>)
    requires i < |list|
    ensures ListAccepted(list[..i + 1], oids) ==> ListAccepted(list[..i], oids)
  {
    var more := list[..i + 1];
    assert forall k :: 0 <= k < i ==> list[..i][k] == more[k];
    assert forall oid <- list[..i] :: oid in more;
  }

  /** Reads a table whose keys, as TOML requires, are distinct; every fault is reported and fails the load. */
  method LoadPolicies(table: seq<Line>, profiles: seq<string>, oids: set<string>) returns (policies: Policies, ok: bool)
    requires forall i, j :: 0 <= i < j < |table| ==> table[i].profile != table[j].profile
    ensures ok <==> TableAccepted(table, profiles, oids)
    ensures ok <==> forall i :: 0 <= i < |table| ==>
                      && table[i].profile in profiles
                      && (forall j, k :: 0 <= j < k < |table[i].oids| ==> table[i].oids[j] != table[i].oids[k])
                      && (forall j :: 0 <= j < |table[i].oids| ==> table[i].oids[j] in oids && table[i].oids[j] != "2.5.29.32.0")
    ensures ok ==> forall key :: key in policies <==> exists line <- table :: line.profile == key
    ensures ok ==> forall line <- table :: policies[line.profile] == line.oids
  {
    policies, ok := map[], true;
    forall line <- table { ListMeans(line.oids, oids); }
    hide ListAccepted;
    for i := 0 to |table|
      invariant ok <==> forall j :: 0 <= j < i ==> table[j].profile in profiles && ListAccepted(table[j].oids, oids)
      invariant ok ==> forall key :: key in policies <==> exists j :: 0 <= j < i && table[j].profile == key
      invariant ok ==> forall j :: 0 <= j < i ==> policies[table[j].profile] == table[j].oids
    {
      if table[i].profile !in profiles {
        ok := false;
      } else {
        var kept, accepted := LoadList(table[i].oids, oids);
        ok := ok && accepted;
        policies := policies[table[i].profile := kept];
      }
    }
  }

  /** What the loader takes, the column keeps: reading it gives every list back under its profile. */
  lemma LoadedPoliciesRoundTrip(table: seq<Line>, profiles: seq<string>, oids: set<string>, m: Policies, keys: seq<string>)
    requires TableAccepted(table, profiles, oids)
    requires (forall p <- profiles :: p in Profiles) && (forall oid <- oids :: DottedDecimal(oid))
    requires forall key :: key in m <==> exists line <- table :: line.profile == key
    requires forall line <- table :: m[line.profile] == line.oids
    requires forall key :: key in keys <==> key in m
    ensures Storable(m) && Parsed(Fields(Joined(Entries(m, keys), ';'), ';')) == m
  {
    forall key | key in m ensures '=' !in key && ';' !in key && Joinable(m[key], ',') && Without(m[key], ';') {
      var line :| line in table && line.profile == key;
      assert line.profile in Profiles;
      OidsAreSeparate(line.oids, oids);
    }
    PoliciesRoundTrip(m, keys);
  }

  lemma OidsAreSeparate(list: seq<string>, oids: set<string>)
    requires ListAccepted(list, oids) && forall oid <- oids :: DottedDecimal(oid)
    ensures Joinable(list, ',') && Without(list, ';')
  {
    forall i | 0 <= i < |list| ensures ',' !in list[i] && ';' !in list[i] && list[i] != "" {
      assert list[i] in list && DottedDecimal(list[i]);
    }
  }
}
