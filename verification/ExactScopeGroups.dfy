/**
 Grouping the nodes of an exact scope: at most twelve domains, at most forty-eight files of their own, and
 everything else in aggregates, with every node counted once.
 */
module ExactScopeGroups {
  import opened Counting
  import opened DomainKeys
  import opened GraphScope
  import opened Sorting

  const MAX_SCOPE_DOMAINS: nat := 12
  const MAX_SELECTED_FILES: nat := 48
  const FILES_PER_DOMAIN_RESERVE: nat := 2

  function OtherDomainKey(scopeKey: string): string {
    if scopeKey == ROOT_KEY then "(other directories)" else scopeKey + "/(other directories)"
  }

  function OtherFilesKey(domainKey: string): string { domainKey + "/(other files)" }

  // ----- counting

  /** A counted key with its count. */
  datatype Count = Count(key: string, count: nat)

  ghost predicate IsHistogram(counts: map<string, nat>, keys: seq<string>) {
    && (forall k :: k in counts <==> k in keys)
    && (forall k | k in counts :: counts[k] == Occurrences(keys, k))
  }

  /** One more key in a histogram. */
  lemma HistogramStep(counts: map<string, nat>, keys: seq<string>, key: string)
    requires IsHistogram(counts, keys)
    ensures IsHistogram(counts[key := (if key in counts then counts[key] else 0) + 1], keys + [key])
  {
    assert key !in keys ==> multiset(keys)[key] == 0;
  }

  method CountKeys(keys: seq<string>) returns (counts: map<string, nat>)
    ensures IsHistogram(counts, keys)
  {
    counts := map[];
    for i := 0 to |keys|
      invariant IsHistogram(counts, keys[..i])
    {
      HistogramStep(counts, keys[..i], keys[i]);
      PrefixGrows(keys, i);
      counts := counts[keys[i] := (if keys[i] in counts then counts[keys[i]] else 0) + 1];
    }
    assert keys[..|keys|] == keys;
  }

  ghost predicate IsListing(list: seq<Count>, counts: map<string, nat>) {
    && (forall i, j | 0 <= i < j < |list| :: list[i].key != list[j].key)
    && (forall c | c in list :: c.key in counts && counts[c.key] == c.count)
    && (forall k | k in counts :: Count(k, counts[k]) in list)
  }

  /** The entries of a map, each once. */
  method List(counts: map<string, nat>) returns (list: seq<Count>)
    ensures IsListing(list, counts) && |list| == |counts|
  {
    list := [];
    var rest := counts.Keys;
    while rest != {}
      invariant rest <= counts.Keys && |list| + |rest| == |counts|
      invariant forall i, j | 0 <= i < j < |list| :: list[i].key != list[j].key
      invariant forall c | c in list :: c.key in counts && c.key !in rest && counts[c.key] == c.count
      invariant forall k | k in counts && k !in rest :: Count(k, counts[k]) in list
    {
      var k :| k in rest;
      ghost var before := list;
      list := list + [Count(k, counts[k])];
      rest := rest - {k};
      assert forall j | 0 <= j < |before| :: before[j] in before;
    }
  }

  predicate ByKey(a: Count, b: Count) { StringLeq(a.key, b.key) }

  /** Larger counts first, then the key. */
  predicate MoreFirst(a: Count, b: Count) { a.count > b.count || (a.count == b.count && StringLeq(a.key, b.key)) }

  lemma MoreFirstTotal(list: seq<Count>)
    ensures TotalOn(MoreFirst, list) && TotalOn(ByKey, list)
  {
    StringLeqOrder();
  }

  lemma ListingPermuted(list: seq<Count>, sorted: seq<Count>, counts: map<string, nat>)
    requires IsListing(list, counts) && multiset(sorted) == multiset(list)
    ensures IsListing(sorted, counts)
  {
    SameElements(list, sorted);
    forall i, j | 0 <= i < j < |list| ensures list[i] != list[j] {
      assert list[i].key != list[j].key;
    }
    DistinctPermutation(list, sorted);
    forall i, j | 0 <= i < j < |sorted| ensures sorted[i].key != sorted[j].key {
      assert sorted[i] in list && sorted[j] in list;
    }
  }

  method SortedCounts(counts: map<string, nat>) returns (sorted: seq<Count>)
    ensures IsListing(sorted, counts) && |sorted| == |counts| && Sorted(sorted, MoreFirst)
  {
    var list := List(counts);
    sorted := SortBy(list, MoreFirst);
    MoreFirstTotal(list);
    SortBySorted(list, MoreFirst);
    ListingPermuted(list, sorted, counts);
  }

  method SortedByKey(counts: map<string, nat>) returns (sorted: seq<Count>)
    ensures IsListing(sorted, counts) && |sorted| == |counts| && Sorted(sorted, ByKey)
  {
    var list := List(counts);
    sorted := SortBy(list, ByKey);
    MoreFirstTotal(list);
    SortBySorted(list, ByKey);
    ListingPermuted(list, sorted, counts);
  }

  // ----- domains

  /** Few domains are all kept; of many, the scope's own and the largest others, eleven in all. */
  ghost predicate IsDomainChoice(selected: set<string>, counts: map<string, nat>, scopeKey: string) {
    && selected <= counts.Keys
    && (|counts| <= MAX_SCOPE_DOMAINS ==> selected == counts.Keys)
    && (|counts| > MAX_SCOPE_DOMAINS ==>
          && |selected| == MAX_SCOPE_DOMAINS - 1
          && (scopeKey in counts ==> scopeKey in selected)
          && (forall k, u | k in selected && k != scopeKey && u in counts && u !in selected ::
                MoreFirst(Count(k, counts[k]), Count(u, counts[u]))))
  }

  /** Taken so far: the keys of the first `i` counts, and the scope's own. */
  ghost predicate IsTaken(selected: set<string>, counts: map<string, nat>, scopeKey: string, sorted: seq<Count>,
                          i: nat) {
    && i <= |sorted| && selected <= counts.Keys
    && (forall k | k in selected :: k == scopeKey || exists j :: 0 <= j < i && sorted[j].key == k)
    && (forall j | 0 <= j < i :: sorted[j].key in selected)
    && (scopeKey in counts ==> scopeKey in selected)
  }

  lemma TakeNext(selected: set<string>, counts: map<string, nat>, scopeKey: string, sorted: seq<Count>, i: nat)
    requires IsTaken(selected, counts, scopeKey, sorted, i) && i < |sorted| && sorted[i].key in counts
    ensures IsTaken(selected + {sorted[i].key}, counts, scopeKey, sorted, i + 1)
  {
    forall k | k in selected + {sorted[i].key} && k != scopeKey
      ensures exists j :: 0 <= j < i + 1 && sorted[j].key == k {
      if k in selected {
        var j :| 0 <= j < i && sorted[j].key == k;
      } else {
        assert sorted[i].key == k;
      }
    }
  }

  lemma TakenFirst(selected: set<string>, counts: map<string, nat>, scopeKey: string, sorted: seq<Count>, i: nat,
                   k: string, u: string)
    requires IsTaken(selected, counts, scopeKey, sorted, i) && IsListing(sorted, counts)
    requires forall j, l | 0 <= j < l < |sorted| :: MoreFirst(sorted[j], sorted[l])
    requires k in selected && k != scopeKey && u in counts && u !in selected
    ensures MoreFirst(Count(k, counts[k]), Count(u, counts[u]))
  {
    var j :| 0 <= j < i && sorted[j].key == k;
    assert Count(u, counts[u]) in sorted;
    var l :| 0 <= l < |sorted| && sorted[l] == Count(u, counts[u]);
    assert sorted[j] in sorted;
  }

  /** If the loop ran to the end, every key was taken. */
  lemma AllTaken(selected: set<string>, counts: map<string, nat>, sorted: seq<Count>, i: nat)
    requires IsListing(sorted, counts) && |counts| > MAX_SCOPE_DOMAINS && i <= |sorted|
    requires forall j | 0 <= j < i :: sorted[j].key in selected
    requires selected <= counts.Keys && |selected| <= MAX_SCOPE_DOMAINS - 1
    requires i == |sorted| || |selected| >= MAX_SCOPE_DOMAINS - 1
    ensures |selected| == MAX_SCOPE_DOMAINS - 1
  {
    if i == |sorted| {
      forall k | k in counts ensures k in selected {
        assert Count(k, counts[k]) in sorted;
      }
      assert selected == counts.Keys;
    }
  }

  method SelectDomains(counts: map<string, nat>, scopeKey: string) returns (selected: set<string>)
    ensures IsDomainChoice(selected, counts, scopeKey)
  {
    if |counts| <= MAX_SCOPE_DOMAINS {
      return counts.Keys;
    }
    selected := if scopeKey in counts then {scopeKey} else {};
    var sorted := SortedCounts(counts);
    var i := 0;
    while i < |sorted| && |selected| < MAX_SCOPE_DOMAINS - 1
      invariant 0 <= i <= |sorted| && |selected| <= MAX_SCOPE_DOMAINS - 1
      invariant IsTaken(selected, counts, scopeKey, sorted, i)
    {
      assert sorted[i] in sorted;
      TakeNext(selected, counts, scopeKey, sorted, i);
      selected := selected + {sorted[i].key};
      i := i + 1;
    }
    AllTaken(selected, counts, sorted, i);
    forall k, u | k in selected && k != scopeKey && u in counts && u !in selected
      ensures MoreFirst(Count(k, counts[k]), Count(u, counts[u]))
    {
      TakenFirst(selected, counts, scopeKey, sorted, i, k, u);
    }
  }

  function MappedDomainKey(rawKey: string, selected: set<string>, scopeKey: string): string {
    if rawKey in selected then rawKey else OtherDomainKey(scopeKey)
  }

  // ----- what a node counts towards

  datatype Tag = Tag(domain: string, file: string)

  function TagOf(node: Node, selected: set<string>, scopeKey: string): Tag {
    Tag(MappedDomainKey(RawDomainKey(node, scopeKey), selected, scopeKey), FileKey(node))
  }

  function Composite(t: Tag): string { t.domain + "\0" + t.file }

  function ClusterKey(t: Tag, selectedFiles: set<string>): string {
    if Composite(t) in selectedFiles then t.file else OtherFilesKey(t.domain)
  }

  function RawKeys(nodes: seq<Node>, scopeKey: string): (r: seq<string>)
    ensures |r| == |nodes| && forall i | 0 <= i < |nodes| :: r[i] == RawDomainKey(nodes[i], scopeKey)
  {
    seq(|nodes|, i requires 0 <= i < |nodes| => RawDomainKey(nodes[i], scopeKey))
  }

  function TagsOf(nodes: seq<Node>, selected: set<string>, scopeKey: string): (r: seq<Tag>)
    ensures |r| == |nodes| && forall i | 0 <= i < |nodes| :: r[i] == TagOf(nodes[i], selected, scopeKey)
  {
    seq(|nodes|, i requires 0 <= i < |nodes| => TagOf(nodes[i], selected, scopeKey))
  }

  function Domains(tags: seq<Tag>): (r: seq<string>)
    ensures |r| == |tags| && forall i | 0 <= i < |tags| :: r[i] == tags[i].domain
  {
    seq(|tags|, i requires 0 <= i < |tags| => tags[i].domain)
  }

  function Composites(tags: seq<Tag>): (r: seq<string>)
    ensures |r| == |tags| && forall i | 0 <= i < |tags| :: r[i] == Composite(tags[i])
  {
    seq(|tags|, i requires 0 <= i < |tags| => Composite(tags[i]))
  }

  function ClusterKeys(tags: seq<Tag>, selectedFiles: set<string>): (r: seq<string>)
    ensures |r| == |tags| && forall i | 0 <= i < |tags| :: r[i] == ClusterKey(tags[i], selectedFiles)
  {
    seq(|tags|, i requires 0 <= i < |tags| => ClusterKey(tags[i], selectedFiles))
  }

  // ----- counts that remember a domain

  /** A count under a key, and the domain of the last node counted under it. */
  datatype Group = Group(domainKey: string, count: nat)

  /** The domain of the last tag whose key is `key`. */
  function LastDomain(keys: seq<string>, domains: seq<string>, key: string): string
    requires |keys| == |domains| && key in keys
  {
    var last := |keys| - 1;
    if keys[last] == key then domains[last]
    else
      assert keys == keys[..last] + [keys[last]];
      LastDomain(keys[..last], domains[..last], key)
  }

  ghost predicate IsGrouping(groups: map<string, Group>, keys: seq<string>, domains: seq<string>)
    requires |keys| == |domains|
  {
    && (forall k :: k in groups <==> k in keys)
    && (forall k | k in groups :: groups[k] == Group(LastDomain(keys, domains, k), Occurrences(keys, k)))
  }

  lemma OneMoreCounted(groups: map<string, Group>, keys: seq<string>, domains: seq<string>, key: string, domain: string)
    requires |keys| == |domains| && IsGrouping(groups, keys, domains)
    ensures IsGrouping(groups[key := Group(domain, (if key in groups then groups[key].count else 0) + 1)],
                       keys + [key], domains + [domain])
  {
    assert (keys + [key])[..|keys|] == keys && (domains + [domain])[..|domains|] == domains;
    assert key !in keys ==> multiset(keys)[key] == 0;
  }

  method CountGroups(keys: seq<string>, domains: seq<string>) returns (groups: map<string, Group>)
    requires |keys| == |domains|
    ensures IsGrouping(groups, keys, domains)
  {
    groups := map[];
    for i := 0 to |keys|
      invariant IsGrouping(groups, keys[..i], domains[..i])
    {
      PrefixGrows(keys, i);
      PrefixGrows(domains, i);
      OneMoreCounted(groups, keys[..i], domains[..i], keys[i], domains[i]);
      var count := if keys[i] in groups then groups[keys[i]].count else 0;
      groups := groups[keys[i] := Group(domains[i], count + 1)];
    }
    assert keys[..|keys|] == keys && domains[..|domains|] == domains;
  }

  ghost predicate IsLast(keys: seq<string>, key: string, i: int) {
    0 <= i < |keys| && keys[i] == key && forall j | i < j < |keys| :: keys[j] != key
  }

  lemma {:induction false} LastDomainOccurs(keys: seq<string>, domains: seq<string>, key: string)
    requires |keys| == |domains| && key in keys
    ensures exists i :: IsLast(keys, key, i) && domains[i] == LastDomain(keys, domains, key)
  {
    var last := |keys| - 1;
    if keys[last] == key {
      assert IsLast(keys, key, last);
    } else {
      assert keys == keys[..last] + [keys[last]];
      LastDomainOccurs(keys[..last], domains[..last], key);
      var i :| IsLast(keys[..last], key, i) && domains[..last][i] == LastDomain(keys[..last], domains[..last], key);
      forall j | i < j < |keys| ensures keys[j] != key {
        if j < last { assert keys[..last][j] == keys[j]; }
      }
      assert IsLast(keys, key, i);
    }
  }

  // ----- files

  function Counts(groups: map<string, Group>): (r: map<string, nat>)
    ensures r.Keys == groups.Keys && forall k | k in groups :: r[k] == groups[k].count
  {
    map k | k in groups :: groups[k].count
  }

  function AsCount(groups: map<string, Group>, c: string): Count
    requires c in groups
  {
    Count(c, groups[c].count)
  }

  /** Every composite key begins with its domain and the separator. */
  ghost predicate WellKeyed(groups: map<string, Group>) {
    forall c | c in groups :: StartsWith(c, groups[c].domainKey + "\0")
  }

  /** `a` is another file of the same domain and comes before `c`. */
  ghost predicate Outranks(groups: map<string, Group>, a: string, c: string)
    requires c in groups
  {
    && a in groups && a != c && groups[a].domainKey == groups[c].domainKey
    && MoreFirst(AsCount(groups, a), AsCount(groups, c))
  }

  /** One of the two largest files of its domain. */
  ghost predicate Reserved(groups: map<string, Group>, c: string) {
    c in groups && !(exists a, b :: a != b && Outranks(groups, a, c) && Outranks(groups, b, c))
  }

  /**
   Every domain keeps its two largest files, the rest of the places go to the largest files that are left, and
   no place stays empty while there are files.
   */
  ghost predicate IsFileChoice(selected: set<string>, groups: map<string, Group>) {
    && selected <= groups.Keys
    && |selected| == (if |groups| <= MAX_SELECTED_FILES then |groups| else MAX_SELECTED_FILES)
    && (forall c | Reserved(groups, c) :: c in selected)
    && (forall c, u | c in selected && !Reserved(groups, c) && u in groups && u !in selected ::
          MoreFirst(AsCount(groups, c), AsCount(groups, u)))
  }

  lemma {:induction false} PrefixOrder(p: string, a: string, b: string)
    ensures StringLeq(p + a, p + b) <==> StringLeq(a, b)
  {
    if p == "" {
      assert p + a == a && p + b == b;
    } else {
      PrefixOrder(p[1..], a, b);
      assert (p + a)[1..] == p[1..] + a && (p + b)[1..] == p[1..] + b;
      assert p + a == [p[0]] + (p[1..] + a) && p + b == [p[0]] + (p[1..] + b);
    }
  }

  /** The file part of a composite key. */
  function FilePart(composite: string, domain: string): (r: string)
    requires StartsWith(composite, domain + "\0")
    ensures composite == domain + "\0" + r
  {
    composite[|domain| + 1..]
  }

  /** The counts stand for groups, whose keys begin with their domain and the separator. */
  ghost predicate AreFiled(list: seq<Count>, groups: map<string, Group>) {
    forall c | c in list :: c.key in groups && StartsWith(c.key, groups[c.key].domainKey + "\0")
  }

  lemma FewerFiled(before: seq<Count>, c: Count, groups: map<string, Group>)
    requires AreFiled(before + [c], groups)
    ensures AreFiled(before, groups) && AreFiled([c], groups)
  {
    assert forall d | d in before || d == c :: d in before + [c];
  }

  /** The files of one domain in list order, each with its file key. */
  function Bucket(list: seq<Count>, groups: map<string, Group>, domain: string): (r: seq<Count>)
    requires AreFiled(list, groups)
  {
    if list == [] then []
    else
      var c := list[|list| - 1];
      assert list == list[..|list| - 1] + [c];
      FewerFiled(list[..|list| - 1], c, groups);
      assert c in list;
      Bucket(list[..|list| - 1], groups, domain)
      + if groups[c.key].domainKey == domain then [Count(FilePart(c.key, domain), c.count)] else []
  }

  /** A bucket holds exactly the files of its domain, each once. */
  ghost predicate IsBucket(files: seq<Count>, groups: map<string, Group>, domain: string) {
    && (forall i, j | 0 <= i < j < |files| :: files[i].key != files[j].key)
    && (forall f | f in files ::
          var c := domain + "\0" + f.key; c in groups && groups[c] == Group(domain, f.count))
    && (forall c | c in groups && groups[c].domainKey == domain && StartsWith(c, domain + "\0") ::
          Count(FilePart(c, domain), groups[c].count) in files)
  }

  lemma {:induction false} BucketMembers(list: seq<Count>, groups: map<string, Group>, domain: string)
    requires AreFiled(list, groups)
    requires forall c | c in list :: groups[c.key].count == c.count
    requires forall i, j | 0 <= i < j < |list| :: list[i].key != list[j].key
    ensures var b := Bucket(list, groups, domain);
            && (forall i, j | 0 <= i < j < |b| :: b[i].key != b[j].key)
            && (forall f | f in b :: Count(domain + "\0" + f.key, f.count) in list
                                     && groups[domain + "\0" + f.key].domainKey == domain)
            && (forall c | c in list && groups[c.key].domainKey == domain ::
                  Count(FilePart(c.key, domain), c.count) in b)
  {
    if list != [] {
      var before, c := list[..|list| - 1], list[|list| - 1];
      assert c in list && forall d | d in before :: d in list;
      assert list == before + [c];
      BucketMembers(before, groups, domain);
      var b, old_ := Bucket(list, groups, domain), Bucket(before, groups, domain);
      if groups[c.key].domainKey == domain {
        var f := Count(FilePart(c.key, domain), c.count);
        assert b == old_ + [f];
        forall i | 0 <= i < |old_| ensures old_[i].key != f.key {
          assert old_[i] in old_;
          assert Count(domain + "\0" + old_[i].key, old_[i].count) in before;
          var k :| 0 <= k < |before| && before[k] == Count(domain + "\0" + old_[i].key, old_[i].count);
          assert list[k].key != list[|list| - 1].key;
        }
      }
    }
  }

  lemma ListedBucket(list: seq<Count>, groups: map<string, Group>, domain: string)
    requires WellKeyed(groups) && IsListing(list, Counts(groups))
    ensures IsBucket(Bucket(list, groups, domain), groups, domain)
  {
    BucketMembers(list, groups, domain);
    var b := Bucket(list, groups, domain);
    forall f | f in b
      ensures var c := domain + "\0" + f.key; c in groups && groups[c] == Group(domain, f.count)
    {
      assert Count(domain + "\0" + f.key, f.count) in list;
    }
    forall c | c in groups && groups[c].domainKey == domain && StartsWith(c, domain + "\0")
      ensures Count(FilePart(c, domain), groups[c].count) in b
    {
      assert Count(c, Counts(groups)[c]) in list;
    }
  }

  lemma BucketPermuted(files: seq<Count>, sorted: seq<Count>, groups: map<string, Group>, domain: string)
    requires IsBucket(files, groups, domain) && multiset(files) == multiset(sorted)
    ensures IsBucket(sorted, groups, domain)
  {
    SameElements(files, sorted);
    forall i, j | 0 <= i < j < |files| ensures files[i] != files[j] {
      assert files[i].key != files[j].key;
    }
    DistinctPermutation(files, sorted);
    forall i, j | 0 <= i < j < |sorted| ensures sorted[i].key != sorted[j].key {
      assert sorted[i] in files && sorted[j] in files && sorted[i] != sorted[j];
    }
  }

  lemma FilePartUnique(p: string, a: string, b: string)
    ensures p + a == p + b <==> a == b
  {
    if p + a == p + b {
      assert (p + a)[|p|..] == a && (p + b)[|p|..] == b;
    }
  }

  lemma EarlierOutranks(files: seq<Count>, groups: map<string, Group>, domain: string, k: nat, i: nat)
    requires IsBucket(files, groups, domain) && Sorted(files, MoreFirst) && k < i < |files|
    ensures domain + "\0" + files[i].key in groups
    ensures Outranks(groups, domain + "\0" + files[k].key, domain + "\0" + files[i].key)
  {
    var p := domain + "\0";
    assert files[k] in files && files[i] in files && MoreFirst(files[k], files[i]);
    PrefixOrder(p, files[k].key, files[i].key);
    FilePartUnique(p, files[k].key, files[i].key);
  }

  lemma FirstInDomain(p: string, f: Count, g: Count)
    requires MoreFirst(Count(p + f.key, f.count), Count(p + g.key, g.count))
    ensures MoreFirst(f, g)
  {
    PrefixOrder(p, f.key, g.key);
  }

  lemma MutualFirst(f: Count, g: Count)
    requires MoreFirst(f, g)
    ensures MoreFirst(g, f) ==> f == g
  {
    StringTrichotomy(f.key, g.key);
  }

  lemma OutrankerPosition(files: seq<Count>, groups: map<string, Group>, domain: string, i: nat, a: string)
    returns (j: nat)
    requires WellKeyed(groups) && IsBucket(files, groups, domain) && Sorted(files, MoreFirst) && i < |files|
    requires domain + "\0" + files[i].key in groups && Outranks(groups, a, domain + "\0" + files[i].key)
    ensures j < i && domain + "\0" + files[j].key == a
  {
    var p := domain + "\0";
    var f, g := Count(FilePart(a, domain), groups[a].count), files[i];
    assert f in files && g in files;
    j :| 0 <= j < |files| && files[j] == f;
    FirstInDomain(p, f, g);
    MutualFirst(f, g);
  }

  lemma OnlyOutranker(files: seq<Count>, groups: map<string, Group>, domain: string, i: nat, a: string)
    requires WellKeyed(groups) && IsBucket(files, groups, domain) && Sorted(files, MoreFirst) && i < |files| && i < 2
    requires domain + "\0" + files[i].key in groups && Outranks(groups, a, domain + "\0" + files[i].key)
    ensures a == domain + "\0" + files[0].key
  {
    var j := OutrankerPosition(files, groups, domain, i, a);
  }

  lemma FirstTwoReserved(files: seq<Count>, groups: map<string, Group>, domain: string, i: nat)
    requires WellKeyed(groups) && IsBucket(files, groups, domain) && Sorted(files, MoreFirst)
    requires i < |files| && i < 2
    ensures Reserved(groups, domain + "\0" + files[i].key)
  {
    var c := domain + "\0" + files[i].key;
    assert files[i] in files;
    forall a, b | Outranks(groups, a, c) && Outranks(groups, b, c) ensures a == b {
      OnlyOutranker(files, groups, domain, i, a);
      OnlyOutranker(files, groups, domain, i, b);
    }
  }

  /** In the sorted bucket the reserved files are the first two. */
  lemma ReservedAreFirst(files: seq<Count>, groups: map<string, Group>, domain: string, i: nat)
    requires WellKeyed(groups) && IsBucket(files, groups, domain) && Sorted(files, MoreFirst) && i < |files|
    ensures Reserved(groups, domain + "\0" + files[i].key) <==> i < 2
  {
    if i < 2 {
      FirstTwoReserved(files, groups, domain, i);
    } else {
      EarlierOutranks(files, groups, domain, 0, i);
      EarlierOutranks(files, groups, domain, 1, i);
      FilePartUnique(domain + "\0", files[0].key, files[1].key);
    }
  }

  /** The buckets of the counts listed so far; a domain without one has none of them. */
  ghost predicate Gathered(byDomain: map<string, seq<Count>>, list: seq<Count>, groups: map<string, Group>)
    requires AreFiled(list, groups)
  {
    forall d :: (if d in byDomain then byDomain[d] else []) == Bucket(list, groups, d)
  }

  lemma GatheredAll(byDomain: map<string, seq<Count>>, list: seq<Count>, groups: map<string, Group>)
    requires WellKeyed(groups) && IsListing(list, Counts(groups)) && Gathered(byDomain, list, groups)
    ensures forall d | d in byDomain :: IsBucket(byDomain[d], groups, d)
    ensures forall d | d !in byDomain :: IsBucket([], groups, d)
  {
    forall d ensures IsBucket(if d in byDomain then byDomain[d] else [], groups, d) {
      ListedBucket(list, groups, d);
    }
  }

  lemma BucketOfMore(before: seq<Count>, c: Count, groups: map<string, Group>, d: string)
    requires AreFiled(before, groups) && AreFiled(before + [c], groups) && c in before + [c]
    ensures Bucket(before + [c], groups, d)
         == Bucket(before, groups, d)
            + if groups[c.key].domainKey == d then [Count(FilePart(c.key, d), c.count)] else []
  {
    assert (before + [c])[..|before|] == before;
  }

  lemma GatheredNext(byDomain: map<string, seq<Count>>, before: seq<Count>, c: Count, groups: map<string, Group>,
                     domain: string, files: seq<Count>)
    requires AreFiled(before, groups) && AreFiled(before + [c], groups) && c in before + [c]
    requires domain == groups[c.key].domainKey && Gathered(byDomain, before, groups)
    requires files == (if domain in byDomain then byDomain[domain] else []) + [Count(FilePart(c.key, domain), c.count)]
    ensures Gathered(byDomain[domain := files], before + [c], groups)
  {
    var after := byDomain[domain := files];
    forall d ensures (if d in after then after[d] else []) == Bucket(before + [c], groups, d) {
      BucketOfMore(before, c, groups, d);
    }
  }

  /** The files of every domain, gathered from the counts. */
  method FilesByDomain(groups: map<string, Group>) returns (byDomain: map<string, seq<Count>>)
    requires WellKeyed(groups)
    ensures forall d | d in byDomain :: IsBucket(byDomain[d], groups, d)
    ensures forall d | d !in byDomain :: IsBucket([], groups, d)
  {
    var list := List(Counts(groups));
    assert AreFiled(list, groups);
    byDomain := map[];
    for i := 0 to |list|
      invariant AreFiled(list[..i], groups) && Gathered(byDomain, list[..i], groups)
    {
      PrefixGrows(list, i);
      assert list[i] in list && list[i] in list[..i] + [list[i]];
      var domain := groups[list[i].key].domainKey;
      var file := Count(FilePart(list[i].key, domain), list[i].count);
      var files := (if domain in byDomain then byDomain[domain] else []) + [file];
      assert AreFiled(list[..i + 1], groups) by { assert forall c | c in list[..i + 1] :: c in list; }
      GatheredNext(byDomain, list[..i], list[i], groups, domain, files);
      byDomain := byDomain[domain := files];
    }
    assert list[..|list|] == list;
    GatheredAll(byDomain, list, groups);
  }

  // ----- choosing the files

  /** After the reservations of the domains in `done`: just their reserved files are selected. */
  ghost predicate ReservedFor(selected: set<string>, groups: map<string, Group>, done: seq<string>) {
    forall c :: c in selected <==> Reserved(groups, c) && groups[c].domainKey in done
  }

  /** The first `i` of the bucket are its reserved files, if `i` covers them. */
  lemma ReservedPosition(files: seq<Count>, groups: map<string, Group>, domain: string, i: nat, c: string)
    requires WellKeyed(groups) && IsBucket(files, groups, domain) && Sorted(files, MoreFirst)
    requires i <= |files| && i <= 2 && (i == |files| || i == 2)
    ensures (exists k :: 0 <= k < i && c == domain + "\0" + files[k].key)
       <==> Reserved(groups, c) && groups[c].domainKey == domain
  {
    if k :| 0 <= k < i && c == domain + "\0" + files[k].key {
      assert files[k] in files;
      ReservedAreFirst(files, groups, domain, k);
    }
    if Reserved(groups, c) && groups[c].domainKey == domain {
      var f := Count(FilePart(c, domain), groups[c].count);
      assert f in files;
      var k :| 0 <= k < |files| && files[k] == f;
      ReservedAreFirst(files, groups, domain, k);
      assert k < i && c == domain + "\0" + files[k].key;
    }
  }

  /** The files of one sorted bucket that are reserved, added to the selection. */
  method ReserveDomain(selected: set<string>, files: seq<Count>, groups: map<string, Group>, domain: string)
    returns (r: set<string>)
    requires WellKeyed(groups) && IsBucket(files, groups, domain) && Sorted(files, MoreFirst)
    requires |selected| + FILES_PER_DOMAIN_RESERVE <= MAX_SELECTED_FILES
    ensures |r| <= |selected| + FILES_PER_DOMAIN_RESERVE
    ensures forall c :: c in r <==> c in selected || (Reserved(groups, c) && groups[c].domainKey == domain)
  {
    r := selected;
    var i := 0;
    while i < |files| && i < FILES_PER_DOMAIN_RESERVE && |r| < MAX_SELECTED_FILES
      invariant 0 <= i <= |files| && i <= FILES_PER_DOMAIN_RESERVE && |r| <= |selected| + i
      invariant forall c :: c in r <==> c in selected || exists k :: 0 <= k < i && c == domain + "\0" + files[k].key
    {
      r := r + {domain + "\0" + files[i].key};
      i := i + 1;
    }
    forall c ensures c in r <==> c in selected || (Reserved(groups, c) && groups[c].domainKey == domain) {
      ReservedPosition(files, groups, domain, i, c);
    }
  }

  method SortedBucket(bucket: seq<Count>, ghost groups: map<string, Group>, ghost domain: string)
    returns (files: seq<Count>)
    requires IsBucket(bucket, groups, domain)
    ensures IsBucket(files, groups, domain) && Sorted(files, MoreFirst)
  {
    files := SortBy(bucket, MoreFirst);
    MoreFirstTotal(bucket);
    SortBySorted(bucket, MoreFirst);
    BucketPermuted(bucket, files, groups, domain);
  }

  lemma DomainDone(selected: set<string>, more: set<string>, groups: map<string, Group>, domains: seq<string>, i: nat)
    requires i < |domains| && ReservedFor(selected, groups, domains[..i])
    requires forall c :: c in more <==> c in selected || (Reserved(groups, c) && groups[c].domainKey == domains[i])
    ensures ReservedFor(more, groups, domains[..i + 1])
  {
    PrefixGrows(domains, i);
  }

  method ReserveFiles(groups: map<string, Group>, domains: seq<string>) returns (selected: set<string>)
    requires WellKeyed(groups) && |domains| <= MAX_SCOPE_DOMAINS
    requires forall c | c in groups :: groups[c].domainKey in domains
    ensures forall c :: c in selected <==> Reserved(groups, c)
    ensures |selected| <= MAX_SELECTED_FILES
  {
    var byDomain := FilesByDomain(groups);
    selected := {};
    for i := 0 to |domains|
      invariant ReservedFor(selected, groups, domains[..i])
      invariant |selected| <= i * FILES_PER_DOMAIN_RESERVE
    {
      var files := SortedBucket(if domains[i] in byDomain then byDomain[domains[i]] else [], groups, domains[i]);
      var more := ReserveDomain(selected, files, groups, domains[i]);
      DomainDone(selected, more, groups, domains, i);
      selected := more;
    }
    assert domains[..|domains|] == domains;
  }

  /** The counts that are not selected, largest first. */
  method RemainingFiles(groups: map<string, Group>, selected: set<string>) returns (remaining: seq<Count>)
    ensures forall i, j | 0 <= i < j < |remaining| :: remaining[i].key != remaining[j].key
    ensures forall c | c in remaining :: c.key in groups && c.key !in selected && c == AsCount(groups, c.key)
    ensures forall c | c in groups && c !in selected :: AsCount(groups, c) in remaining
    ensures Sorted(remaining, MoreFirst)
  {
    var rest := map c | c in groups && c !in selected :: groups[c].count;
    remaining := SortedCounts(rest);
    forall c | c in groups && c !in selected ensures AsCount(groups, c) in remaining {
      assert Count(c, rest[c]) in remaining;
    }
  }

  lemma ChoiceMade(selected: set<string>, reserved: set<string>, groups: map<string, Group>, remaining: seq<Count>,
                   i: nat)
    requires forall c :: c in reserved <==> Reserved(groups, c)
    requires selected <= groups.Keys && |selected| <= MAX_SELECTED_FILES
    requires forall c | c in remaining :: c.key in groups && c == AsCount(groups, c.key)
    requires forall c | c in groups && c !in reserved :: AsCount(groups, c) in remaining
    requires Sorted(remaining, MoreFirst) && i <= |remaining| && ChosenSoFar(selected, reserved, remaining, i)
    requires i == |remaining| || |selected| == MAX_SELECTED_FILES
    ensures IsFileChoice(selected, groups)
  {
    forall c, u | c in selected && !Reserved(groups, c) && u in groups && u !in selected
      ensures MoreFirst(AsCount(groups, c), AsCount(groups, u))
    {
      var j :| 0 <= j < i && remaining[j].key == c;
      assert remaining[j] in remaining;
      assert AsCount(groups, u) in remaining;
      var k :| 0 <= k < |remaining| && remaining[k] == AsCount(groups, u);
    }
    if i == |remaining| {
      forall c | c in groups ensures c in selected {
        if c !in reserved { assert AsCount(groups, c) in remaining; }
      }
      assert selected == groups.Keys;
    }
    SubsetSize(selected, groups.Keys);
  }

  /** After `i` of the remaining counts: just they and the reserved files are selected. */
  ghost predicate ChosenSoFar(selected: set<string>, reserved: set<string>, remaining: seq<Count>, i: nat)
    requires i <= |remaining|
  {
    && reserved <= selected
    && (forall j | 0 <= j < i :: remaining[j].key in selected)
    && (forall c | c in selected && c !in reserved :: exists j :: 0 <= j < i && remaining[j].key == c)
  }

  lemma ChosenNext(selected: set<string>, reserved: set<string>, remaining: seq<Count>, i: nat)
    requires i < |remaining| && ChosenSoFar(selected, reserved, remaining, i)
    ensures ChosenSoFar(selected + {remaining[i].key}, reserved, remaining, i + 1)
  {
    forall c | c in selected + {remaining[i].key} && c !in reserved
      ensures exists j :: 0 <= j < i + 1 && remaining[j].key == c
    {
      if c in selected {
        var j :| 0 <= j < i && remaining[j].key == c;
      } else {
        assert remaining[i].key == c;
      }
    }
  }

  method SelectFiles(groups: map<string, Group>, domains: seq<string>) returns (selected: set<string>)
    requires WellKeyed(groups) && |domains| <= MAX_SCOPE_DOMAINS
    requires forall c | c in groups :: groups[c].domainKey in domains
    ensures IsFileChoice(selected, groups)
  {
    selected := ReserveFiles(groups, domains);
    ghost var reserved := selected;
    var remaining := RemainingFiles(groups, selected);
    var i := 0;
    while i < |remaining| && |selected| < MAX_SELECTED_FILES
      invariant 0 <= i <= |remaining| && |selected| <= MAX_SELECTED_FILES
      invariant selected <= groups.Keys && ChosenSoFar(selected, reserved, remaining, i)
    {
      assert remaining[i] in remaining;
      ChosenNext(selected, reserved, remaining, i);
      selected := selected + {remaining[i].key};
      i := i + 1;
    }
    ChoiceMade(selected, reserved, groups, remaining, i);
  }
}
