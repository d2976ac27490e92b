/** Graph paths: normalisation, segments, and membership of a node in a directory subtree. */
module GraphScope {
  import opened Options

  const ROOT_KEY := "(root)"

  predicate IsDirectoryLabel(nodeLabel: string) { nodeLabel == "Directory" || nodeLabel == "Folder" }

  predicate StartsWith(s: string, prefix: string) { prefix <= s }

  // ----- normalisation

  function ForwardSlashes(s: string): (r: string)
    ensures |r| == |s| && forall i | 0 <= i < |s| :: r[i] == if s[i] == '\\' then '/' else s[i]
  {
    seq(|s|, i requires 0 <= i < |s| => if s[i] == '\\' then '/' else s[i])
  }

  predicate DrivePrefixed(s: string) {
    |s| >= 3 && ('A' <= s[0] <= 'Z' || 'a' <= s[0] <= 'z') && s[1] == ':' && s[2] == '/'
  }

  function StripDrive(s: string): string { if DrivePrefixed(s) then s[3..] else s }

  function StripLeading(s: string): string {
    if s != "" && s[0] == '/' then StripLeading(s[1..]) else s
  }

  function StripTrailing(s: string): string {
    if s != "" && s[|s| - 1] == '/' then StripTrailing(s[..|s| - 1]) else s
  }

  /** `\` becomes `/`, one drive prefix goes, then the slashes at both ends. */
  function NormalizeGraphPath(filePath: Option<string>): string {
    match filePath
    case None => ""
    case Some(p) => StripTrailing(StripLeading(StripDrive(ForwardSlashes(p))))
  }

  /** What normalisation guarantees: no backslash, no slash at either end. */
  predicate Normal(s: string) {
    && '\\' !in s
    && (s != "" ==> s[0] != '/' && s[|s| - 1] != '/')
  }

  lemma {:induction false} StripLeadingNormal(s: string)
    requires '\\' !in s
    ensures var r := StripLeading(s); '\\' !in r && (r != "" ==> r[0] != '/')
  {
    if s != "" && s[0] == '/' {
      StripLeadingNormal(s[1..]);
    }
  }

  lemma {:induction false} StripTrailingNormal(s: string)
    requires '\\' !in s
    requires s != "" ==> s[0] != '/'
    ensures Normal(StripTrailing(s))
  {
    if s != "" && s[|s| - 1] == '/' {
      var t := s[..|s| - 1];
      assert s == t + [s[|s| - 1]];
      StripTrailingNormal(s[..|s| - 1]);
    }
  }

  lemma NormalizedIsNormal(filePath: Option<string>)
    ensures Normal(NormalizeGraphPath(filePath))
  {
    if filePath.Some? {
      var s := StripDrive(ForwardSlashes(filePath.value));
      StripLeadingNormal(s);
      StripTrailingNormal(StripLeading(s));
    }
  }

  /** A path in normal form is left alone unless it looks as if it began with a drive. */
  lemma NormalStays(s: string)
    requires Normal(s) && !DrivePrefixed(s)
    ensures NormalizeGraphPath(Some(s)) == s
  {
    assert ForwardSlashes(s) == s by {
      forall i | 0 <= i < |s| ensures ForwardSlashes(s)[i] == s[i] { assert s[i] in s; }
    }
  }

  // ----- segments

  function IndexOfSlash(s: string): (k: nat)
    ensures k <= |s|
    ensures k < |s| ==> s[k] == '/'
    ensures forall i | 0 <= i < k :: s[i] != '/'
  {
    if s == "" || s[0] == '/' then 0 else 1 + IndexOfSlash(s[1..])
  }

  /** `split('/')`. */
  function Split(s: string): seq<string> {
    var k := IndexOfSlash(s);
    if k == |s| then [s] else [s[..k]] + Split(s[k + 1..])
  }

  /** `filter(Boolean)`. */
  function NonEmpty(parts: seq<string>): seq<string> {
    if parts == [] then []
    else (if parts[0] == "" then [] else [parts[0]]) + NonEmpty(parts[1..])
  }

  function Segments(s: string): seq<string> { NonEmpty(Split(s)) }

  /** `join('/')`. */
  function Join(parts: seq<string>): string {
    if parts == [] then "" else if |parts| == 1 then parts[0] else parts[0] + "/" + Join(parts[1..])
  }

  predicate IsSegment(s: string) { s != "" && '/' !in s }

  ghost predicate AreSegments(parts: seq<string>) {
    forall p | p in parts :: IsSegment(p)
  }

  lemma {:induction false} SegmentsAreSegments(s: string)
    ensures AreSegments(Segments(s))
    decreases |s|
  {
    var k := IndexOfSlash(s);
    var head := s[..k];
    assert forall i | 0 <= i < k :: head[i] == s[i] != '/';
    if k < |s| {
      SegmentsAreSegments(s[k + 1..]);
      assert Segments(s) == (if head == "" then [] else [head]) + Segments(s[k + 1..]);
    } else {
      assert head == s;
      assert Split(s) == [s] && [s][1..] == [];
      assert NonEmpty([s]) == (if s == "" then [] else [s]) + NonEmpty([s][1..]);
    }
  }

  lemma NoSlash(p: string)
    requires '/' !in p
    ensures forall i | 0 <= i < |p| :: p[i] != '/'
  {
  }

  lemma SlashAt(p: string, rest: string)
    requires '/' !in p
    ensures IndexOfSlash(p + "/" + rest) == |p|
    ensures (p + "/" + rest)[..|p|] == p && (p + "/" + rest)[|p| + 1..] == rest
  {
    var s := p + "/" + rest;
    var k := IndexOfSlash(s);
    assert s[|p|] == '/';
    NoSlash(p);
    assert forall j | 0 <= j < |p| :: s[j] == p[j];
    assert s[|p| + 1..] == rest;
  }

  /** Splitting what was joined gives the segments back. */
  lemma {:induction false} SegmentsOfJoin(parts: seq<string>)
    requires AreSegments(parts)
    ensures Segments(Join(parts)) == parts
  {
    if parts == [] {
      assert Split("") == [""];
      assert NonEmpty([""]) == [];
    } else {
      var p := parts[0];
      assert p in parts;
      NoSlash(p);
      if |parts| == 1 {
        assert Split(p) == [p];
        assert NonEmpty([p]) == [p];
      } else {
        assert forall q | q in parts[1..] :: q in parts;
        SegmentsOfJoin(parts[1..]);
        SlashAt(p, Join(parts[1..]));
      }
    }
  }

  /** A slash in a joined path sits between two of its parts. */
  lemma {:induction false} SlashIsBoundary(parts: seq<string>, i: nat) returns (k: nat)
    requires AreSegments(parts)
    requires i < |Join(parts)| && Join(parts)[i] == '/'
    ensures 0 < k < |parts|
    ensures Join(parts[..k]) == Join(parts)[..i]
    ensures Join(parts[k..]) == Join(parts)[i + 1..]
  {
    var p := parts[0];
    assert p in parts;
    NoSlash(p);
    if |parts| > 1 {
      var rest := parts[1..];
      assert forall q | q in rest :: q in parts;
      SlashAt(p, Join(rest));
      assert forall j | 0 <= j < |p| :: Join(parts)[j] == p[j];
      if i == |p| {
        k := 1;
        assert parts[..1] == [p];
      } else {
        var j := SlashIsBoundary(rest, i - |p| - 1);
        k := j + 1;
        assert parts[..k] == [p] + rest[..j];
        assert parts[k..] == rest[j..];
        assert Join(parts)[..i] == p + "/" + Join(rest)[..i - |p| - 1];
      }
    }
  }

  /** Prefixes of the parts join to the path or to a directory above it. */
  lemma {:induction false} JoinPrefix(parts: seq<string>, k: nat)
    requires 0 < k <= |parts|
    ensures Join(parts) == Join(parts[..k]) + if k < |parts| then "/" + Join(parts[k..]) else ""
  {
    if k == |parts| {
      assert parts[..k] == parts;
    } else if k == 1 {
      assert parts[..1] == [parts[0]];
    } else {
      JoinPrefix(parts[1..], k - 1);
      assert parts[..k][1..] == parts[1..][..k - 1];
      assert parts[k..] == parts[1..][k - 1..];
    }
  }

  // ----- normalisation keeps the segments

  lemma NonEmptyOfFirst(first: string, rest: seq<string>)
    ensures NonEmpty([first] + rest) == (if first == "" then [] else [first]) + NonEmpty(rest)
  {
    assert ([first] + rest)[1..] == rest;
  }

  lemma SegmentsFrom(s: string)
    ensures var k := IndexOfSlash(s);
            Segments(s) == (if k == 0 then [] else [s[..k]]) + if k < |s| then Segments(s[k + 1..]) else []
  {
    var k := IndexOfSlash(s);
    if k < |s| {
      NonEmptyOfFirst(s[..k], Split(s[k + 1..]));
    } else {
      assert s[..k] == s;
      NonEmptyOfFirst(s, []);
      assert [s] + [] == [s];
    }
  }

  lemma {:induction false} LeadingDropped(s: string)
    ensures Segments(StripLeading(s)) == Segments(s)
  {
    if s != "" && s[0] == '/' {
      LeadingDropped(s[1..]);
      SegmentsFrom(s);
    }
  }

  lemma {:induction false} FirstSlash(s: string)
    ensures IndexOfSlash(s + "/") == IndexOfSlash(s)
  {
    if s != "" && s[0] != '/' {
      FirstSlash(s[1..]);
      assert (s + "/")[1..] == s[1..] + "/";
    }
  }

  lemma {:induction false} SlashAdded(s: string)
    ensures Segments(s + "/") == Segments(s)
    decreases |s|
  {
    var t, k := s + "/", IndexOfSlash(s);
    FirstSlash(s);
    SegmentsFrom(s);
    SegmentsFrom(t);
    assert t[..k] == s[..k];
    if k < |s| {
      SlashAdded(s[k + 1..]);
      assert t[k + 1..] == s[k + 1..] + "/";
    } else {
      assert t[k + 1..] == "";
      SegmentsFrom("");
    }
  }

  lemma {:induction false} TrailingDropped(s: string)
    ensures Segments(StripTrailing(s)) == Segments(s)
  {
    if s != "" && s[|s| - 1] == '/' {
      var t := s[..|s| - 1];
      TrailingDropped(t);
      SlashAdded(t);
      assert s == t + "/";
    }
  }

  /**
   A normalised path has the segments of the path, with `\` read as `/` and without a drive prefix: normalising drops
   nothing but slashes.
   */
  lemma NormalizedKeepsSegments(path: string)
    ensures Segments(NormalizeGraphPath(Some(path))) == Segments(StripDrive(ForwardSlashes(path)))
  {
    var s := StripDrive(ForwardSlashes(path));
    LeadingDropped(s);
    TrailingDropped(StripLeading(s));
  }

  // ----- membership

  function NodeDirectoryParts(filePath: Option<string>, nodeLabel: string): seq<string> {
    var parts := Segments(NormalizeGraphPath(filePath));
    if IsDirectoryLabel(nodeLabel) || parts == [] then parts else parts[..|parts| - 1]
  }

  function NodeDirectory(filePath: Option<string>, nodeLabel: string): string {
    Join(NodeDirectoryParts(filePath, nodeLabel))
  }

  /** The directory is `key` or lies somewhere below it. */
  predicate Under(directory: string, key: string) {
    directory == key || StartsWith(directory, key + "/")
  }

  predicate GraphNodeBelongsToDirectory(filePath: Option<string>, nodeLabel: string, directoryKey: string) {
    var normalizedKey := NormalizeGraphPath(Some(directoryKey));
    var directory := NodeDirectory(filePath, nodeLabel);
    if normalizedKey == ROOT_KEY then |directory| == 0
    else |normalizedKey| > 0 && Under(directory, normalizedKey)
  }

  lemma DirectoryPartsAreSegments(filePath: Option<string>, nodeLabel: string)
    ensures AreSegments(NodeDirectoryParts(filePath, nodeLabel))
  {
    SegmentsAreSegments(NormalizeGraphPath(filePath));
  }

  lemma UnderTransitive(a: string, b: string, c: string)
    requires Under(a, b) && Under(b, c)
    ensures Under(a, c)
  {
    if a != b && b != c {
      assert a[..|c| + 1] == b[..|c| + 1] == c + "/";
    }
  }

  /** Two directories above the same one are above each other, the shorter one first. */
  lemma UnderShorter(directory: string, a: string, b: string)
    requires Under(directory, a) && Under(directory, b) && |b| < |a|
    ensures Under(a, b)
  {
    assert directory[..|a|] == a;
    assert directory[..|b| + 1] == b + "/";
    assert a[..|b| + 1] == directory[..|b| + 1];
  }
}
