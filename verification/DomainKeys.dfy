/** The domain a node of an exact scope belongs to, and what that key says about the node's directory. */
module DomainKeys {
  import opened GraphScope
  import opened Options

  /** `kind` is the node's label. */
  datatype Node = Node(id: int, kind: string, filePath: Option<string>)

  function Directory(node: Node): string { NodeDirectory(node.filePath, node.kind) }

  function FileKey(node: Node): string {
    var path := NormalizeGraphPath(node.filePath);
    if |path| > 0 then path else "(virtual)/" + node.kind
  }

  /** The scope as the layout stores it. */
  function ScopeKey(rawScopeKey: string): string {
    var key := NormalizeGraphPath(Some(rawScopeKey));
    if key == "" then ROOT_KEY else key
  }

  function RawDomainKey(node: Node, scopeKey: string): string {
    var directory := Directory(node);
    var scopePrefix := if scopeKey == ROOT_KEY then "" else scopeKey;
    var relative :=
      if |scopePrefix| > 0 && StartsWith(directory, scopePrefix + "/") then directory[|scopePrefix| + 1..]
      else if directory == scopePrefix then ""
      else directory;
    var segments := Segments(relative);
    if segments == [] then scopeKey
    else if |scopePrefix| > 0 then scopePrefix + "/" + segments[0]
    else segments[0]
  }

  /** Inside a directory scope: the parts of the directory, and how many of them the scope takes. */
  lemma ScopeIsPrefix(node: Node, scopeKey: string) returns (parts: seq<string>, k: nat)
    requires scopeKey != "" && Under(Directory(node), scopeKey)
    ensures AreSegments(parts) && 0 < k <= |parts|
    ensures Join(parts) == Directory(node) && Join(parts[..k]) == scopeKey
    ensures k == |parts| <==> Directory(node) == scopeKey
    ensures k < |parts| ==> Directory(node) == scopeKey + "/" + Join(parts[k..])
  {
    parts := NodeDirectoryParts(node.filePath, node.kind);
    DirectoryPartsAreSegments(node.filePath, node.kind);
    var directory := Directory(node);
    if directory == scopeKey {
      k := |parts|;
      assert parts[..k] == parts;
    } else {
      assert directory[..|scopeKey| + 1] == scopeKey + "/";
      assert directory[|scopeKey|] == (scopeKey + "/")[|scopeKey|] == '/';
      k := SlashIsBoundary(parts, |scopeKey|);
      assert directory[..|scopeKey|] == scopeKey;
      JoinPrefix(parts, k);
    }
  }

  lemma UnderHead(scopeKey: string, rest: seq<string>)
    requires rest != []
    ensures Under(scopeKey + "/" + Join(rest), scopeKey + "/" + rest[0])
    ensures Under(scopeKey + "/" + rest[0], scopeKey)
  {
    var key := scopeKey + "/" + rest[0];
    assert key[..|scopeKey| + 1] == scopeKey + "/";
    if |rest| > 1 {
      var directory := scopeKey + "/" + (rest[0] + "/" + Join(rest[1..]));
      assert directory == (key + "/") + Join(rest[1..]);
      assert directory[..|key| + 1] == key + "/";
    }
  }

  lemma KeyBelowScope(node: Node, scopeKey: string, rest: seq<string>)
    requires scopeKey != "" && scopeKey != ROOT_KEY
    requires rest != [] && AreSegments(rest)
    requires Directory(node) == scopeKey + "/" + Join(rest)
    ensures RawDomainKey(node, scopeKey) == scopeKey + "/" + rest[0]
    ensures Under(Directory(node), scopeKey + "/" + rest[0])
    ensures Under(scopeKey + "/" + rest[0], scopeKey)
  {
    UnderHead(scopeKey, rest);
    var directory := Directory(node);
    assert directory[..|scopeKey| + 1] == scopeKey + "/";
    assert directory[|scopeKey| + 1..] == Join(rest);
    SegmentsOfJoin(rest);
  }

  /**
   The domain of a node inside a directory scope is the scope itself exactly when the node sits directly in
   it; otherwise it is the scope and one more segment. Either way the node's directory is that key or below it.
   */
  lemma DomainKeyInScope(node: Node, scopeKey: string)
    requires scopeKey != "" && scopeKey != ROOT_KEY && Under(Directory(node), scopeKey)
    ensures var key := RawDomainKey(node, scopeKey);
            && (key == scopeKey <==> Directory(node) == scopeKey)
            && (key != scopeKey ==> exists child :: IsSegment(child) && key == scopeKey + "/" + child)
            && Under(Directory(node), key)
            && Under(key, scopeKey)
  {
    var parts, k := ScopeIsPrefix(node, scopeKey);
    if k == |parts| {
      assert !StartsWith(Directory(node), scopeKey + "/");
      assert Segments("") == [] by { SegmentsOfJoin([]); }
    } else {
      var rest := parts[k..];
      assert AreSegments(rest) by {
        forall p | p in rest ensures IsSegment(p) { assert p in parts; }
      }
      KeyBelowScope(node, scopeKey, rest);
      assert IsSegment(rest[0]);
    }
  }

  /** Of the whole repository: the domain is the first segment of the directory, or the root key. */
  lemma DomainKeyOfRoot(node: Node)
    ensures var parts := NodeDirectoryParts(node.filePath, node.kind);
            RawDomainKey(node, ROOT_KEY) == if parts == [] then ROOT_KEY else parts[0]
  {
    var parts := NodeDirectoryParts(node.filePath, node.kind);
    DirectoryPartsAreSegments(node.filePath, node.kind);
    SegmentsOfJoin(parts);
  }

  /** Membership in the subtree of a domain implies membership in the scope the domain belongs to. */
  lemma ChildImpliesScope(node: Node, scopeKey: string, child: string)
    requires Under(Directory(node), scopeKey + "/" + child)
    ensures Under(Directory(node), scopeKey)
  {
    var key := scopeKey + "/" + child;
    assert key[..|scopeKey| + 1] == scopeKey + "/";
    assert Under(key, scopeKey);
    UnderTransitive(Directory(node), key, scopeKey);
  }

  lemma RootKeyHasNoSlash(scopeKey: string, key: string)
    requires scopeKey != ROOT_KEY && Under(key, scopeKey)
    ensures key != ROOT_KEY
  {
    if key != scopeKey {
      assert key[|scopeKey|] == (scopeKey + "/")[|scopeKey|] == '/';
    }
  }

  lemma AboveHasNo(c: char, directory: string, key: string)
    requires c !in directory && Under(directory, key)
    ensures c !in key
  {
    assert key <= directory;
    forall i | 0 <= i < |key| ensures key[i] != c {
      assert key[i] == directory[i] && directory[i] in directory;
    }
  }

  lemma {:induction false} SegmentsHaveNo(c: char, s: string)
    requires c !in s
    ensures forall p | p in Segments(s) :: c !in p
    decreases |s|
  {
    var k := IndexOfSlash(s);
    var head := s[..k];
    assert s == head + s[k..];
    if k < |s| {
      assert s == s[..k + 1] + s[k + 1..];
      SegmentsHaveNo(c, s[k + 1..]);
      assert Segments(s) == (if head == "" then [] else [head]) + Segments(s[k + 1..]);
    } else {
      assert head == s;
      assert Split(s) == [s] && [s][1..] == [];
      assert NonEmpty([s]) == (if s == "" then [] else [s]) + NonEmpty([s][1..]);
    }
  }

  lemma {:induction false} JoinHasNo(c: char, parts: seq<string>)
    requires c != '/' && forall p | p in parts :: c !in p
    ensures c !in Join(parts)
  {
    if parts != [] {
      assert parts[0] in parts && forall p | p in parts[1..] :: p in parts;
      JoinHasNo(c, parts[1..]);
    }
  }

  /** A character that is not in a node's normalised path is not in its directory either. */
  lemma DirectoryHasNo(c: char, node: Node)
    requires c != '/' && c !in NormalizeGraphPath(node.filePath)
    ensures c !in Directory(node)
  {
    var path := NormalizeGraphPath(node.filePath);
    SegmentsHaveNo(c, path);
    assert forall p | p in NodeDirectoryParts(node.filePath, node.kind) :: p in Segments(path);
    JoinHasNo(c, NodeDirectoryParts(node.filePath, node.kind));
  }

  lemma DirectoryNoBackslash(node: Node)
    ensures '\\' !in Directory(node)
  {
    NormalizedIsNormal(node.filePath);
    DirectoryHasNo('\\', node);
  }

  /** The domain key is itself in normal form. */
  lemma KeyNormal(node: Node, rawScopeKey: string)
    requires ScopeKey(rawScopeKey) != ROOT_KEY
    requires Under(Directory(node), ScopeKey(rawScopeKey))
    ensures Normal(RawDomainKey(node, ScopeKey(rawScopeKey)))
  {
    var scopeKey := ScopeKey(rawScopeKey);
    NormalizedIsNormal(Some(rawScopeKey));
    DomainKeyInScope(node, scopeKey);
    var key := RawDomainKey(node, scopeKey);
    if key != scopeKey {
      var child :| IsSegment(child) && key == scopeKey + "/" + child;
      assert child[|child| - 1] in child;
      assert key[0] == scopeKey[0] && key[|key| - 1] == child[|child| - 1];
      DirectoryNoBackslash(node);
      AboveHasNo('\\', Directory(node), key);
    }
  }

  lemma {:induction false} StripShortens(s: string)
    ensures |StripLeading(s)| <= |s| && |StripTrailing(s)| <= |s|
  {
    if s != "" {
      StripShortens(s[1..]);
      StripShortens(s[..|s| - 1]);
    }
  }

  lemma NormalizedShorter(key: string)
    requires DrivePrefixed(key)
    ensures |NormalizeGraphPath(Some(key))| < |key|
  {
    var s := StripDrive(ForwardSlashes(key));
    StripShortens(s);
    StripShortens(StripLeading(s));
  }

  /**
   The membership test normalises the key it is given once more, so handing it the node's own domain key
   succeeds exactly when the key's normal form still lies above the key. That is so for every key that does
   not look like a drive path.
   */
  lemma OwnDomainBelongs(node: Node, rawScopeKey: string)
    requires ScopeKey(rawScopeKey) != ROOT_KEY
    requires GraphNodeBelongsToDirectory(node.filePath, node.kind, rawScopeKey)
    ensures var key := RawDomainKey(node, ScopeKey(rawScopeKey));
            var again := NormalizeGraphPath(Some(key));
            && (GraphNodeBelongsToDirectory(node.filePath, node.kind, key)
                <==> again != "" && again != ROOT_KEY && Under(key, again))
            && (!DrivePrefixed(key) ==> GraphNodeBelongsToDirectory(node.filePath, node.kind, key))
  {
    var scopeKey := ScopeKey(rawScopeKey);
    var key := RawDomainKey(node, scopeKey);
    var again := NormalizeGraphPath(Some(key));
    var directory := Directory(node);
    NormalizedIsNormal(Some(rawScopeKey));
    DomainKeyInScope(node, scopeKey);
    assert directory != "";
    KeyNormal(node, rawScopeKey);
    if !DrivePrefixed(key) {
      NormalStays(key);
      assert key != ROOT_KEY by { RootKeyHasNoSlash(scopeKey, key); }
    } else {
      NormalizedShorter(key);
      if Under(key, again) {
        UnderTransitive(directory, key, again);
      }
      if again != "" && Under(directory, again) {
        UnderShorter(directory, key, again);
      }
    }
  }

  lemma {:induction false} StripHasNo(c: char, s: string)
    requires c !in s
    ensures c !in StripLeading(s) && c !in StripTrailing(s)
  {
    if s != "" {
      StripHasNo(c, s[1..]);
      StripHasNo(c, s[..|s| - 1]);
    }
  }

  /** Normalisation brings in no character but slashes. */
  lemma NormalizedHasNo(c: char, filePath: Option<string>)
    requires c != '/' && (filePath.Some? ==> c !in filePath.value)
    ensures c !in NormalizeGraphPath(filePath)
  {
    if filePath.Some? {
      var slashed := ForwardSlashes(filePath.value);
      forall i | 0 <= i < |slashed| ensures slashed[i] != c {
        assert filePath.value[i] in filePath.value;
      }
      var s := StripDrive(slashed);
      StripHasNo(c, s);
      StripHasNo(c, StripLeading(s));
    }
  }

  /** A domain key is made of characters of the node's path and of the scope. */
  lemma DomainKeyHasNo(c: char, node: Node, scopeKey: string)
    requires c != '/' && c !in scopeKey && (node.filePath.Some? ==> c !in node.filePath.value)
    ensures c !in RawDomainKey(node, scopeKey)
  {
    NormalizedHasNo(c, node.filePath);
    DirectoryHasNo(c, node);
    var directory := Directory(node);
    var scopePrefix := if scopeKey == ROOT_KEY then "" else scopeKey;
    SegmentsHaveNo(c, directory);
    SegmentsHaveNo(c, "");
    if |scopePrefix| > 0 && StartsWith(directory, scopePrefix + "/") {
      SegmentsHaveNo(c, directory[|scopePrefix| + 1..]);
    }
  }

  lemma DriveLikePath()
    ensures NormalizeGraphPath(Some("/C:/a")) == "C:/a" && NormalizeGraphPath(Some("C:/a")) == "a"
  {
    assert ForwardSlashes("/C:/a") == "/C:/a";
    assert ForwardSlashes("C:/a") == "C:/a";
    assert StripLeading("/C:/a") == "C:/a" by { assert "/C:/a"[1..] == "C:/a"; }
    assert "C:/a"[3..] == "a";
  }

  lemma DriveLikeDirectory()
    ensures Directory(Node(1, "Folder", Some("/C:/a"))) == "C:/a"
  {
    DriveLikePath();
    assert "C:/a" == Join(["C:", "a"]);
    SegmentsOfJoin(["C:", "a"]);
  }

  /** The second normalisation does matter: a node of the scope `/C:/a` is not found under its own domain key. */
  lemma DriveLikeScopeEscapes()
    ensures var node := Node(1, "Folder", Some("/C:/a"));
            && ScopeKey("/C:/a") == "C:/a"
            && GraphNodeBelongsToDirectory(node.filePath, node.kind, "/C:/a")
            && RawDomainKey(node, ScopeKey("/C:/a")) == "C:/a"
            && !GraphNodeBelongsToDirectory(node.filePath, node.kind, "C:/a")
  {
    DriveLikePath();
    DriveLikeDirectory();
    DomainKeyInScope(Node(1, "Folder", Some("/C:/a")), "C:/a");
  }

  // ----- files

  /** Nodes share a file key exactly when they have the same path, or neither has one and their labels are the same. */
  lemma FileKeysApart(a: Node, b: Node)
    requires !StartsWith(NormalizeGraphPath(a.filePath), "(virtual)/")
    requires !StartsWith(NormalizeGraphPath(b.filePath), "(virtual)/")
    ensures FileKey(a) == FileKey(b)
       <==> NormalizeGraphPath(a.filePath) == NormalizeGraphPath(b.filePath)
            && (NormalizeGraphPath(a.filePath) == "" ==> a.kind == b.kind)
  {
    var p, q := NormalizeGraphPath(a.filePath), NormalizeGraphPath(b.filePath);
    assert StartsWith("(virtual)/" + a.kind, "(virtual)/") && StartsWith("(virtual)/" + b.kind, "(virtual)/");
    assert ("(virtual)/" + a.kind)[10..] == a.kind && ("(virtual)/" + b.kind)[10..] == b.kind;
  }
}
