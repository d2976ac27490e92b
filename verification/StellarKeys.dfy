/** The string keys of the focused layout: written with colons, and read back. */
module StellarKeys {
  import opened GraphScope
  import opened Options
  import opened StellarTargets

  datatype GraphNode = GraphNode(id: int, kind: string, filePath: Option<string>, clusterId: Option<int>, degree: nat)

  // ----- numbers as text

  function Digit(d: nat): (c: char)
    requires d < 10
    ensures '0' <= c <= '9' && (c - '0') as nat == d
  {
    '0' + d as char
  }

  function Digits(n: nat): (s: string)
    ensures s != "" && forall i | 0 <= i < |s| :: '0' <= s[i] <= '9'
  {
    if n < 10 then [Digit(n)] else Digits(n / 10) + [Digit(n % 10)]
  }

  function IntText(i: int): string { if i < 0 then "-" + Digits(-i) else Digits(i) }

  /** `Number(text)` of a run of digits. */
  function ToNat(s: string): nat
    requires forall i | 0 <= i < |s| :: '0' <= s[i] <= '9'
  {
    if s == "" then 0 else 10 * ToNat(s[..|s| - 1]) + (s[|s| - 1] - '0') as nat
  }

  lemma {:induction false} DigitsRoundTrip(n: nat)
    ensures ToNat(Digits(n)) == n
  {
    if n < 10 {
      assert Digits(n)[..0] == "";
    } else {
      DigitsRoundTrip(n / 10);
      assert Digits(n)[..|Digits(n)| - 1] == Digits(n / 10);
    }
  }

  // ----- colons

  function IndexOfColon(s: string, from: nat): (k: nat)
    requires from <= |s|
    ensures from <= k <= |s|
    ensures k < |s| ==> s[k] == ':'
    ensures forall i | from <= i < k :: s[i] != ':'
    decreases |s| - from
  {
    if from == |s| || s[from] == ':' then from else IndexOfColon(s, from + 1)
  }

  lemma ColonAfter(head: string, tail: string, from: nat)
    requires from <= |head| && forall i | from <= i < |head| :: head[i] != ':'
    ensures IndexOfColon(head + ":" + tail, from) == |head|
  {
    var s := head + ":" + tail;
    assert s[|head|] == ':';
    assert forall i | from <= i < |head| :: s[i] == head[i];
  }

  // ----- roles and keys

  predicate Directed(role: Role) { role == Incoming || role == Outgoing || role == Bidirectional }

  function RoleName(role: Role): (s: string)
    ensures forall i | 0 <= i < |s| :: s[i] != ':'
  {
    match role
    case Focus => "focus"
    case Incoming => "incoming"
    case Outgoing => "outgoing"
    case Bidirectional => "bidirectional"
    case Hub => "hub"
    case Context => "context"
  }

  function RoleNamed(name: string): Role {
    if name == "incoming" then Incoming
    else if name == "outgoing" then Outgoing
    else if name == "bidirectional" then Bidirectional
    else if name == "focus" then Focus
    else if name == "hub" then Hub
    else Context
  }

  lemma RoleNameRoundTrip(role: Role)
    ensures RoleNamed(RoleName(role)) == role
  {
    assert "incoming"[0] == 'i' && "outgoing"[0] == 'o' && "bidirectional"[0] == 'b';
    assert "focus"[0] == 'f' && "hub"[0] == 'h' && "context"[0] == 'c';
  }

  function LayerKey(role: Role, depth: nat): string { RoleName(role) + ":" + Digits(depth) }

  function ModuleKey(role: Role, depth: nat, laneKey: string): string { LayerKey(role, depth) + ":" + laneKey }

  /** The role part of a layer key. */
  function KeyRole(key: string): Role { RoleNamed(key[..IndexOfColon(key, 0)]) }

  /** The depth part of a layer key. */
  function KeyDepth(key: string): nat {
    var k := IndexOfColon(key, 0);
    var rest := if k < |key| then key[k + 1..] else "";
    if forall i | 0 <= i < |rest| :: '0' <= rest[i] <= '9' then ToNat(rest) else 0
  }

  /** A layer key says its role and depth. */
  lemma LayerKeyRoundTrip(role: Role, depth: nat)
    ensures KeyRole(LayerKey(role, depth)) == role && KeyDepth(LayerKey(role, depth)) == depth
  {
    var key := LayerKey(role, depth);
    ColonAfter(RoleName(role), Digits(depth), 0);
    assert key[..|RoleName(role)|] == RoleName(role);
    assert key[|RoleName(role)| + 1..] == Digits(depth);
    RoleNameRoundTrip(role);
    DigitsRoundTrip(depth);
  }

  /** What follows the second colon. */
  function LaneOfModuleKey(key: string): string {
    var first := IndexOfColon(key, 0);
    var second := if first < |key| then IndexOfColon(key, first + 1) else |key|;
    if second < |key| then key[second + 1..] else ""
  }

  /** A module key gives its lane key back, whatever colons that contains. */
  lemma ModuleKeyRoundTrip(role: Role, depth: nat, laneKey: string)
    ensures LaneOfModuleKey(ModuleKey(role, depth, laneKey)) == laneKey
  {
    var key := ModuleKey(role, depth, laneKey);
    var layer := LayerKey(role, depth);
    var tail := Digits(depth) + ":" + laneKey;
    assert key == RoleName(role) + ":" + tail;
    ColonAfter(RoleName(role), tail, 0);
    assert forall i | |RoleName(role)| + 1 <= i < |layer| :: layer[i] == Digits(depth)[i - |RoleName(role)| - 1];
    ColonAfter(layer, laneKey, |RoleName(role)| + 1);
    assert key[|layer| + 1..] == laneKey;
  }

  lemma SamePrefix(a: string, b: string, mark: string, tail: string)
    requires a + mark + tail == b + mark + tail
    ensures a == b
  {
    var whole := a + mark + tail;
    assert |a| == |b|;
    assert whole[..|a|] == a && whole[..|b|] == b;
  }

  /** Equal module keys come from equal roles, depths and lanes. */
  lemma ModuleKeyInjective(role: Role, depth: nat, laneKey: string, role': Role, depth': nat, laneKey': string)
    requires ModuleKey(role, depth, laneKey) == ModuleKey(role', depth', laneKey')
    ensures role == role' && depth == depth' && laneKey == laneKey'
  {
    ModuleKeyRoundTrip(role, depth, laneKey);
    ModuleKeyRoundTrip(role', depth', laneKey');
    SamePrefix(LayerKey(role, depth), LayerKey(role', depth'), ":", laneKey);
    LayerKeyRoundTrip(role, depth);
    LayerKeyRoundTrip(role', depth');
  }

  // ----- the keys of a node

  function PathParts(node: GraphNode): seq<string> {
    match node.filePath
    case None => []
    case Some(p) => Segments(ForwardSlashes(p))
  }

  /** The top-level directory or file of the node's path. */
  function RawConstellationKey(node: GraphNode): string {
    var parts := PathParts(node);
    if parts == [] then "unmapped" else parts[0]
  }

  function ConstellationGroupKey(node: GraphNode): string {
    match node.clusterId
    case Some(c) => "cluster:" + IntText(c)
    case None => "type:" + node.kind
  }

  function FlowLaneKey(node: GraphNode): string {
    var parts := PathParts(node);
    if |parts| == 0 then node.kind
    else if |parts| == 1 then parts[0]
    else Join(parts[..if |parts| - 1 < 3 then |parts| - 1 else 3])
  }

  /** A node with a label has a lane. */
  lemma FlowLaneNonEmpty(node: GraphNode)
    ensures FlowLaneKey(node) == "" <==> PathParts(node) == [] && node.kind == ""
  {
    if node.filePath.Some? && PathParts(node) != [] {
      var parts := PathParts(node);
      SegmentsAreSegments(ForwardSlashes(node.filePath.value));
      assert parts[0] in parts;
      assert IsSegment(parts[0]);
    }
  }
}
