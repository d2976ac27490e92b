/** The rails and module labels beside a focused layout: targets counted per layer and per lane of a layer. */
module StellarLanes {
  import opened Counting
  import opened Numbers
  import opened Options
  import opened Sorting
  import opened StellarKeys
  import opened StellarTargets

  /** The running summary of one key. */
  datatype Lane = Lane(role: Role, depth: nat, count: nat, sumX: real, minY: real, maxY: real)

  datatype LaneSummary = LaneSummary(role: Role, depth: nat, count: nat, x: real, minY: real, maxY: real)

  datatype ModuleSummary = ModuleSummary(lane: LaneSummary, laneKey: string)

  // ----- keys

  /** What a key stands for; layers have no lane. */
  datatype LaneId = LaneId(role: Role, depth: nat, lane: Option<string>)

  function LaneText(id: LaneId): string {
    match id.lane
    case None => LayerKey(id.role, id.depth)
    case Some(lane) => ModuleKey(id.role, id.depth, lane)
  }

  /** How keys are spelled, and how the lane is read back from one. */
  datatype Spelling = Spelling(text: LaneId -> string, lane: string -> string) {
    function Text(id: LaneId): string { text(id) }

    function Lane(key: string): string { lane(key) }

    ghost predicate Lawful() {
      && (forall a: LaneId, b: LaneId :: a.lane.Some? == b.lane.Some? && Text(a) == Text(b) ==> a == b)
      && (forall id: LaneId | id.lane.Some? :: Lane(Text(id)) == id.lane.value)
    }
  }

  /** Role, depth and lane joined by colons. */
  function Colons(): Spelling { Spelling(id => LaneText(id), key => LaneOfModuleKey(key)) }

  lemma SameTextSameId(a: LaneId, b: LaneId)
    requires a.lane.Some? == b.lane.Some? && LaneText(a) == LaneText(b)
    ensures a == b
  {
    if a.lane.None? {
      LayerKeyRoundTrip(a.role, a.depth);
      LayerKeyRoundTrip(b.role, b.depth);
    } else {
      ModuleKeyInjective(a.role, a.depth, a.lane.value, b.role, b.depth, b.lane.value);
    }
  }

  /** Colons in a lane do no harm: keys stay apart and the lane is read back whole. */
  lemma ColonsLawful()
    ensures Colons().Lawful()
  {
    forall a: LaneId, b: LaneId | a.lane.Some? == b.lane.Some? && Colons().Text(a) == Colons().Text(b) ensures a == b {
      SameTextSameId(a, b);
    }
    forall id: LaneId | id.lane.Some? ensures Colons().Lane(Colons().Text(id)) == id.lane.value {
      ModuleKeyRoundTrip(id.role, id.depth, id.lane.value);
    }
  }

  // ----- groups

  datatype Grouping = ByLayer | ByModule

  predicate Counted(t: Target) { t.depth.Some? && Directed(t.role) }

  /** Layers take every directed target, modules those with a label. */
  predicate InGroups(g: Grouping, t: Target) {
    Counted(t) && (g == ByModule ==> t.laneKey.Some? && t.laneKey.value != "")
  }

  function IdIn(g: Grouping, t: Target): LaneId
    requires InGroups(g, t)
  {
    LaneId(t.role, t.depth.value, if g == ByModule then t.laneKey else None)
  }

  /** The targets of one layer or module. */
  function Members(g: Grouping, targets: seq<Target>, id: LaneId): (r: seq<Target>)
    ensures forall t :: t in r <==> t in targets && InGroups(g, t) && IdIn(g, t) == id
  {
    if targets == [] then []
    else
      var before, last := targets[..|targets| - 1], targets[|targets| - 1];
      assert targets == before + [last];
      Members(g, before, id) + if InGroups(g, last) && IdIn(g, last) == id then [last] else []
  }

  function SumX(targets: seq<Target>): real {
    if targets == [] then 0.0 else SumX(targets[..|targets| - 1]) + targets[|targets| - 1].x
  }

  function LowestY(targets: seq<Target>): real
    requires targets != []
  {
    var last := targets[|targets| - 1].y;
    if |targets| == 1 then last else Min(LowestY(targets[..|targets| - 1]), last)
  }

  function HighestY(targets: seq<Target>): real
    requires targets != []
  {
    var last := targets[|targets| - 1].y;
    if |targets| == 1 then last else Max(HighestY(targets[..|targets| - 1]), last)
  }

  /** The extent of a group reaches from its lowest member to its highest. */
  lemma {:induction false} ExtentIsTight(targets: seq<Target>)
    requires targets != []
    ensures forall t | t in targets :: LowestY(targets) <= t.y <= HighestY(targets)
    ensures exists t :: t in targets && t.y == LowestY(targets)
    ensures exists t :: t in targets && t.y == HighestY(targets)
  {
    var before, last := targets[..|targets| - 1], targets[|targets| - 1];
    assert targets == before + [last];
    assert last in targets;
    if |targets| > 1 {
      ExtentIsTight(before);
      var low :| low in before && low.y == LowestY(before);
      var high :| high in before && high.y == HighestY(before);
      assert low in targets && high in targets;
    }
  }

  /** `lane` sums up the targets. */
  ghost predicate IsLane(lane: Lane, members: seq<Target>) {
    && lane.count == |members| > 0
    && lane.sumX == SumX(members)
    && lane.minY == LowestY(members) && lane.maxY == HighestY(members)
  }

  function IdOf(sp: Spelling, g: Grouping, key: string, lane: Lane): LaneId {
    LaneId(lane.role, lane.depth, if g == ByModule then Some(sp.Lane(key)) else None)
  }

  /** The map holds the summary of every non-empty group under the group's key. */
  ghost predicate AreLanes(sp: Spelling, g: Grouping, lanes: map<string, Lane>, targets: seq<Target>) {
    && (forall k | k in lanes :: sp.Text(IdOf(sp, g, k, lanes[k])) == k)
    && (forall k | k in lanes :: IsLane(lanes[k], Members(g, targets, IdOf(sp, g, k, lanes[k]))))
    && (forall t | t in targets && InGroups(g, t) :: sp.Text(IdIn(g, t)) in lanes)
  }

  function AddLaneTarget(lanes: map<string, Lane>, key: string, t: Target): map<string, Lane>
    requires t.depth.Some?
  {
    if key in lanes then
      var c := lanes[key];
      lanes[key := c.(count := c.count + 1, sumX := c.sumX + t.x, minY := Min(c.minY, t.y), maxY := Max(c.maxY, t.y))]
    else
      lanes[key := Lane(t.role, t.depth.value, 1, t.x, t.y, t.y)]
  }

  lemma OneMoreInLane(lane: Lane, members: seq<Target>, t: Target)
    requires IsLane(lane, members)
    ensures IsLane(lane.(count := lane.count + 1, sumX := lane.sumX + t.x, minY := Min(lane.minY, t.y),
                   maxY := Max(lane.maxY, t.y)),
                   members + [t])
  {
    var more := members + [t];
    assert more[..|more| - 1] == members;
  }

  lemma FirstInLane(t: Target)
    requires t.depth.Some?
    ensures IsLane(Lane(t.role, t.depth.value, 1, t.x, t.y, t.y), [t])
  {
    assert [t][..0] == [];
  }

  lemma OtherLaneKept(g: Grouping, targets: seq<Target>, t: Target, id: LaneId)
    requires InGroups(g, t) ==> IdIn(g, t) != id
    ensures Members(g, targets + [t], id) == Members(g, targets, id)
  {
    assert (targets + [t])[..|targets|] == targets;
  }

  lemma SameLaneGrows(g: Grouping, targets: seq<Target>, t: Target)
    requires InGroups(g, t)
    ensures Members(g, targets + [t], IdIn(g, t)) == Members(g, targets, IdIn(g, t)) + [t]
  {
    assert (targets + [t])[..|targets|] == targets;
  }

  /** A group with members has its key. */
  lemma KeyOfGroup(sp: Spelling, g: Grouping, lanes: map<string, Lane>, targets: seq<Target>, id: LaneId)
    requires AreLanes(sp, g, lanes, targets) && Members(g, targets, id) != []
    ensures sp.Text(id) in lanes
  {
    var s := Members(g, targets, id)[0];
    assert s in Members(g, targets, id);
    assert s in targets && InGroups(g, s);
  }

  lemma KeyTellsId(sp: Spelling, g: Grouping, lanes: map<string, Lane>, targets: seq<Target>, id: LaneId)
    requires sp.Lawful() && AreLanes(sp, g, lanes, targets) && sp.Text(id) in lanes
    requires id.lane.Some? == (g == ByModule)
    ensures IdOf(sp, g, sp.Text(id), lanes[sp.Text(id)]) == id
    ensures IsLane(lanes[sp.Text(id)], Members(g, targets, id))
  {
    assert sp.Text(IdOf(sp, g, sp.Text(id), lanes[sp.Text(id)])) == sp.Text(id);
  }

  /** The summary under the new target's own key. */
  lemma OwnLane(sp: Spelling, g: Grouping, lanes: map<string, Lane>, targets: seq<Target>, t: Target)
    requires sp.Lawful() && AreLanes(sp, g, lanes, targets) && InGroups(g, t)
    ensures var key := sp.Text(IdIn(g, t));
            var lane := AddLaneTarget(lanes, key, t)[key];
            IdOf(sp, g, key, lane) == IdIn(g, t) && IsLane(lane, Members(g, targets + [t], IdIn(g, t)))
  {
    var id := IdIn(g, t);
    var key := sp.Text(id);
    SameLaneGrows(g, targets, t);
    if key in lanes {
      KeyTellsId(sp, g, lanes, targets, id);
      OneMoreInLane(lanes[key], Members(g, targets, id), t);
    } else {
      if Members(g, targets, id) != [] {
        KeyOfGroup(sp, g, lanes, targets, id);
      }
      FirstInLane(t);
    }
  }

  lemma LanesKept(sp: Spelling, g: Grouping, lanes: map<string, Lane>, targets: seq<Target>, t: Target, k: string)
    requires AreLanes(sp, g, lanes, targets) && k in lanes
    requires InGroups(g, t) ==> k != sp.Text(IdIn(g, t))
    ensures IsLane(lanes[k], Members(g, targets + [t], IdOf(sp, g, k, lanes[k])))
  {
    OtherLaneKept(g, targets, t, IdOf(sp, g, k, lanes[k]));
  }

  function WithTarget(sp: Spelling, g: Grouping, lanes: map<string, Lane>, t: Target): map<string, Lane> {
    if InGroups(g, t) then AddLaneTarget(lanes, sp.Text(IdIn(g, t)), t) else lanes
  }

  /** Any lane after the step. */
  lemma LaneAfter(sp: Spelling, g: Grouping, lanes: map<string, Lane>, targets: seq<Target>, t: Target, k: string)
    requires sp.Lawful() && AreLanes(sp, g, lanes, targets) && k in WithTarget(sp, g, lanes, t)
    ensures var lane := WithTarget(sp, g, lanes, t)[k];
            sp.Text(IdOf(sp, g, k, lane)) == k && IsLane(lane, Members(g, targets + [t], IdOf(sp, g, k, lane)))
  {
    if InGroups(g, t) && k == sp.Text(IdIn(g, t)) {
      OwnLane(sp, g, lanes, targets, t);
    } else {
      LanesKept(sp, g, lanes, targets, t, k);
    }
  }

  lemma LaneAdded(sp: Spelling, g: Grouping, lanes: map<string, Lane>, targets: seq<Target>, t: Target)
    requires sp.Lawful() && AreLanes(sp, g, lanes, targets)
    ensures AreLanes(sp, g, WithTarget(sp, g, lanes, t), targets + [t])
  {
    var after := WithTarget(sp, g, lanes, t);
    forall k | k in after
      ensures sp.Text(IdOf(sp, g, k, after[k])) == k
      ensures IsLane(after[k], Members(g, targets + [t], IdOf(sp, g, k, after[k])))
    {
      LaneAfter(sp, g, lanes, targets, t, k);
    }
    forall s | s in targets + [t] && InGroups(g, s) ensures sp.Text(IdIn(g, s)) in after {
      assert s in targets || s == t;
    }
  }

  /** The loop over the targets. */
  method CollectLanes(sp: Spelling, targets: seq<Target>)
    returns (layerMap: map<string, Lane>, moduleMap: map<string, Lane>)
    requires sp.Lawful()
    ensures AreLanes(sp, ByLayer, layerMap, targets) && AreLanes(sp, ByModule, moduleMap, targets)
  {
    layerMap, moduleMap := map[], map[];
    for i := 0 to |targets|
      invariant AreLanes(sp, ByLayer, layerMap, targets[..i]) && AreLanes(sp, ByModule, moduleMap, targets[..i])
    {
      var target := targets[i];
      PrefixGrows(targets, i);
      LaneAdded(sp, ByLayer, layerMap, targets[..i], target);
      LaneAdded(sp, ByModule, moduleMap, targets[..i], target);
      if Counted(target) {
        layerMap := AddLaneTarget(layerMap, sp.Text(IdIn(ByLayer, target)), target);
        if target.laneKey.Some? && target.laneKey.value != "" {
          moduleMap := AddLaneTarget(moduleMap, sp.Text(IdIn(ByModule, target)), target);
        }
      }
    }
    assert targets[..|targets|] == targets;
  }

  // ----- the lists

  datatype Entry = Entry(key: string, lane: Lane)

  /** The entries of the map, each once. */
  ghost predicate AreEntries(entries: seq<Entry>, lanes: map<string, Lane>) {
    && (forall i, j | 0 <= i < j < |entries| :: entries[i].key != entries[j].key)
    && (forall e | e in entries :: e.key in lanes && e.lane == lanes[e.key])
    && (forall k | k in lanes :: Entry(k, lanes[k]) in entries)
  }

  method ListEntries(lanes: map<string, Lane>) returns (entries: seq<Entry>)
    ensures AreEntries(entries, lanes)
  {
    entries := [];
    var rest := lanes.Keys;
    while rest != {}
      invariant rest <= lanes.Keys
      invariant forall i, j | 0 <= i < j < |entries| :: entries[i].key != entries[j].key
      invariant forall e | e in entries :: e.key in lanes && e.key !in rest && e.lane == lanes[e.key]
      invariant forall k | k in lanes && k !in rest :: Entry(k, lanes[k]) in entries
    {
      var k :| k in rest;
      entries := entries + [Entry(k, lanes[k])];
      rest := rest - {k};
    }
  }

  lemma EntriesPermuted(s: seq<Entry>, t: seq<Entry>, lanes: map<string, Lane>)
    requires AreEntries(s, lanes) && multiset(s) == multiset(t)
    ensures AreEntries(t, lanes)
  {
    SameElements(s, t);
    forall i, j | 0 <= i < j < |s| ensures s[i] != s[j] {
      assert s[i].key != s[j].key;
    }
    DistinctPermutation(s, t);
    forall i, j | 0 <= i < j < |t| ensures t[i].key != t[j].key {
      assert t[i] in s && t[j] in s && t[i] != t[j];
    }
  }

  function RoleOrder(role: Role): nat {
    match role
    case Incoming => 0
    case Bidirectional => 1
    case _ => 2
  }

  /** By depth, and incoming, bidirectional, outgoing at one depth; `tie` decides between equals. */
  predicate LaneLeq(a: Lane, b: Lane, tie: bool) {
    a.depth < b.depth
    || (a.depth == b.depth
        && (RoleOrder(a.role) < RoleOrder(b.role) || (RoleOrder(a.role) == RoleOrder(b.role) && tie)))
  }

  function Finish(lane: Lane): LaneSummary
    requires lane.count > 0
  {
    LaneSummary(lane.role, lane.depth, lane.count, lane.sumX / lane.count as real, lane.minY, lane.maxY)
  }

  /** A summary tells the size, the mean position and the vertical extent of the targets. */
  ghost predicate Summarizes(s: LaneSummary, members: seq<Target>) {
    && s.count == |members| > 0
    && Scaled(s.x, s.count as real) == SumX(members)
    && s.minY == LowestY(members) && s.maxY == HighestY(members)
  }

  lemma MeanTimesCount(sum: real, count: real)
    requires count > 0.0
    ensures Scaled(sum / count, count) == sum
  {
    assert (sum / count) * count == sum;
  }

  lemma FinishSummarizes(lane: Lane, members: seq<Target>)
    requires IsLane(lane, members)
    ensures Summarizes(Finish(lane), members)
  {
    MeanTimesCount(lane.sumX, lane.count as real);
  }

  function FinishAll(entries: seq<Entry>): (r: seq<LaneSummary>)
    requires forall e | e in entries :: e.lane.count > 0
    ensures |r| == |entries| && forall i | 0 <= i < |r| :: r[i] == Finish(entries[i].lane)
  {
    seq(|entries|, i requires 0 <= i < |entries| => Finish(entries[i].lane))
  }

  function FinishModules(sp: Spelling, entries: seq<Entry>): (r: seq<ModuleSummary>)
    requires forall e | e in entries :: e.lane.count > 0
    ensures |r| == |entries|
    ensures forall i | 0 <= i < |r| :: r[i] == ModuleSummary(Finish(entries[i].lane), sp.Lane(entries[i].key))
  {
    seq(|entries|, i requires 0 <= i < |entries| => ModuleSummary(Finish(entries[i].lane), sp.Lane(entries[i].key)))
  }

  // ----- what the lists say

  function LayerId(s: LaneSummary): LaneId { LaneId(s.role, s.depth, None) }

  function ModuleId(s: ModuleSummary): LaneId { LaneId(s.lane.role, s.lane.depth, Some(s.laneKey)) }

  predicate Above(a: LaneSummary, b: LaneSummary) {
    a.depth < b.depth || (a.depth == b.depth && RoleOrder(a.role) < RoleOrder(b.role))
  }

  /** The layers are the non-empty combinations of role and depth, in rail order, each summed up. */
  ghost predicate AreLayerSummaries(layers: seq<LaneSummary>, targets: seq<Target>) {
    && (forall s | s in layers :: Directed(s.role) && Summarizes(s, Members(ByLayer, targets, LayerId(s))))
    && (forall t | t in targets && InGroups(ByLayer, t) :: exists s :: s in layers && LayerId(s) == IdIn(ByLayer, t))
    && (forall i, j | 0 <= i < j < |layers| :: Above(layers[i], layers[j]))
  }

  /** The modules are the non-empty combinations of role, depth and lane, each summed up. */
  ghost predicate AreModuleSummaries(modules: seq<ModuleSummary>, targets: seq<Target>) {
    && (forall s | s in modules :: Directed(s.lane.role) && Summarizes(s.lane, Members(ByModule, targets, ModuleId(s))))
    && (forall t | t in targets && InGroups(ByModule, t) ::
          exists s :: s in modules && ModuleId(s) == IdIn(ByModule, t))
    && (forall i, j | 0 <= i < j < |modules| :: ModuleId(modules[i]) != ModuleId(modules[j]))
  }

  predicate ModuleBefore(compare: (string, string) -> int, a: Entry, b: Entry) {
    LaneLeq(a.lane, b.lane, compare(a.key, b.key) <= 0)
  }

  function ModuleOrder(compare: (string, string) -> int): (Entry, Entry) -> bool {
    (a, b) => ModuleBefore(compare, a, b)
  }

  /** Modules come by depth and side, and by key within a rail. */
  ghost predicate ModulesInOrder(sp: Spelling, compare: (string, string) -> int, modules: seq<ModuleSummary>) {
    forall i, j | 0 <= i < j < |modules| ::
      Above(modules[i].lane, modules[j].lane)
      || (modules[i].lane.depth == modules[j].lane.depth
          && RoleOrder(modules[i].lane.role) == RoleOrder(modules[j].lane.role)
          && compare(sp.Text(ModuleId(modules[i])), sp.Text(ModuleId(modules[j]))) <= 0)
  }

  lemma EntriesInOrder(compare: (string, string) -> int, s: seq<Entry>)
    requires Collates(compare)
    ensures Sorted(SortBy(s, ModuleOrder(compare)), ModuleOrder(compare))
  {
    forall a, b, c | ModuleBefore(compare, a, b) && ModuleBefore(compare, b, c) ensures ModuleBefore(compare, a, c) {
      if compare(a.key, b.key) <= 0 && compare(b.key, c.key) <= 0 {
        CollateSteps(compare, a.key, b.key, c.key);
      }
    }
    forall a, b ensures ModuleBefore(compare, a, b) || ModuleBefore(compare, b, a) {
      assert compare(a.key, b.key) > 0 <==> compare(b.key, a.key) < 0;
    }
    SortBySorted(s, ModuleOrder(compare));
  }

  lemma ModulesOrdered(sp: Spelling, compare: (string, string) -> int, lanes: map<string, Lane>, targets: seq<Target>,
                       entries: seq<Entry>, modules: seq<ModuleSummary>)
    requires AreLanes(sp, ByModule, lanes, targets) && AreEntries(entries, lanes)
    requires Sorted(entries, ModuleOrder(compare)) && forall e | e in entries :: e.lane.count > 0
    requires modules == FinishModules(sp, entries)
    ensures ModulesInOrder(sp, compare, modules)
  {
    forall i | 0 <= i < |modules| ensures sp.Text(ModuleId(modules[i])) == entries[i].key {
      assert entries[i] in entries;
    }
    forall i, j | 0 <= i < j < |modules| ensures ModuleBefore(compare, entries[i], entries[j]) {
      assert ModuleOrder(compare)(entries[i], entries[j]);
    }
  }

  function IdsOfEntries(sp: Spelling, g: Grouping, entries: seq<Entry>): (r: seq<LaneId>)
    ensures |r| == |entries| && forall i | 0 <= i < |r| :: r[i] == IdOf(sp, g, entries[i].key, entries[i].lane)
  {
    seq(|entries|, i requires 0 <= i < |entries| => IdOf(sp, g, entries[i].key, entries[i].lane))
  }

  /** The entries as groups: distinct, each with the summary of its members, together all the groups there are. */
  ghost predicate AreGroups(g: Grouping, ids: seq<LaneId>, entries: seq<Entry>, targets: seq<Target>) {
    && |ids| == |entries| && Distinct(ids)
    && (forall i | 0 <= i < |ids| :: ids[i].role == entries[i].lane.role && ids[i].depth == entries[i].lane.depth)
    && (forall i | 0 <= i < |ids| :: Directed(ids[i].role) && IsLane(entries[i].lane, Members(g, targets, ids[i])))
    && (forall t | t in targets && InGroups(g, t) :: IdIn(g, t) in ids)
  }

  lemma EntryGroup(sp: Spelling, g: Grouping, lanes: map<string, Lane>, targets: seq<Target>, key: string)
    requires sp.Lawful() && AreLanes(sp, g, lanes, targets) && key in lanes
    ensures Directed(lanes[key].role) && IsLane(lanes[key], Members(g, targets, IdOf(sp, g, key, lanes[key])))
  {
    var members := Members(g, targets, IdOf(sp, g, key, lanes[key]));
    assert members[0] in members;
  }

  lemma KeyOfTarget(sp: Spelling, g: Grouping, lanes: map<string, Lane>, targets: seq<Target>, t: Target)
    requires sp.Lawful() && AreLanes(sp, g, lanes, targets) && t in targets && InGroups(g, t)
    ensures var key := sp.Text(IdIn(g, t)); key in lanes && IdOf(sp, g, key, lanes[key]) == IdIn(g, t)
  {
    var key := sp.Text(IdIn(g, t));
    assert sp.Text(IdOf(sp, g, key, lanes[key])) == key;
  }

  lemma IdOfEntry(sp: Spelling, g: Grouping, entries: seq<Entry>, e: Entry)
    requires e in entries
    ensures IdOf(sp, g, e.key, e.lane) in IdsOfEntries(sp, g, entries)
  {
    var i :| 0 <= i < |entries| && entries[i] == e;
    assert IdsOfEntries(sp, g, entries)[i] == IdOf(sp, g, e.key, e.lane);
  }

  lemma EntryOfTarget(sp: Spelling, g: Grouping, lanes: map<string, Lane>, targets: seq<Target>, entries: seq<Entry>,
                      t: Target)
    requires sp.Lawful() && AreLanes(sp, g, lanes, targets) && AreEntries(entries, lanes)
    requires t in targets && InGroups(g, t)
    ensures IdIn(g, t) in IdsOfEntries(sp, g, entries)
  {
    KeyOfTarget(sp, g, lanes, targets, t);
    var key := sp.Text(IdIn(g, t));
    IdOfEntry(sp, g, entries, Entry(key, lanes[key]));
  }

  lemma EntriesAreGroups(sp: Spelling, g: Grouping, lanes: map<string, Lane>, targets: seq<Target>, entries: seq<Entry>)
    requires sp.Lawful() && AreLanes(sp, g, lanes, targets) && AreEntries(entries, lanes)
    ensures AreGroups(g, IdsOfEntries(sp, g, entries), entries, targets)
  {
    var ids := IdsOfEntries(sp, g, entries);
    forall i | 0 <= i < |ids|
      ensures Directed(ids[i].role) && IsLane(entries[i].lane, Members(g, targets, ids[i]))
      ensures sp.Text(ids[i]) == entries[i].key
    {
      assert entries[i] in entries;
      EntryGroup(sp, g, lanes, targets, entries[i].key);
    }
    forall i, j | 0 <= i < j < |ids| ensures ids[i] != ids[j] {
      assert sp.Text(ids[i]) != sp.Text(ids[j]);
    }
    forall t | t in targets && InGroups(g, t) ensures IdIn(g, t) in ids {
      EntryOfTarget(sp, g, lanes, targets, entries, t);
    }
  }

  lemma GroupsCounted(g: Grouping, ids: seq<LaneId>, entries: seq<Entry>, targets: seq<Target>)
    requires AreGroups(g, ids, entries, targets)
    ensures forall e | e in entries :: e.lane.count > 0
  {
    forall e | e in entries ensures e.lane.count > 0 {
      var i :| 0 <= i < |entries| && entries[i] == e;
      assert IsLane(entries[i].lane, Members(g, targets, ids[i]));
    }
  }

  lemma LayersDescribed(sp: Spelling, targets: seq<Target>, entries: seq<Entry>, layers: seq<LaneSummary>)
    requires AreGroups(ByLayer, IdsOfEntries(sp, ByLayer, entries), entries, targets)
    requires forall i, j | 0 <= i < j < |entries| :: LaneLeq(entries[i].lane, entries[j].lane, true)
    requires forall e | e in entries :: e.lane.count > 0
    requires layers == FinishAll(entries)
    ensures AreLayerSummaries(layers, targets)
  {
    var ids := IdsOfEntries(sp, ByLayer, entries);
    forall i | 0 <= i < |layers|
      ensures LayerId(layers[i]) == ids[i] && Summarizes(layers[i], Members(ByLayer, targets, ids[i]))
    {
      assert entries[i] in entries;
      FinishSummarizes(entries[i].lane, Members(ByLayer, targets, ids[i]));
    }
    forall t | t in targets && InGroups(ByLayer, t) ensures exists s :: s in layers && LayerId(s) == IdIn(ByLayer, t) {
      var i :| 0 <= i < |ids| && ids[i] == IdIn(ByLayer, t);
      assert layers[i] in layers;
    }
    forall i, j | 0 <= i < j < |layers| ensures Above(layers[i], layers[j]) {
      assert ids[i] != ids[j];
    }
  }

  lemma ModulesDescribed(sp: Spelling, targets: seq<Target>, entries: seq<Entry>, modules: seq<ModuleSummary>)
    requires AreGroups(ByModule, IdsOfEntries(sp, ByModule, entries), entries, targets)
    requires forall e | e in entries :: e.lane.count > 0
    requires modules == FinishModules(sp, entries)
    ensures AreModuleSummaries(modules, targets)
  {
    var ids := IdsOfEntries(sp, ByModule, entries);
    forall i | 0 <= i < |modules|
      ensures ModuleId(modules[i]) == ids[i] && Summarizes(modules[i].lane, Members(ByModule, targets, ids[i]))
    {
      assert entries[i] in entries;
      FinishSummarizes(entries[i].lane, Members(ByModule, targets, ids[i]));
    }
    forall t | t in targets && InGroups(ByModule, t)
      ensures exists s :: s in modules && ModuleId(s) == IdIn(ByModule, t) {
      var i :| 0 <= i < |ids| && ids[i] == IdIn(ByModule, t);
      assert modules[i] in modules;
    }
  }

  method SummarizeLayers(sp: Spelling, ghost targets: seq<Target>, layerMap: map<string, Lane>)
    returns (layers: seq<LaneSummary>)
    requires sp.Lawful() && AreLanes(sp, ByLayer, layerMap, targets)
    ensures AreLayerSummaries(layers, targets)
  {
    var list := ListEntries(layerMap);
    var before := (a: Entry, b: Entry) => LaneLeq(a.lane, b.lane, true);
    var sorted := SortBy(list, before);
    SortBySorted(list, before);
    EntriesPermuted(list, sorted, layerMap);
    EntriesAreGroups(sp, ByLayer, layerMap, targets, sorted);
    GroupsCounted(ByLayer, IdsOfEntries(sp, ByLayer, sorted), sorted, targets);
    layers := FinishAll(sorted);
    LayersDescribed(sp, targets, sorted, layers);
  }

  method SummarizeModules(sp: Spelling, ghost targets: seq<Target>, moduleMap: map<string, Lane>,
                          compare: (string, string) -> int)
    returns (modules: seq<ModuleSummary>)
    requires sp.Lawful() && AreLanes(sp, ByModule, moduleMap, targets)
    ensures AreModuleSummaries(modules, targets)
    ensures Collates(compare) ==> ModulesInOrder(sp, compare, modules)
  {
    var list := ListEntries(moduleMap);
    var sorted := SortBy(list, ModuleOrder(compare));
    EntriesPermuted(list, sorted, moduleMap);
    EntriesAreGroups(sp, ByModule, moduleMap, targets, sorted);
    GroupsCounted(ByModule, IdsOfEntries(sp, ByModule, sorted), sorted, targets);
    modules := FinishModules(sp, sorted);
    ModulesDescribed(sp, targets, sorted, modules);
    if Collates(compare) {
      EntriesInOrder(compare, list);
      ModulesOrdered(sp, compare, moduleMap, targets, sorted, modules);
    }
  }

  /** The rails and labels of a layout's targets, in the order the targets come. */
  method SummarizeStellarFlowLanes(targets: seq<Target>, compare: (string, string) -> int)
    returns (layers: seq<LaneSummary>, modules: seq<ModuleSummary>)
    ensures AreLayerSummaries(layers, targets) && AreModuleSummaries(modules, targets)
    ensures Collates(compare) ==> ModulesInOrder(Colons(), compare, modules)
  {
    var sp := Colons();
    ColonsLawful();
    var layerMap, moduleMap := CollectLanes(sp, targets);
    layers := SummarizeLayers(sp, targets, layerMap);
    modules := SummarizeModules(sp, targets, moduleMap, compare);
  }

  // ----- conservation

  function NumberIn(g: Grouping, targets: seq<Target>): nat {
    if targets == [] then 0
    else NumberIn(g, targets[..|targets| - 1]) + if InGroups(g, targets[|targets| - 1]) then 1 else 0
  }

  /** The groups of the targets, one entry for each target that has one. */
  function GroupIds(g: Grouping, targets: seq<Target>): (r: seq<LaneId>)
    ensures |r| == NumberIn(g, targets)
    ensures forall id :: id in r <==> exists t :: t in targets && InGroups(g, t) && IdIn(g, t) == id
  {
    if targets == [] then []
    else
      var before, last := targets[..|targets| - 1], targets[|targets| - 1];
      assert targets == before + [last];
      GroupIds(g, before) + if InGroups(g, last) then [IdIn(g, last)] else []
  }

  lemma {:induction false} MembersOccur(g: Grouping, targets: seq<Target>, id: LaneId)
    ensures |Members(g, targets, id)| == Occurrences(GroupIds(g, targets), id)
  {
    if targets != [] {
      MembersOccur(g, targets[..|targets| - 1], id);
    }
  }

  function Sum(counts: seq<nat>): nat { if counts == [] then 0 else counts[0] + Sum(counts[1..]) }

  lemma {:induction false} SumOfSizes(g: Grouping, ids: seq<LaneId>, counts: seq<nat>, targets: seq<Target>)
    requires |ids| == |counts| && forall i | 0 <= i < |ids| :: counts[i] == |Members(g, targets, ids[i])|
    ensures Sum(counts) == SumOccurrences(ids, GroupIds(g, targets))
  {
    if ids != [] {
      MembersOccur(g, targets, ids[0]);
      SumOfSizes(g, ids[1..], counts[1..], targets);
    }
  }

  lemma GroupsTotal(g: Grouping, ids: seq<LaneId>, counts: seq<nat>, targets: seq<Target>)
    requires Distinct(ids) && |ids| == |counts|
    requires forall i | 0 <= i < |ids| :: counts[i] == |Members(g, targets, ids[i])|
    requires forall id | id in GroupIds(g, targets) :: id in ids
    ensures Sum(counts) == NumberIn(g, targets)
  {
    SumOfSizes(g, ids, counts, targets);
    OccurrencesTotal(ids, GroupIds(g, targets));
  }

  function LayerCounts(layers: seq<LaneSummary>): (r: seq<nat>)
    ensures |r| == |layers| && forall i | 0 <= i < |r| :: r[i] == layers[i].count
  {
    seq(|layers|, i requires 0 <= i < |layers| => layers[i].count)
  }

  function ModuleCounts(modules: seq<ModuleSummary>): (r: seq<nat>)
    ensures |r| == |modules| && forall i | 0 <= i < |r| :: r[i] == modules[i].lane.count
  {
    seq(|modules|, i requires 0 <= i < |modules| => modules[i].lane.count)
  }

  /** The layer counts add up to the number of directed targets. */
  lemma LayersTotal(layers: seq<LaneSummary>, targets: seq<Target>)
    requires AreLayerSummaries(layers, targets)
    ensures Sum(LayerCounts(layers)) == NumberIn(ByLayer, targets)
  {
    var ids := seq(|layers|, i requires 0 <= i < |layers| => LayerId(layers[i]));
    forall i, j | 0 <= i < j < |ids| ensures ids[i] != ids[j] {
      assert Above(layers[i], layers[j]);
    }
    forall i | 0 <= i < |ids| ensures layers[i].count == |Members(ByLayer, targets, ids[i])| {
      assert layers[i] in layers;
    }
    forall id | id in GroupIds(ByLayer, targets) ensures id in ids {
      var s :| s in layers && LayerId(s) == id;
      var i :| 0 <= i < |layers| && layers[i] == s;
      assert ids[i] == id;
    }
    GroupsTotal(ByLayer, ids, LayerCounts(layers), targets);
  }

  lemma {:induction false} AllLabelled(targets: seq<Target>)
    requires forall t | t in targets && Counted(t) :: InGroups(ByModule, t)
    ensures NumberIn(ByModule, targets) == NumberIn(ByLayer, targets)
  {
    if targets != [] {
      assert targets[|targets| - 1] in targets;
      AllLabelled(targets[..|targets| - 1]);
    }
  }

  /** The module counts add up to the number of directed targets that have a label. */
  lemma ModulesTotal(modules: seq<ModuleSummary>, targets: seq<Target>)
    requires AreModuleSummaries(modules, targets)
    ensures Sum(ModuleCounts(modules)) == NumberIn(ByModule, targets)
    ensures (forall t | t in targets && Counted(t) :: InGroups(ByModule, t))
            ==> Sum(ModuleCounts(modules)) == NumberIn(ByLayer, targets)
  {
    var ids := seq(|modules|, i requires 0 <= i < |modules| => ModuleId(modules[i]));
    forall i | 0 <= i < |ids| ensures modules[i].lane.count == |Members(ByModule, targets, ids[i])| {
      assert modules[i] in modules;
    }
    forall id | id in GroupIds(ByModule, targets) ensures id in ids {
      var s :| s in modules && ModuleId(s) == id;
      var i :| 0 <= i < |modules| && modules[i] == s;
      assert ids[i] == id;
    }
    GroupsTotal(ByModule, ids, ModuleCounts(modules), targets);
    if forall t | t in targets && Counted(t) :: InGroups(ByModule, t) {
      AllLabelled(targets);
    }
  }

  lemma DepthOfLayer(s: LaneSummary, targets: seq<Target>)
    requires Members(ByLayer, targets, LayerId(s)) != []
    requires forall t | t in targets && Counted(t) :: 1 <= t.depth.value <= 4
    ensures 1 <= s.depth <= 4
  {
    var t := Members(ByLayer, targets, LayerId(s))[0];
    assert t in Members(ByLayer, targets, LayerId(s));
    assert t in targets && Counted(t);
  }

  function Rank(s: LaneSummary): int { 3 * s.depth + RoleOrder(s.role) }

  lemma {:induction false} RankGrows(layers: seq<LaneSummary>, n: nat)
    requires n < |layers| && forall i, j | 0 <= i < j < |layers| :: Above(layers[i], layers[j])
    ensures Rank(layers[n]) >= Rank(layers[0]) + n
  {
    if n > 0 {
      RankGrows(layers, n - 1);
      assert Above(layers[n - 1], layers[n]);
    }
  }

  lemma RanksOfDepths(first: LaneSummary, last: LaneSummary)
    requires 1 <= first.depth && last.depth <= 4
    ensures Rank(last) - Rank(first) <= 11
  {
  }

  /** Three roles at four depths: there are at most twelve rails. */
  lemma AtMostTwelveRails(layers: seq<LaneSummary>, targets: seq<Target>)
    requires AreLayerSummaries(layers, targets)
    requires forall t | t in targets && Counted(t) :: 1 <= t.depth.value <= 4
    ensures |layers| <= 12
  {
    if layers != [] {
      var first, last := layers[0], layers[|layers| - 1];
      assert first in layers && last in layers;
      DepthOfLayer(first, targets);
      DepthOfLayer(last, targets);
      RankGrows(layers, |layers| - 1);
      RanksOfDepths(first, last);
    }
  }
}
