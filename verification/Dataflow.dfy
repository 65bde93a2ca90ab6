/**
  A pipeline run as pure dataflow: what a run computes if no entry were ever
  shared. internal/executor/executor.go is proved to compute exactly this.
 */
module Dataflow {
  import opened Graph
  import opened Entries

  /** From a producer to one of its consumers. */
  type Edge = (NodeID, NodeID)

  datatype Role = Source | Processor | Sink

  /** A node's plugin instance, as far as the executor looks at it. */
  datatype Instance = Instance(
    role: Role,
    states: set<State>,     // effectiveInputStates
    acceptsMarkers: bool,
    discards: bool,         // ReplacesUpstream
    commits: bool,          // implements CommitPlugin
    declined: bool          // a source whose run_on does not admit this run's trigger
  )

  /** The entries a plugin is called with. */
  function Handed(inst: Instance, arrived: seq<Item>): seq<Item> {
    if inst.role.Source? then []
    else
      var matching := Keep(arrived, InStates(inst.states), true);
      var live := if inst.role.Sink? then Keep(matching, IsConsumed, false) else matching;
      if inst.acceptsMarkers then live else Keep(live, IsMarker, false)
  }

  /** The entries that pass a node by, in the order they are appended to its output. */
  function Bypassing(inst: Instance, arrived: seq<Item>): seq<Item> {
    if inst.role.Source? then []
    else
      var matching := Keep(arrived, InStates(inst.states), true);
      var live := if inst.role.Sink? then Keep(matching, IsConsumed, false) else matching;
      Keep(arrived, InStates(inst.states), false)
      + (if inst.role.Sink? then Keep(matching, IsConsumed, true) else [])
      + (if inst.acceptsMarkers then [] else Keep(live, IsMarker, true))
  }

  /**
    One node's part of a run: what arrived, what the plugin was called with and
    what it returned (for a sink: the entries it was called with, as it left
    them), and how the arrived entries stood once the node had run.
   */
  datatype Record = Record(arrived: seq<Item>, handed: seq<Item>, out: seq<Item>, after: seq<Item>, panicked: bool)

  /** Only sources can decline a trigger. */
  predicate Declines(inst: Instance) { inst.role.Source? && inst.declined }

  /** What a node passes on. */
  function Leaves(inst: Instance, r: Record): seq<Item> {
    if Declines(inst) || r.panicked then [] else r.out + Bypassing(inst, r.arrived)
  }

  /** Everything the upstreams pass on, in upstream order. */
  function Gather(ups: seq<NodeID>, plugins: map<NodeID, Instance>, recs: map<NodeID, Record>): seq<Item> {
    if ups == [] then []
    else
      var n := |ups| - 1;
      Gather(ups[..n], plugins, recs)
      + if ups[n] in plugins && ups[n] in recs then Leaves(plugins[ups[n]], recs[ups[n]]) else []
  }

  /** mergeAndDedup: the first entry of each URL, and every entry without one. */
  function Merge(items: seq<Item>): seq<Item> {
    if items == [] then []
    else
      var n := |items| - 1;
      var rest := Merge(items[..n]);
      if items[n].url != "" && items[n].url in URLs(items[..n]) then rest else rest + [items[n]]
  }

  function URLs(items: seq<Item>): set<string> {
    set k | 0 <= k < |items| :: items[k].url
  }

  ghost predicate SameURLs(a: seq<Item>, b: seq<Item>) {
    |a| == |b| && forall i :: 0 <= i < |a| ==> a[i].url == b[i].url
  }

  /** A node's record fits what its upstreams passed on, and the plugin was called with what it may see; it may do
    anything but change a URL. */
  ghost predicate Fits(d: Dag, plugins: map<NodeID, Instance>, recs: map<NodeID, Record>, n: NodeID)
    requires n in d.ups && n in plugins && n in recs
  {
    var r := recs[n];
    && r.arrived == Merge(Gather(d.ups[n], plugins, recs))
    && r.handed == Handed(plugins[n], r.arrived)
    && SameURLs(r.after, r.arrived)
    && (plugins[n].role.Sink? && !r.panicked ==> SameURLs(r.out, r.handed))
  }

  /** The records of a whole run. */
  ghost predicate IsDataflow(d: Dag, plugins: map<NodeID, Instance>, recs: map<NodeID, Record>) {
    && d.ups.Keys <= plugins.Keys && recs.Keys == d.ups.Keys
    && forall n :: n in d.ups ==> Fits(d, plugins, recs, n)
  }

  /** URLs seen accepted or consumed, and not failed, right after some sink ran. */
  ghost function Delivered(plugins: map<NodeID, Instance>, recs: map<NodeID, Record>): set<string> {
    set n, i | n in recs && n in plugins && plugins[n].role.Sink? && 0 <= i < |recs[n].after|
      && recs[n].after[i].url != "" && recs[n].after[i].state != Failed
      && (recs[n].after[i].state == Accepted || recs[n].after[i].consumed) :: recs[n].after[i].url
  }

  ghost function FailedAtSink(plugins: map<NodeID, Instance>, recs: map<NodeID, Record>): set<string> {
    set n, i | n in recs && n in plugins && plugins[n].role.Sink? && 0 <= i < |recs[n].after|
      && recs[n].after[i].url != "" && recs[n].after[i].state == Failed :: recs[n].after[i].url
  }

  // --- Extending a partial run by one node ---

  lemma {:induction false} GatherStable(ups: seq<NodeID>, plugins: map<NodeID, Instance>, recs: map<NodeID, Record>,
                                        n: NodeID, r: Record)
    requires n !in ups
    ensures Gather(ups, plugins, recs[n := r]) == Gather(ups, plugins, recs)
  {
    if ups != [] {
      var k := |ups| - 1;
      assert ups == ups[..k] + [ups[k]];
      GatherStable(ups[..k], plugins, recs, n, r);
    }
  }

  lemma GatherSnoc(ups: seq<NodeID>, k: nat, plugins: map<NodeID, Instance>, recs: map<NodeID, Record>)
    requires k < |ups| && ups[k] in plugins && ups[k] in recs
    ensures Gather(ups[..k + 1], plugins, recs) ==
      Gather(ups[..k], plugins, recs) + Leaves(plugins[ups[k]], recs[ups[k]])
  {
    assert ups[..k + 1][..k] == ups[..k];
  }

  ghost function DeliveredAfter(after: seq<Item>): set<string> {
    set i | 0 <= i < |after| && after[i].url != "" && after[i].state != Failed
      && (after[i].state == Accepted || after[i].consumed) :: after[i].url
  }

  ghost function FailedAfter(after: seq<Item>): set<string> {
    set i | 0 <= i < |after| && after[i].url != "" && after[i].state == Failed :: after[i].url
  }

  lemma LedgersStep(plugins: map<NodeID, Instance>, recs: map<NodeID, Record>, n: NodeID, r: Record)
    requires n !in recs && n in plugins
    ensures Delivered(plugins, recs[n := r])
      == Delivered(plugins, recs) + if plugins[n].role.Sink? then DeliveredAfter(r.after) else {}
    ensures FailedAtSink(plugins, recs[n := r])
      == FailedAtSink(plugins, recs) + if plugins[n].role.Sink? then FailedAfter(r.after) else {}
  {
    var more := recs[n := r];
    assert forall m :: m in recs ==> more[m] == recs[m];
    assert more[n] == r;
  }

  // --- What merging does ---

  /** Merging keeps each URL once, and drops nothing whose URL is not kept. */
  lemma {:induction false} MergeIs(items: seq<Item>)
    ensures forall i :: i in Merge(items) ==> i in items
    ensures URLs(Merge(items)) == URLs(items)
    ensures forall i, j :: 0 <= i < j < |Merge(items)| && Merge(items)[i].url != "" ==>
      Merge(items)[i].url != Merge(items)[j].url
  {
    if items != [] {
      var n := |items| - 1;
      MergeIs(items[..n]);
      assert items == items[..n] + [items[n]];
      URLsSnoc(items[..n], items[n]);
      URLsSnoc(Merge(items[..n]), items[n]);
    }
  }

  /** In order, what is kept is each entry that has no URL or is the first with its URL. */
  ghost predicate FirstOfURL(items: seq<Item>, k: nat)
    requires k < |items|
  {
    items[k].url == "" || forall j :: 0 <= j < k ==> items[j].url != items[k].url
  }

  /** These are the places of the entries merged, in order: all those that are kept. */
  ghost predicate Places(items: seq<Item>, merged: seq<Item>, kept: seq<nat>) {
    && |kept| == |merged|
    && (forall i :: 0 <= i < |kept| ==> kept[i] < |items| && merged[i] == items[kept[i]])
    && (forall i, j :: 0 <= i < j < |kept| ==> kept[i] < kept[j])
    && forall k: nat :: k < |items| ==> (k in kept <==> FirstOfURL(items, k))
  }

  lemma {:induction false} MergeKeepsFirst(items: seq<Item>) returns (kept: seq<nat>)
    ensures Places(items, Merge(items), kept)
  {
    hide Places, FirstOfURL;
    if items == [] {
      kept := [];
      NoPlaces();
    } else {
      var n := |items| - 1;
      var before := MergeKeepsFirst(items[..n]);
      FirstInFront(items);
      kept := if FirstOfURL(items, n) then before + [n] else before;
      PlacesSnoc(items, Merge(items[..n]), before);
    }
  }

  lemma NoPlaces()
    ensures Places([], [], [])
  {
  }

  lemma PlacesSnoc(items: seq<Item>, merged: seq<Item>, kept: seq<nat>)
    requires items != [] && Places(items[..|items| - 1], merged, kept)
    ensures var n := |items| - 1;
      if FirstOfURL(items, n) then Places(items, merged + [items[n]], kept + [n]) else Places(items, merged, kept)
  {
    FirstInFront(items);
    hide FirstOfURL;
    var n := |items| - 1;
    var more := kept + [n];
    assert forall k: nat :: k in more <==> k in kept || k == n;
    assert n !in kept;
  }

  lemma FirstInFront(items: seq<Item>)
    requires items != []
    ensures var n := |items| - 1;
      && (forall k: nat :: k < n ==> (FirstOfURL(items, k) <==> FirstOfURL(items[..n], k)))
      && (FirstOfURL(items, n) <==> items[n].url == "" || items[n].url !in URLs(items[..n]))
  {
    var n := |items| - 1;
    if j :| 0 <= j < n && items[j].url == items[n].url { assert items[..n][j].url == items[n].url; }
    assert forall k :: 0 <= k < n ==> items[..n][k] == items[k];
  }

  lemma URLsSnoc(items: seq<Item>, i: Item)
    ensures URLs(items + [i]) == URLs(items) + {i.url}
  {
    var all := items + [i];
    assert forall k :: 0 <= k < |items| ==> all[k] == items[k];
    assert all[|items|] == i;
  }

  /** What a plugin is called with, */
  lemma HandedIff(inst: Instance, arrived: seq<Item>, i: Item)
    ensures i in Handed(inst, arrived) <==>
      && i in arrived && !inst.role.Source? && i.state in inst.states
      && (inst.role.Sink? ==> !i.consumed) && (i.marker ==> inst.acceptsMarkers)
  {
    hide Keep;
    KeepIs(arrived, InStates(inst.states), true);
    var matching := Keep(arrived, InStates(inst.states), true);
    KeepIs(matching, IsConsumed, false);
    var live := if inst.role.Sink? then Keep(matching, IsConsumed, false) else matching;
    KeepIs(live, IsMarker, false);
  }

  /** and what passes it by. */
  lemma BypassIff(inst: Instance, arrived: seq<Item>, i: Item)
    ensures i in Bypassing(inst, arrived) <==>
      && i in arrived && !inst.role.Source?
      && (i.state !in inst.states || (inst.role.Sink? && i.consumed) || (i.marker && !inst.acceptsMarkers))
  {
    hide Keep;
    KeepIs(arrived, InStates(inst.states), true);
    KeepIs(arrived, InStates(inst.states), false);
    var matching := Keep(arrived, InStates(inst.states), true);
    KeepIs(matching, IsConsumed, true);
    KeepIs(matching, IsConsumed, false);
    var live := if inst.role.Sink? then Keep(matching, IsConsumed, false) else matching;
    KeepIs(live, IsMarker, true);
  }

  /** Everything that leaves through the bypass arrived, outside the plugin's reach. */
  lemma BypassIs(inst: Instance, arrived: seq<Item>)
    ensures forall i :: i in Bypassing(inst, arrived) ==> i in arrived
    ensures forall i :: i in Handed(inst, arrived) ==> i in arrived && i.state in inst.states
    ensures !inst.role.Source? ==> forall i :: i in arrived ==>
      i in Handed(inst, arrived) || i in Bypassing(inst, arrived)
  {
    hide Keep;
    KeepIs(arrived, InStates(inst.states), true);
    KeepIs(arrived, InStates(inst.states), false);
    var matching := Keep(arrived, InStates(inst.states), true);
    KeepIs(matching, IsConsumed, true);
    KeepIs(matching, IsConsumed, false);
    var live := if inst.role.Sink? then Keep(matching, IsConsumed, false) else matching;
    KeepIs(live, IsMarker, true);
    KeepIs(live, IsMarker, false);
  }
}
