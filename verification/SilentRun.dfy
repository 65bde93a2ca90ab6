/** The validator's theorem, for what Executor.Run does to shared entries. */
module SilentRun {
  import opened Graph
  import opened Entries
  import opened Dataflow
  import opened FieldFlow
  import opened Soundness
  import opened Executor
  import opened Run

  /**
    In a completed run of a pipeline the validator is silent about, every
    entry a plugin was called with, other than a marker, had a field of each
    of the plugin's Requires groups when it was called.
   */
  lemma SilentRunIsSound(run: PipelineRun, p: Pipeline, flows: map<NodeID, Flow>, n: NodeID, i: Item, group: seq<Field>)
    requires Settled(run) && p.g == run.graph.View() && p.plugins == run.plugins
    requires Fitted(p) && IsFlow(p.g, p.uses, flows) && Silent(p, flows) && ClassifiersFit(p, flows) &&
      ConditionsFit(p, flows)
    requires WellBehaved(p, run.recs)
    requires n in p.g.ups && i in run.recs[n].handed && group in p.uses[n].needs
    requires i.marker ==> !p.plugins[n].acceptsMarkers || p.uses[n].needs == []
    requires i.state == Failed ==> !FollowsSink(p, n)
    ensures exists f :: f in group && i.Has(f)
  {
    hide Fitted, IsFlow, Silent, ClassifiersFit, ConditionsFit, WellBehaved, Built;
    ValidatorSound(p, flows, run.recs, n, i, group);
  }
}
