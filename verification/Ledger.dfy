/**
  What the variables the counters are computed from hold
  (sourceEntries, edge, dropped and discarded of Run in internal/executor/executor.go).
  All of it is in terms of URLs, which entries keep, and of which entry is which.
 */
module Ledger {
  import opened Graph
  import opened Entries
  import opened Dataflow

  /** What a node was called with and what it passed on, as entries. */
  datatype Call = Call(upstream: seq<Entry>, produced: seq<Entry>)

  ghost predicate URLsMatch(es: seq<Entry>, items: seq<Item>) {
    |es| == |items| && forall i :: 0 <= i < |es| ==> es[i].url == items[i].url
  }

  ghost predicate HasURL(es: seq<Entry>, url: string) { exists e :: e in es && e.url == url }

  lemma ViewsMatch(es: seq<Entry>, items: seq<Item>)
    requires Views(es) == items
    ensures URLsMatch(es, items)
  {
    forall i | 0 <= i < |es| ensures es[i].url == items[i].url {
      assert Views(es)[i] == es[i].View();
    }
  }

  /** The entries a node received, by how they stood after it, that it neither emitted nor refused. */
  ghost function StrandedBy(upstream: seq<Entry>, produced: seq<Entry>, after: seq<Item>): set<Entry> {
    set i | 0 <= i < |upstream| && i < |after| && upstream[i] !in produced
      && after[i].state != Rejected && after[i].state != Failed :: upstream[i]
  }

  ghost predicate Strands(plugins: map<NodeID, Instance>, recs: map<NodeID, Record>, calls: map<NodeID, Call>,
                          n: NodeID, e: Entry) {
    && n in calls && n in plugins && n in recs && !plugins[n].role.Sink?
    && e in StrandedBy(calls[n].upstream, calls[n].produced, recs[n].after)
  }

  /** This URL left a source. */
  ghost predicate FromSource(plugins: map<NodeID, Instance>, recs: map<NodeID, Record>, url: string) {
    exists n, i :: n in recs && n in plugins && plugins[n].role.Source?
      && 0 <= i < |Leaves(plugins[n], recs[n])| && Leaves(plugins[n], recs[n])[i].url == url
  }

  /** A run's variables, as far as the counters look at them. */
  datatype Books = Books(
    edge: map<Edge, seq<Entry>>,
    sourceEntries: seq<Entry>,
    dropped: set<Entry>,
    discarded: set<Entry>,
    calls: map<NodeID, Call>
  )

  /** An edge holds, URL by URL, what its producer passed on. */
  ghost predicate EdgesMatch(plugins: map<NodeID, Instance>, recs: map<NodeID, Record>, edge: map<Edge, seq<Entry>>) {
    forall k :: k in edge ==> k.0 in recs && k.0 in plugins && URLsMatch(edge[k], Leaves(plugins[k.0], recs[k.0]))
  }

  /** A call was made with what arrived, from the edges, and came back with what left. */
  ghost predicate CallFits(plugins: map<NodeID, Instance>, recs: map<NodeID, Record>, edge: map<Edge, seq<Entry>>,
                           n: NodeID, c: Call)
    requires n in plugins && n in recs
  {
    && URLsMatch(c.upstream, recs[n].arrived) && URLsMatch(c.upstream, recs[n].after)
    && URLsMatch(c.produced, Leaves(plugins[n], recs[n]))
    && forall e :: e in c.upstream ==> exists u :: (u, n) in edge && e in edge[(u, n)]
  }

  ghost predicate CallsMatch(plugins: map<NodeID, Instance>, recs: map<NodeID, Record>, edge: map<Edge, seq<Entry>>,
                             calls: map<NodeID, Call>) {
    && recs.Keys <= plugins.Keys
    && (forall n :: n in calls <==> n in recs && !Declines(plugins[n]))
    && forall n :: n in calls ==> CallFits(plugins, recs, edge, n, calls[n])
  }

  ghost predicate SourcesMatch(plugins: map<NodeID, Instance>, recs: map<NodeID, Record>, sourceEntries: seq<Entry>) {
    forall url: string :: HasURL(sourceEntries, url) <==> FromSource(plugins, recs, url)
  }

  ghost predicate DropsMatch(plugins: map<NodeID, Instance>, recs: map<NodeID, Record>, calls: map<NodeID, Call>,
                             dropped: set<Entry>) {
    && (forall e :: e in dropped ==> exists n :: Strands(plugins, recs, calls, n, e))
    && forall n :: n in calls && n in plugins && n in recs && !plugins[n].role.Sink? ==>
         StrandedBy(calls[n].upstream, calls[n].produced, recs[n].after) <= dropped
  }

  /** What a node that replaces its upstream has received. */
  ghost predicate Replaces(plugins: map<NodeID, Instance>, calls: map<NodeID, Call>, n: NodeID, e: Entry) {
    n in calls && n in plugins && plugins[n].discards && e in calls[n].upstream
  }

  ghost predicate DiscardsMatch(plugins: map<NodeID, Instance>, calls: map<NodeID, Call>, discarded: set<Entry>) {
    && (forall e :: e in discarded ==> exists n :: Replaces(plugins, calls, n, e))
    && forall n :: n in calls && n in plugins && plugins[n].discards ==> forall e :: e in calls[n].upstream ==>
      e in discarded
  }

  ghost predicate InOrder(plugins: map<NodeID, Instance>, recs: map<NodeID, Record>, b: Books) {
    && EdgesMatch(plugins, recs, b.edge) && CallsMatch(plugins, recs, b.edge, b.calls)
    && SourcesMatch(plugins, recs, b.sourceEntries) && DropsMatch(plugins, recs, b.calls, b.dropped)
    && DiscardsMatch(plugins, b.calls, b.discarded)
  }

  // --- One node more ---

  /** What a node's turn adds to the books. */
  ghost function AfterTurn(b: Books, inst: Instance, n: NodeID, c: Call, after: seq<Item>): (r: Books) {
    Books(b.edge,
          b.sourceEntries + if inst.role.Source? then c.produced else [],
          b.dropped + if inst.role.Sink? then {} else StrandedBy(c.upstream, c.produced, after),
          b.discarded + if inst.discards then set e | e in c.upstream else {},
          b.calls[n := c])
  }

  lemma TurnInOrder(plugins: map<NodeID, Instance>, recs: map<NodeID, Record>, b: Books, n: NodeID, r: Record, c: Call)
    requires InOrder(plugins, recs, b) && n in plugins && n !in recs && !Declines(plugins[n])
    requires CallFits(plugins, recs[n := r], b.edge, n, c)
    ensures InOrder(plugins, recs[n := r], AfterTurn(b, plugins[n], n, c, r.after))
  {
    hide Leaves, URLsMatch, StrandedBy, CallFits, FromSource, SourcesMatch, DropsMatch, DiscardsMatch;
    var more := recs[n := r];
    assert forall m :: m in recs ==> more[m] == recs[m];
    forall m | m in b.calls ensures CallFits(plugins, more, b.edge, m, b.calls[m]) {
      CallFitsSame(plugins, recs, more, b.edge, b.edge, m, b.calls[m]);
    }
    assert URLsMatch(c.produced, Leaves(plugins[n], r)) by { CallFitsIs(plugins, more, b.edge, n, c); }
    SourcesMore(plugins, recs, b.sourceEntries, n, r, c.produced);
    DropsMore(plugins, recs, b.calls, b.dropped, n, r, c);
    DiscardsMore(plugins, b.calls, b.discarded, n, c);
  }

  lemma DiscardsMore(plugins: map<NodeID, Instance>, calls: map<NodeID, Call>, discarded: set<Entry>, n: NodeID,
                     c: Call)
    requires DiscardsMatch(plugins, calls, discarded) && n in plugins && n !in calls
    ensures DiscardsMatch(plugins, calls[n := c], discarded + if plugins[n].discards then set e | e in c.upstream
      else {})
  {
    var made, all := calls[n := c], discarded + if plugins[n].discards then set e | e in c.upstream else {};
    assert forall m :: m in calls ==> made[m] == calls[m];
    forall e | e in all ensures exists m :: Replaces(plugins, made, m, e) {
      if e in discarded {
        var m :| Replaces(plugins, calls, m, e);
        assert Replaces(plugins, made, m, e);
      } else {
        assert Replaces(plugins, made, n, e);
      }
    }
  }

  lemma CallFitsIs(plugins: map<NodeID, Instance>, recs: map<NodeID, Record>, edge: map<Edge, seq<Entry>>, n: NodeID,
                   c: Call)
    requires n in plugins && n in recs && CallFits(plugins, recs, edge, n, c)
    ensures URLsMatch(c.produced, Leaves(plugins[n], recs[n]))
  {
  }

  lemma CallFitsSame(plugins: map<NodeID, Instance>, recs: map<NodeID, Record>, more: map<NodeID, Record>,
                     edge: map<Edge, seq<Entry>>, wider: map<Edge, seq<Entry>>, n: NodeID, c: Call)
    requires n in plugins && n in recs && n in more && more[n] == recs[n] && CallFits(plugins, recs, edge, n, c)
    requires forall k :: k in edge ==> k in wider && wider[k] == edge[k]
    ensures CallFits(plugins, more, wider, n, c)
  {
    hide Leaves, URLsMatch;
  }

  lemma FromSourceMore(plugins: map<NodeID, Instance>, recs: map<NodeID, Record>, n: NodeID, r: Record, url: string)
    requires n in plugins && n !in recs
    ensures FromSource(plugins, recs[n := r], url) <==>
      FromSource(plugins, recs, url)
      || (plugins[n].role.Source?
          && exists i :: 0 <= i < |Leaves(plugins[n], r)| && Leaves(plugins[n], r)[i].url == url)
  {
    hide Leaves;
    var more := recs[n := r];
    assert forall m :: m in recs ==> more[m] == recs[m];
    assert more[n] == r;
  }

  lemma SourcesMore(plugins: map<NodeID, Instance>, recs: map<NodeID, Record>, sourceEntries: seq<Entry>, n: NodeID,
                    r: Record, produced: seq<Entry>)
    requires SourcesMatch(plugins, recs, sourceEntries) && n in plugins && n !in recs
    requires URLsMatch(produced, Leaves(plugins[n], r))
    ensures SourcesMatch(plugins, recs[n := r], sourceEntries + if plugins[n].role.Source? then produced else [])
  {
    hide Leaves, FromSource;
    var all := sourceEntries + if plugins[n].role.Source? then produced else [];
    forall url: string ensures HasURL(all, url) <==> FromSource(plugins, recs[n := r], url) {
      FromSourceMore(plugins, recs, n, r, url);
      URLsListed(produced, Leaves(plugins[n], r), url);
      assert HasURL(all, url) <==> HasURL(sourceEntries, url) || (plugins[n].role.Source? && HasURL(produced, url));
    }
  }

  lemma URLsListed(es: seq<Entry>, items: seq<Item>, url: string)
    requires URLsMatch(es, items)
    ensures HasURL(es, url) <==> exists i :: 0 <= i < |items| && items[i].url == url
  {
    if i :| 0 <= i < |items| && items[i].url == url { assert es[i] in es; }
  }

  lemma DropsMore(plugins: map<NodeID, Instance>, recs: map<NodeID, Record>, calls: map<NodeID, Call>,
                  dropped: set<Entry>, n: NodeID, r: Record, c: Call)
    requires DropsMatch(plugins, recs, calls, dropped) && n in plugins && n !in recs && calls.Keys <= recs.Keys
    ensures DropsMatch(plugins, recs[n := r], calls[n := c],
                       dropped + if plugins[n].role.Sink? then {} else StrandedBy(c.upstream, c.produced, r.after))
  {
    hide StrandedBy;
    var more, made := recs[n := r], calls[n := c];
    assert forall m :: m in calls ==> made[m] == calls[m] && more[m] == recs[m];
    assert made[n] == c && more[n] == r;
    var all := dropped + if plugins[n].role.Sink? then {} else StrandedBy(c.upstream, c.produced, r.after);
    forall e | e in all ensures exists m :: Strands(plugins, more, made, m, e) {
      if e in dropped {
        var m :| Strands(plugins, recs, calls, m, e);
        assert Strands(plugins, more, made, m, e);
      } else {
        assert Strands(plugins, more, made, n, e);
      }
    }
  }

  /** A node that is passed over adds nothing. */
  lemma SkipInOrder(plugins: map<NodeID, Instance>, recs: map<NodeID, Record>, b: Books, n: NodeID, r: Record)
    requires InOrder(plugins, recs, b) && n in plugins && n !in recs && Declines(plugins[n])
    ensures InOrder(plugins, recs[n := r], b)
  {
    hide Leaves, URLsMatch, StrandedBy, CallFits, FromSource, DiscardsMatch;
    var more := recs[n := r];
    assert forall m :: m in recs ==> more[m] == recs[m];
    forall m | m in b.calls ensures CallFits(plugins, more, b.edge, m, b.calls[m]) {
      CallFitsSame(plugins, recs, more, b.edge, b.edge, m, b.calls[m]);
    }
    forall e | e in b.dropped ensures exists m :: Strands(plugins, more, b.calls, m, e) {
      var m :| Strands(plugins, recs, b.calls, m, e);
      assert Strands(plugins, more, b.calls, m, e);
    }
    NothingLeaves(plugins[n], r);
    forall url ensures FromSource(plugins, more, url) <==> FromSource(plugins, recs, url) {
      FromSourceMore(plugins, recs, n, r, url);
    }
  }

  lemma NothingLeaves(inst: Instance, r: Record)
    requires Declines(inst)
    ensures Leaves(inst, r) == []
  {
  }

  /** Putting a node's outputs on its edges. */
  lemma StoreInOrder(plugins: map<NodeID, Instance>, recs: map<NodeID, Record>, b: Books, n: NodeID,
                     edge: map<Edge, seq<Entry>>)
    requires InOrder(plugins, recs, b) && n in plugins && n in recs
    requires forall k :: k in b.edge ==> k in edge && edge[k] == b.edge[k]
    requires forall k :: k in edge && k !in b.edge ==> k.0 == n && URLsMatch(edge[k], Leaves(plugins[n], recs[n]))
    ensures InOrder(plugins, recs, b.(edge := edge))
  {
    hide Leaves, URLsMatch, StrandedBy, CallFits, FromSource, SourcesMatch, DropsMatch, DiscardsMatch;
    forall m | m in b.calls ensures CallFits(plugins, recs, edge, m, b.calls[m]) {
      CallFitsSame(plugins, recs, recs, b.edge, edge, m, b.calls[m]);
    }
  }
}
