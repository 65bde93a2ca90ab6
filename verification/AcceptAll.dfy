/** A graph with a node that accepts without setting anything, which the validator does not track. */
module AcceptAll {
  import opened Graph
  import opened Entries
  import opened Dataflow
  import opened StateCert
  import opened CertMeaning
  import opened FieldFlow
  import opened Validate

  const INFO: set<Field> := {"title", "video_year", "_quality"}

  const FEED: Descriptor := Descriptor(true, Source, {}, [], ["title", "video_year", "_quality"], [], Ordinary, [],
    NO_PORT)
  const ACCEPT_ALL: Descriptor := Descriptor(true, Processor, {Undecided}, [], [], [], Ordinary, [], NO_PORT)
  const MOVIES: Descriptor := Descriptor(true, Processor, {}, [["title"], ["video_year"], ["_quality"]],
    ["media_type"], [], Ordinary, [], NO_PORT)
  const DEDUP: Descriptor := Descriptor(true, Processor, {Accepted}, [["media_type"], ["series_episode_id", "title"]],
    [], [], Ordinary, [], NO_PORT)

  /** accept_all and movies side by side, merged into dedup, which acts on accepted entries and requires media_type. */
  const MERGED: Dag := Dag(map["f" := [], "a" := ["f"], "m" := ["f"], "d" := ["a", "m"]], ["f", "a", "m", "d"])
  const MERGED_USES: map<NodeID, Descriptor> := map["f" := FEED, "a" := ACCEPT_ALL, "m" := MOVIES, "d" := DEDUP]

  const FED: Flow := Flow(INFO, Cert(INFO, {}, {}, {}, {Undecided}))
  const CLASSED: Flow :=
    Flow(INFO + {"media_type"},
         Cert(INFO + {"media_type"}, INFO + {"media_type"}, {}, {}, {Accepted, Undecided}))
  const JOINED: Flow :=
    Flow(INFO + {"media_type"},
         Cert(INFO, INFO + {"media_type"}, {}, {}, {Accepted, Undecided}))
  const MERGED_FLOWS: map<NodeID, Flow> := map["f" := FED, "a" := FED, "m" := CLASSED, "d" := JOINED]

  /** The validator takes what accept_all has accepted for what movies has, and finds nothing wrong with dedup. */
  lemma AcceptAllEscapes(i: Item)
    requires Describes(FED.cert, i) && !i.Has("media_type")
    ensures Built(MERGED) && IsFlow(MERGED, MERGED_USES, MERGED_FLOWS)
    ensures forall f: Finding :: f.node == "d" ==> !Applies(MERGED, MERGED_USES, MERGED_FLOWS, f)
    ensures var j := i.(state := Accepted);
      Steps(Classify(ACCEPT_ALL.inputStates, {}), i, j) && j.state in InputStates(DEDUP) && !j.Has("media_type")
  {
    hide IsFlow, Built, Applies;
    MergedBuilt();
    MergedFlow();
    DedupSilent();
    assert forall f :: i.(state := Accepted).Get(f) == i.Get(f);
  }

  lemma MergedBuilt()
    ensures Built(MERGED)
  {
    var o := MERGED.order;
    assert o[..1] == ["f"] && o[..2] == ["f", "a"] && o[..3] == ["f", "a", "m"];
  }

  lemma MergedFlow()
    ensures IsFlow(MERGED, MERGED_USES, MERGED_FLOWS)
  {
    hide Leaving, Entering;
    FeedEnters();
    DedupEnters();
    FeedLeaves();
    AcceptAllLeaves();
    MoviesLeaves();
    DedupLeaves();
  }

  lemma DedupSilent()
    ensures forall f: Finding :: f.node == "d" ==> !Applies(MERGED, MERGED_USES, MERGED_FLOWS, f)
  {
    hide Entering, CertainFor, Meets;
    DedupEnters();
    DedupMet();
  }

  lemma DedupMet()
    ensures forall group :: group in DEDUP.needs ==>
      Meets(CertainFor(DEDUP, JOINED), group) && Meets(JOINED.reach, group)
  {
    assert "media_type" in ["media_type"] && "title" in ["series_episode_id", "title"];
    assert Accepted in {Accepted} * JOINED.cert.populated;
  }

  lemma FeedEnters()
    ensures Entering(FEED, [], MERGED_FLOWS) == NOTHING
    ensures Entering(ACCEPT_ALL, ["f"], MERGED_FLOWS) == FED && Entering(MOVIES, ["f"], MERGED_FLOWS) == FED
  {
    hide AfterPort;
    NoPort(NOTHING);
    NoPort(FED);
  }

  lemma DedupEnters()
    ensures Entering(DEDUP, ["a", "m"], MERGED_FLOWS) == JOINED
  {
    hide AfterPort, Cert.Intersection;
    var ups: seq<NodeID> := ["a", "m"];
    assert ups[..1] == ["a"];
    assert Inherited(["a"], MERGED_FLOWS) == FED && FlowAt(MERGED_FLOWS, "m") == CLASSED;
    JoinedIntersection();
    assert Inherited(ups, MERGED_FLOWS) == JOINED;
    NoPort(JOINED);
  }

  lemma JoinedIntersection()
    ensures FED.cert.Intersection(CLASSED.cert) == JOINED.cert
  {
    SameCert(FED.cert.Intersection(CLASSED.cert), JOINED.cert);
  }

  lemma FeedLeaves()
    ensures Leaving(FEED, NOTHING) == FED
  {
    assert SetOf(["title", "video_year", "_quality"]) == INFO && SetOf([]) == {};
  }

  lemma AcceptAllLeaves()
    ensures Leaving(ACCEPT_ALL, FED) == FED
  {
    hide AfterSubs;
    assert SetOf([]) == {};
    NoSubs(ACCEPT_ALL, FED);
  }

  lemma DedupLeaves()
    ensures Leaving(DEDUP, JOINED) == JOINED
  {
    hide AfterSubs;
    assert SetOf([]) == {};
    NoSubs(DEDUP, JOINED);
  }

  lemma MoviesLeaves()
    ensures Leaving(MOVIES, FED) == CLASSED
  {
    hide AfterSubs;
    assert SetOf(["media_type"]) == {"media_type"} && SetOf([]) == {};
    var p := AfterProduces(MOVIES, FED);
    SameCert(p.cert, CLASSED.cert);
    NoSubs(MOVIES, p);
  }
}
