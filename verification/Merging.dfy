/** Gathering and cloning entries (internal/executor/merge.go). */
module Merging {
  import opened Entries
  import opened Dataflow

  function Flatten(slices: seq<seq<Entry>>): seq<Entry> {
    if slices == [] then [] else Flatten(slices[..|slices| - 1]) + slices[|slices| - 1]
  }

  lemma {:induction false} InFlatten(slices: seq<seq<Entry>>)
    ensures forall e :: e in Flatten(slices) <==> exists k :: 0 <= k < |slices| && e in slices[k]
  {
    if slices != [] {
      var n := |slices| - 1;
      InFlatten(slices[..n]);
      assert slices == slices[..n] + [slices[n]];
    }
  }

  /** Concatenates the slices, keeping the first entry of each URL. */
  method MergeAndDedup(slices: seq<seq<Entry>>) returns (out: seq<Entry>)
    ensures Views(out) == Merge(Views(Flatten(slices)))
    ensures forall e :: e in out ==> e in Flatten(slices)
  {
    hide Views, Merge, URLs;
    var seen := {};
    out := [];
    ghost var all := [];
    MergeEmpty();
    for k := 0 to |slices|
      invariant all == Flatten(slices[..k])
      invariant Views(out) == Merge(Views(all)) && seen == URLs(Views(all)) - {""}
      invariant forall e :: e in out ==> e in all
    {
      assert slices[..k + 1][..k] == slices[..k];
      ghost var before := all;
      for m := 0 to |slices[k]|
        invariant all == before + slices[k][..m]
        invariant Views(out) == Merge(Views(all)) && seen == URLs(Views(all)) - {""}
        invariant forall e :: e in out ==> e in all
      {
        var e := slices[k][m];
        MergeStep(all, out, e);
        assert before + slices[k][..m + 1] == (before + slices[k][..m]) + [e];
        all := all + [e];
        if e.url != "" {
          if e.url in seen { continue; }
          seen := seen + {e.url};
        }
        out := out + [e];
      }
      assert slices[k][..|slices[k]|] == slices[k];
    }
    assert slices[..|slices|] == slices;
  }

  lemma MergeEmpty()
    ensures Views([]) == Merge(Views([])) && URLs(Views([])) == {}
  {
  }

  lemma MergeStep(all: seq<Entry>, out: seq<Entry>, e: Entry)
    requires Views(out) == Merge(Views(all))
    ensures URLs(Views(all + [e])) == URLs(Views(all)) + {e.url}
    ensures Views(out + [e]) == Views(out) + [e.View()]
    ensures Merge(Views(all + [e])) ==
      if e.url != "" && e.url in URLs(Views(all)) then Merge(Views(all)) else Merge(Views(all)) + [e.View()]
  {
    hide URLs;
    ViewsSnoc(all, e);
    ViewsSnoc(out, e);
    URLsSnoc(Views(all), e.View());
    assert Views(all + [e])[..|all|] == Views(all);
  }

  method CloneAll(es: seq<Entry>) returns (out: seq<Entry>)
    ensures fresh(out) && Views(out) == Views(es)
  {
    hide Views;
    out := [];
    for k := 0 to |es|
      invariant fresh(out) && |out| == k
      invariant forall j :: 0 <= j < k ==> out[j].View() == es[j].View()
    {
      var c := es[k].Clone();
      out := out + [c];
    }
    SameViews(out, es);
  }

  lemma SameViews(a: seq<Entry>, b: seq<Entry>)
    requires |a| == |b| && forall j :: 0 <= j < |a| ==> a[j].View() == b[j].View()
    ensures Views(a) == Views(b)
  {
  }

  lemma SameURL(a: seq<Entry>, b: seq<Entry>, i: nat)
    requires Views(a) == Views(b) && i < |a|
    ensures i < |b| && a[i].url == b[i].url
  {
    assert Views(a)[i] == a[i].View() && Views(b)[i] == b[i].View();
  }

  /** A separate set of clones for each of k consumers. */
  method CloneEach(es: seq<Entry>, k: nat) returns (copies: seq<seq<Entry>>)
    ensures |copies| == k
    ensures forall i :: 0 <= i < k ==> Views(copies[i]) == Views(es)
    ensures forall i, e :: 0 <= i < k && e in copies[i] ==> fresh(e)
    ensures forall i, j, e :: 0 <= i < k && 0 <= j < k && i != j && e in copies[i] ==> e !in copies[j]
  {
    hide Views;
    copies := [];
    for m := 0 to k
      invariant |copies| == m
      invariant forall i :: 0 <= i < m ==> Views(copies[i]) == Views(es)
      invariant forall i, e :: 0 <= i < m && e in copies[i] ==> fresh(e)
      invariant forall i, j, e :: 0 <= i < m && 0 <= j < m && i != j && e in copies[i] ==> e !in copies[j]
    {
      var clones := CloneAll(es);
      copies := copies + [clones];
    }
  }

  lemma FlattenSnoc(slices: seq<seq<Entry>>, slice: seq<Entry>)
    ensures Views(Flatten(slices + [slice])) == Views(Flatten(slices)) + Views(slice)
  {
    hide Views;
    assert (slices + [slice])[..|slices|] == slices;
    ViewsAppend(Flatten(slices), slice);
  }

  lemma NoViews()
    ensures Views([]) == []
  {
  }
}
