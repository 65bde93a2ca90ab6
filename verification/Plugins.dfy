/**
  What the executor relies on from a plugin (internal/executor/executor.go).
  The bodies leave every choice open, so what is proved of a run holds for
  whatever the plugins do within these contracts: change the entries they are
  handed in any way but their URL, return any of them in any order, add new ones,
  or panic. The ghost results tell what a plugin was called with, and what it
  returned, as it stood then.
 */
module Plugins {
  import opened Entries

  /** A source plugin's output: entries of its own. */
  method Generate() returns (out: seq<Entry>, panicked: bool, ghost made: seq<Item>)
    ensures fresh(out) && made == Views(out)
  {
    out, panicked := [], *;
    var n: nat := *;
    while n > 0
      invariant fresh(out)
    {
      var item: Item := *;
      var e := new Entry.Of(item);
      out, n := out + [e], n - 1;
    }
    made := Views(out);
  }

  /** A processor plugin's turn. */
  method Process(handed: seq<Entry>)
    returns (out: seq<Entry>, panicked: bool, ghost seen: seq<Item>, ghost made: seq<Item>)
    modifies set e | e in handed
    ensures seen == old(Views(handed)) && made == Views(out)
    ensures forall e :: e in out ==> e in handed || fresh(e)
  {
    seen := Views(handed);
    modify set e | e in handed;
    var added;
    added, panicked, made := Generate();
    out := [];
    var n: nat := *;
    while n > 0
      invariant forall e :: e in out ==> e in handed || e in added
    {
      var i: int := *;
      if 0 <= i < |handed| {
        out := out + [handed[i]];
      } else if 0 <= i - |handed| < |added| {
        out := out + [added[i - |handed|]];
      }
      n := n - 1;
    }
    made := Views(out);
  }

  /** A sink plugin's turn. */
  method Consume(handed: seq<Entry>) returns (panicked: bool, ghost seen: seq<Item>)
    modifies set e | e in handed
    ensures seen == old(Views(handed))
  {
    seen := Views(handed);
    modify set e | e in handed;
    panicked := *;
  }

  /** A commit plugin's turn, after every node has run. */
  method Commit(toCommit: seq<Entry>) returns (ghost given: seq<Entry>)
    modifies set e | e in toCommit
    ensures given == toCommit
  {
    given := toCommit;
    modify set e | e in toCommit;
  }
}
