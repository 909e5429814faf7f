/** The feed tracker (src/main.rs, `FeedTracker`): a registry that gives every
    feed name an id, in first-seen order, starting at 0. */
module Feeds {

  class FeedTracker {
    var nextFeedId: nat
    var ids: map<string, nat>
    /** The registered names in the order they were first seen. */
    ghost var seen: seq<string>

    /** Name `seen[i]` has id `i`, and no other names are registered; so
        every id is below `nextFeedId`, every id below it is taken, and no two
        names share an id. */
    ghost predicate Valid()
      reads this
    {
      && |seen| == nextFeedId
      && (forall i :: 0 <= i < |seen| ==> seen[i] in ids && ids[seen[i]] == i)
      && (forall n :: n in ids ==> ids[n] < nextFeedId && seen[ids[n]] == n)
    }

    constructor ()
      ensures Valid()
      ensures nextFeedId == 0 && ids == map[] && seen == []
    {
      nextFeedId := 0;
      ids := map[];
      seen := [];
    }

    /** The id of `name`: its stored id if it was seen before, and otherwise
        the next free id, which is recorded for it. */
    method Identify(name: string) returns (id: nat)
      requires Valid()
      modifies this
      ensures Valid()
      ensures name in ids && ids[name] == id
      ensures name in old(ids) ==>
        id == old(ids)[name] && nextFeedId == old(nextFeedId) && ids == old(ids) && seen == old(seen)
      ensures name !in old(ids) ==>
        && id == old(nextFeedId)
        && nextFeedId == old(nextFeedId) + 1
        && ids == old(ids)[name := id]
        && seen == old(seen) + [name]
    {
      if name in ids {
        return ids[name];
      }
      id := nextFeedId;
      nextFeedId := nextFeedId + 1;
      ids := ids[name := id];
      seen := seen + [name];
    }
  }

  /** `later` keeps every mapping of `earlier`: an id, once assigned, is
      never changed or removed. */
  ghost predicate Extends(earlier: map<string, nat>, later: map<string, nat>)
  {
    forall n :: n in earlier ==> n in later && later[n] == earlier[n]
  }

  /** No two registered names share an id. */
  lemma IdsInjective(t: FeedTracker)
    requires t.Valid()
    ensures forall a, b :: a in t.ids && b in t.ids && t.ids[a] == t.ids[b] ==> a == b
  {
  }

  /** The ids in use are exactly 0, 1, ..., nextFeedId - 1. */
  lemma {:induction false} IdsAreDense(t: FeedTracker)
    requires t.Valid()
    ensures forall i: int :: i in t.ids.Values <==> 0 <= i < t.nextFeedId
  {
    forall i | 0 <= i < t.nextFeedId
      ensures i in t.ids.Values
    {
      assert t.seen[i] in t.ids && t.ids[t.seen[i]] == i;
    }
  }

  /** The names of `names` that `known` lacks, each at its first
      occurrence, in order: what a tracker that knows `known` appends to its
      first-seen order when it identifies `names` one after the other. */
  function NewNames(known: set<string>, names: seq<string>): seq<string>
    decreases |names|
  {
    if names == [] then []
    else
      var init := names[..|names| - 1];
      var n := names[|names| - 1];
      NewNames(known, init) + (if n in known || n in init then [] else [n])
  }

  /** One more name is new exactly when neither `known` nor the earlier
      names hold it. */
  lemma NewNamesSnoc(known: set<string>, names: seq<string>, n: string)
    ensures NewNames(known, names + [n]) == NewNames(known, names) + (if n in known || n in names then [] else [n])
  {
    assert (names + [n])[..|names|] == names;
  }

  /** The new names are exactly the names outside `known`, each listed once. */
  lemma {:induction false} NewNamesMeaning(known: set<string>, names: seq<string>)
    ensures forall n :: n in NewNames(known, names) <==> n in names && n !in known
    ensures forall i, j :: 0 <= i < j < |NewNames(known, names)| ==>
      NewNames(known, names)[i] != NewNames(known, names)[j]
    decreases |names|
  {
    if names != [] {
      var init := names[..|names| - 1];
      var n := names[|names| - 1];
      assert names == init + [n];
      NewNamesMeaning(known, init);
      var a := NewNames(known, init);
      if n !in known && n !in init {
        assert NewNames(known, names) == a + [n];
        assert n !in a;
      } else {
        assert NewNames(known, names) == a;
      }
    }
  }

  /** A document naming the feeds "tech", "life", "tech" on a tracker that
      knows none of them registers "tech" and then "life", once each. */
  lemma FirstSeenInDocument()
    ensures NewNames({}, ["tech", "life", "tech"]) == ["tech", "life"]
  {
    assert ["tech", "life", "tech"][..2] == ["tech", "life"];
    assert ["tech", "life"][..1] == ["tech"];
    assert ["tech"][..0] == [];
  }

  /** Feeds "tech", "life", "tech" get the ids 0, 1, 0. */
  method FirstSeenOrder() returns (a: nat, b: nat, c: nat)
    ensures a == 0 && b == 1 && c == 0
  {
    var t := new FeedTracker();
    a := t.Identify("tech");
    b := t.Identify("life");
    c := t.Identify("tech");
  }
}
