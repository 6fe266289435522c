/**
 * `create_influencer_map`: one pass over the records that builds a dictionary
 * from influencer id to a list of follower ids. On the first record of an
 * influencer the key is inserted with an empty list and that record's follower
 * is not appended; later records append their follower.
 */
module Grouping {
  import opened Dates
  import opened Records

  /**
   * A Python dictionary from influencer id to follower list: `keys` is its
   * insertion order, `lists` its contents.
   */
  datatype InfluencerMap = InfluencerMap(keys: seq<Uid>, lists: map<Uid, seq<Uid>>)
  {
    /** Keys do not repeat, and the insertion order lists exactly the keys of the dictionary. */
    ghost predicate Valid()
    {
      && (forall a, b :: 0 <= a < b < |keys| ==> keys[a] != keys[b])
      && (forall k :: k in lists <==> k in keys)
    }
  }

  /** The distinct values of `xs`, in order of first appearance. */
  function FirstAppearances(xs: seq<Uid>): (ks: seq<Uid>)
    ensures forall a, b :: 0 <= a < b < |ks| ==> ks[a] != ks[b]
    ensures forall x :: x in ks <==> x in xs
  {
    if xs == [] then []
    else
      var init, last := xs[..|xs| - 1], xs[|xs| - 1];
      if last in init then FirstAppearances(init) else FirstAppearances(init) + [last]
  }

  /** `keys` and `lists` are what grouping the records `rs` yields. */
  ghost predicate Groups(keys: seq<Uid>, lists: map<Uid, seq<Uid>>, rs: seq<Record>)
  {
    && keys == FirstAppearances(Influencers(rs))
    && (forall k :: k in lists <==> k in keys)
    && (forall k :: k in lists ==> FollowersOf(rs, k) != [] && lists[k] == FollowersOf(rs, k)[1..])
  }

  /**
   * `create_influencer_map`. The keys are the influencers in order of first
   * appearance, and an influencer's list holds the followers of its records in
   * input order without the first one.
   */
  method CreateInfluencerMap(records: seq<Record>) returns (m: InfluencerMap)
    ensures m.Valid()
    ensures m.keys == FirstAppearances(Influencers(records))
    ensures forall k :: k in m.lists <==> k in Influencers(records)
    ensures forall k :: k in m.lists ==>
      FollowersOf(records, k) != [] && m.lists[k] == FollowersOf(records, k)[1..]
    ensures forall k :: k in m.lists ==> |m.lists[k]| == Occurrences(records, k) - 1
  {
    var keys: seq<Uid> := [];
    var lists: map<Uid, seq<Uid>> := map[];
    var i := 0;
    assert records[..0] == [];
    while i < |records|
      invariant 0 <= i <= |records|
      invariant Groups(keys, lists, records[..i])
    {
      var r := records[i];
      GroupStep(keys, lists, records, i);
      if r.influencer in lists {
        lists := lists[r.influencer := lists[r.influencer] + [r.follower]];
      } else {
        lists := lists[r.influencer := []];
        keys := keys + [r.influencer];
      }
      i := i + 1;
    }
    GroupedAll(keys, lists, records);
    m := InfluencerMap(keys, lists);
  }

  /** One record more: a known influencer's list grows by the follower, a new one gets an empty list. */
  lemma GroupStep(keys: seq<Uid>, lists: map<Uid, seq<Uid>>, rs: seq<Record>, i: nat)
    requires i < |rs|
    requires Groups(keys, lists, rs[..i])
    ensures rs[i].influencer in lists ==>
      Groups(keys, lists[rs[i].influencer := lists[rs[i].influencer] + [rs[i].follower]], rs[..i + 1])
    ensures rs[i].influencer !in lists ==>
      Groups(keys + [rs[i].influencer], lists[rs[i].influencer := []], rs[..i + 1])
  {
    assert rs[..i + 1] == rs[..i] + [rs[i]];
    if rs[i].influencer in lists {
      GroupKnown(keys, lists, rs[..i], rs[i]);
    } else {
      GroupNew(keys, lists, rs[..i], rs[i]);
    }
  }

  lemma ViewsSnoc(rs: seq<Record>, r: Record)
    ensures Influencers(rs + [r]) == Influencers(rs) + [r.influencer]
    ensures forall k :: FollowersOf(rs + [r], k) == FollowersOf(rs, k) + (if r.influencer == k then [r.follower] else [])
  {
    assert (rs + [r])[..|rs|] == rs;
  }

  lemma GroupKnown(keys: seq<Uid>, lists: map<Uid, seq<Uid>>, rs: seq<Record>, r: Record)
    requires Groups(keys, lists, rs)
    requires r.influencer in lists
    ensures Groups(keys, lists[r.influencer := lists[r.influencer] + [r.follower]], rs + [r])
  {
    ViewsSnoc(rs, r);
    assert Influencers(rs + [r])[..|rs|] == Influencers(rs);
    var fs := FollowersOf(rs, r.influencer);
    assert (fs + [r.follower])[1..] == fs[1..] + [r.follower];
    var lists' := lists[r.influencer := lists[r.influencer] + [r.follower]];
    forall k | k in lists'
      ensures FollowersOf(rs + [r], k) != [] && lists'[k] == FollowersOf(rs + [r], k)[1..]
    {
      if k != r.influencer {
        assert FollowersOf(rs + [r], k) == FollowersOf(rs, k);
      }
    }
  }

  lemma GroupNew(keys: seq<Uid>, lists: map<Uid, seq<Uid>>, rs: seq<Record>, r: Record)
    requires Groups(keys, lists, rs)
    requires r.influencer !in lists
    ensures Groups(keys + [r.influencer], lists[r.influencer := []], rs + [r])
  {
    ViewsSnoc(rs, r);
    assert Influencers(rs + [r])[..|rs|] == Influencers(rs);
    NoRecordNoFollowers(rs, r.influencer);
    var lists' := lists[r.influencer := []];
    assert FollowersOf(rs + [r], r.influencer) == [r.follower];
    forall k | k in lists'
      ensures FollowersOf(rs + [r], k) != [] && lists'[k] == FollowersOf(rs + [r], k)[1..]
    {
      if k != r.influencer {
        assert FollowersOf(rs + [r], k) == FollowersOf(rs, k);
      }
    }
  }

  lemma GroupedAll(keys: seq<Uid>, lists: map<Uid, seq<Uid>>, rs: seq<Record>)
    requires Groups(keys, lists, rs[..|rs|])
    ensures InfluencerMap(keys, lists).Valid()
    ensures keys == FirstAppearances(Influencers(rs))
    ensures forall k :: k in lists <==> k in Influencers(rs)
    ensures forall k :: k in lists ==> FollowersOf(rs, k) != [] && lists[k] == FollowersOf(rs, k)[1..]
    ensures forall k :: k in lists ==> |lists[k]| == Occurrences(rs, k) - 1
  {
    assert rs[..|rs|] == rs;
  }

  /** Where `x` first occurs in `xs`. */
  function FirstIndex(xs: seq<Uid>, x: Uid): (k: nat)
    requires x in xs
    ensures k < |xs| && xs[k] == x && x !in xs[..k]
  {
    var init := xs[..|xs| - 1];
    if x in init then
      var k := FirstIndex(init, x);
      assert xs[..k] == init[..k];
      k
    else
      |xs| - 1
  }

  /** The keys come in the order in which the influencers first appear. */
  lemma {:induction false} FirstAppearancesOrdered(xs: seq<Uid>)
    ensures forall a, b :: 0 <= a < b < |FirstAppearances(xs)| ==>
      FirstIndex(xs, FirstAppearances(xs)[a]) < FirstIndex(xs, FirstAppearances(xs)[b])
  {
    if xs != [] {
      var init, last := xs[..|xs| - 1], xs[|xs| - 1];
      FirstAppearancesOrdered(init);
      var ks, ks0 := FirstAppearances(xs), FirstAppearances(init);
      forall a, b | 0 <= a < b < |ks|
        ensures FirstIndex(xs, ks[a]) < FirstIndex(xs, ks[b])
      {
        assert ks[a] in init;
        if b < |ks0| {
          assert ks[a] == ks0[a] && ks[b] == ks0[b];
        } else {
          assert ks[b] == last && last !in init;
        }
      }
    }
  }

  /** Records A f1, A f2, B f3 group into A: [f2], B: []. */
  lemma GroupingExample()
    ensures var rs := [Record("A", "f1", Midnight(Date(2022, 4, 1))), Record("A", "f2", Midnight(Date(2022, 4, 1))),
                       Record("B", "f3", Midnight(Date(2022, 4, 1)))];
      && FirstAppearances(Influencers(rs)) == ["A", "B"]
      && FollowersOf(rs, "A")[1..] == ["f2"]
      && FollowersOf(rs, "B")[1..] == []
  {
    var r0, r1, r2 := Record("A", "f1", Midnight(Date(2022, 4, 1))), Record("A", "f2", Midnight(Date(2022, 4, 1))),
                      Record("B", "f3", Midnight(Date(2022, 4, 1)));
    assert "A" != "B" by { assert "A"[0] != "B"[0]; }
    ExampleViews("A", "B", r0, r1, r2);
    ExampleKeys("A", "B");
    assert FollowersOf([r0, r1, r2], "A")[1..] == ["f2"];
  }

  lemma ExampleViews(a: Uid, b: Uid, r0: Record, r1: Record, r2: Record)
    requires a != b && r0.influencer == a && r1.influencer == a && r2.influencer == b
    ensures Influencers([r0, r1, r2]) == [a, a, b]
    ensures FollowersOf([r0, r1, r2], a) == [r0.follower, r1.follower]
    ensures FollowersOf([r0, r1, r2], b) == [r2.follower]
  {
    assert [r0] == [] + [r0] && [r0, r1] == [r0] + [r1] && [r0, r1, r2] == [r0, r1] + [r2];
    ViewsSnoc([], r0);
    ViewsSnoc([r0], r1);
    ViewsSnoc([r0, r1], r2);
  }

  lemma ExampleKeys(a: Uid, b: Uid)
    requires a != b
    ensures FirstAppearances([a, a, b]) == [a, b]
  {
    var ids := [a, a, b];
    assert ids[..2] == [a, a] && ids[..2][..1] == [a] && [a][..0] == [];
    assert FirstAppearances([a]) == [a];
    assert FirstAppearances([a, a]) == [a];
  }
}
