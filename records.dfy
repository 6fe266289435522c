/**
 * Follow and engagement records, and the views of a list of records that the
 * counting and grouping routines are specified by.
 */
module Records {
  import opened Dates

  /** Influencer and follower ids are the strings found in the datasets. */
  type Uid = string

  /**
   * One follow record (`follow_timestamp`) or engagement record (`engaged_dt`);
   * `stamp` is the parsed timestamp.
   */
  datatype Record = Record(influencer: Uid, follower: Uid, stamp: DateTime)

  /** The follower id of every record, in order. */
  function Followers(rs: seq<Record>): (fs: seq<Uid>)
    ensures |fs| == |rs|
  {
    if rs == [] then [] else Followers(rs[..|rs| - 1]) + [rs[|rs| - 1].follower]
  }

  /** The influencer id of every record, in order. */
  function Influencers(rs: seq<Record>): (ids: seq<Uid>)
    ensures |ids| == |rs|
  {
    if rs == [] then [] else Influencers(rs[..|rs| - 1]) + [rs[|rs| - 1].influencer]
  }

  /** The follower ids of the records of influencer `who`, in order, repeats kept. */
  function FollowersOf(rs: seq<Record>, who: Uid): (fs: seq<Uid>)
    ensures |fs| <= |rs|
  {
    if rs == [] then []
    else
      var last := rs[|rs| - 1];
      FollowersOf(rs[..|rs| - 1], who) + (if last.influencer == who then [last.follower] else [])
  }

  /** How many records belong to influencer `who`. */
  function Occurrences(rs: seq<Record>, who: Uid): nat
  {
    |FollowersOf(rs, who)|
  }

  /** The distinct values of a list. */
  function Elements(xs: seq<Uid>): (es: set<Uid>)
    ensures forall x :: x in es <==> x in xs
  {
    if xs == [] then {} else Elements(xs[..|xs| - 1]) + {xs[|xs| - 1]}
  }

  lemma ElementsSnoc(xs: seq<Uid>, x: Uid)
    ensures Elements(xs + [x]) == Elements(xs) + {x}
  {
    assert (xs + [x])[..|xs|] == xs;
  }

  lemma FollowersSnoc(rs: seq<Record>, r: Record)
    ensures Followers(rs + [r]) == Followers(rs) + [r.follower]
  {
    assert (rs + [r])[..|rs|] == rs;
  }

  /** Every follower listed for `who` comes from one of `who`'s records. */
  lemma {:induction false} FollowersOfSource(rs: seq<Record>, who: Uid, f: Uid)
    requires f in FollowersOf(rs, who)
    ensures exists k :: 0 <= k < |rs| && rs[k].influencer == who && rs[k].follower == f
  {
    var init, last := rs[..|rs| - 1], rs[|rs| - 1];
    if f in FollowersOf(init, who) {
      FollowersOfSource(init, who, f);
      var k :| 0 <= k < |init| && init[k].influencer == who && init[k].follower == f;
      assert rs[k] == init[k];
    } else {
      assert last.influencer == who && last.follower == f;
    }
  }

  /** An influencer without records has no followers. */
  lemma {:induction false} NoRecordNoFollowers(rs: seq<Record>, who: Uid)
    requires who !in Influencers(rs)
    ensures FollowersOf(rs, who) == []
  {
    if rs != [] {
      assert Influencers(rs[..|rs| - 1]) == Influencers(rs)[..|rs| - 1];
      NoRecordNoFollowers(rs[..|rs| - 1], who);
    }
  }
}
