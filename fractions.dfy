/**
 * The two fraction calculators: `calculate_fraction_of_followers` and
 * `calculate_fraction_of_engangers`. Both go through the records once,
 * skip some of them, count a kept record as shared when its follower id was
 * already seen among the kept records, count kept records per influencer, and
 * divide the shared count by the smaller of the two per-influencer counts.
 */
module Fractions {
  import opened Dates
  import opened Records

  /** The followers calculator skips follows dated after this day. */
  const FollowCutoff := Date(2022, 4, 30)
  /** The bounds of the engagers calculator's date clause. */
  const EngagementLower := Date(2022, 4, 22)
  const EngagementUpper := Date(2022, 4, 30)

  /**
   * The followers calculator's skip condition, with Python's precedence:
   * `truncated date > cutoff or (influencer != i1 and influencer != i2)`.
   */
  predicate FollowSkipped(i1: Uid, i2: Uid, r: Record)
  {
    Before(Midnight(FollowCutoff), Truncate(r.stamp)) || (r.influencer != i1 && r.influencer != i2)
  }

  /**
   * The engagers calculator's skip condition, with Python's precedence:
   * `(dt < lower and dt > upper) or (influencer != i1 and influencer != i2)`.
   */
  predicate EngagementSkipped(i1: Uid, i2: Uid, r: Record)
  {
    (Before(r.stamp, Midnight(EngagementLower)) && Before(Midnight(EngagementUpper), r.stamp)) ||
    (r.influencer != i1 && r.influencer != i2)
  }

  /** The records the followers calculator counts. */
  function FollowCounted(i1: Uid, i2: Uid): Record -> bool
  {
    r => !FollowSkipped(i1, i2, r)
  }

  /** The records the engagers calculator counts. */
  function EngagementCounted(i1: Uid, i2: Uid): Record -> bool
  {
    r => !EngagementSkipped(i1, i2, r)
  }

  /** The records that pass `counted`, in input order. */
  function Kept(rs: seq<Record>, counted: Record -> bool): (ks: seq<Record>)
    ensures |ks| <= |rs|
  {
    if rs == [] then []
    else
      var last := rs[|rs| - 1];
      Kept(rs[..|rs| - 1], counted) + (if counted(last) then [last] else [])
  }

  /** How many entries of `xs` repeat a value that occurs earlier in `xs`. */
  function Repeats(xs: seq<Uid>): nat
  {
    if xs == [] then 0
    else Repeats(xs[..|xs| - 1]) + (if xs[|xs| - 1] in xs[..|xs| - 1] then 1 else 0)
  }

  function Min(a: nat, b: nat): nat
  {
    if a <= b then a else b
  }

  /** `shared / least`, or 0 when `least` is 0, as an exact rational. */
  function Ratio(shared: nat, least: nat): (q: real)
    ensures q >= 0.0
    ensures least == 0 ==> q == 0.0
    ensures least > 0 ==> q * (least as real) == shared as real
  {
    if least == 0 then 0.0 else (shared as real) / (least as real)
  }

  /** The state of a calculator's loop: shared count, the two per-influencer counts, the seen set. */
  datatype Tally = Tally(shared: nat, count1: nat, count2: nat, seen: set<Uid>)

  /** The value a calculator returns for its kept records `ks`. */
  function Fraction(i1: Uid, ks: seq<Record>): real
  {
    Ratio(Repeats(Followers(ks)), Min(Occurrences(ks, i1), |ks| - Occurrences(ks, i1)))
  }

  /**
   * The loop shared by both calculators. A record that fails `counted` is
   * skipped; otherwise its follower is shared if already seen and added to the
   * seen set if not, and the record goes to `count1` when its influencer is
   * `i1` and to `count2` otherwise.
   */
  method CountRecords(i1: Uid, records: seq<Record>, counted: Record -> bool) returns (t: Tally)
    ensures Summarises(t, i1, Kept(records, counted))
    ensures t.shared + |t.seen| == |Kept(records, counted)|
  {
    var seen: set<Uid> := {};
    var shared: nat, count1: nat, count2: nat := 0, 0, 0;
    ghost var kept: seq<Record> := [];
    var i := 0;
    assert records[..0] == [];
    while i < |records|
      invariant 0 <= i <= |records|
      invariant kept == Kept(records[..i], counted)
      invariant Summarises(Tally(shared, count1, count2, seen), i1, kept)
    {
      var r := records[i];
      KeptStep(records, i, counted);
      if counted(r) {
        CountStep(Tally(shared, count1, count2, seen), i1, kept, r);
        if r.follower in seen {
          shared := shared + 1;
        } else {
          seen := seen + {r.follower};
        }
        if r.influencer == i1 {
          count1 := count1 + 1;
        } else {
          count2 := count2 + 1;
        }
        kept := kept + [r];
      }
      i := i + 1;
    }
    t := Tally(shared, count1, count2, seen);
    CountedAll(t, i1, records, counted, kept);
  }

  /** `calculate_fraction_of_followers`. */
  method FractionOfFollowers(i1: Uid, i2: Uid, records: seq<Record>) returns (fraction: real)
    ensures fraction == Fraction(i1, Kept(records, FollowCounted(i1, i2)))
    ensures fraction >= 0.0
  {
    var t := CountRecords(i1, records, FollowCounted(i1, i2));
    var least := Min(t.count1, t.count2);
    if least == 0 {
      fraction := 0.0;
    } else {
      fraction := (t.shared as real) / (least as real);
    }
  }

  /** `calculate_fraction_of_engangers`. */
  method FractionOfEngagers(i1: Uid, i2: Uid, records: seq<Record>) returns (fraction: real)
    ensures fraction == Fraction(i1, Kept(records, EngagementCounted(i1, i2)))
    ensures fraction >= 0.0
  {
    var t := CountRecords(i1, records, EngagementCounted(i1, i2));
    var least := Min(t.count1, t.count2);
    if least == 0 {
      fraction := 0.0;
    } else {
      fraction := (t.shared as real) / (least as real);
    }
  }

  // ----- Properties -----

  /** Every entry is either a repeat or a first occurrence of a distinct value. */
  lemma {:induction false} RepeatsAndElements(xs: seq<Uid>)
    ensures Repeats(xs) + |Elements(xs)| == |xs|
  {
    if xs != [] {
      var init, last := xs[..|xs| - 1], xs[|xs| - 1];
      RepeatsAndElements(init);
      assert xs == init + [last];
      RepeatsSnoc(init, last);
      assert Elements(xs) == Elements(init) + {last};
      if last !in init {
        assert last !in Elements(init);
        assert |Elements(xs)| == |Elements(init)| + 1;
      } else {
        assert Elements(xs) == Elements(init);
      }
    }
  }

  /** The kept records are exactly the records that pass the filter. */
  lemma {:induction false} KeptMembers(rs: seq<Record>, counted: Record -> bool)
    ensures forall r :: r in Kept(rs, counted) <==> r in rs && counted(r)
  {
    if rs != [] {
      KeptMembers(rs[..|rs| - 1], counted);
      assert rs == rs[..|rs| - 1] + [rs[|rs| - 1]];
    }
  }

  // ----- One step of the loop -----

  /** `t` is what the loop holds after going through the kept records `kept`. */
  predicate Summarises(t: Tally, i1: Uid, kept: seq<Record>)
  {
    && t.seen == Elements(Followers(kept))
    && t.shared == Repeats(Followers(kept))
    && t.count1 == Occurrences(kept, i1)
    && t.count1 + t.count2 == |kept|
  }

  /** Once every record went through the loop, the tally summarises all kept records. */
  lemma CountedAll(t: Tally, i1: Uid, records: seq<Record>, counted: Record -> bool, kept: seq<Record>)
    requires kept == Kept(records[..|records|], counted)
    requires Summarises(t, i1, kept)
    ensures Summarises(t, i1, Kept(records, counted))
    ensures t.shared + |t.seen| == |Kept(records, counted)|
  {
    assert records[..|records|] == records;
    RepeatsAndElements(Followers(kept));
  }

  lemma CountStep(t: Tally, i1: Uid, kept: seq<Record>, r: Record)
    requires Summarises(t, i1, kept)
    ensures Summarises(
      Tally(t.shared + (if r.follower in t.seen then 1 else 0),
            t.count1 + (if r.influencer == i1 then 1 else 0),
            t.count2 + (if r.influencer == i1 then 0 else 1),
            t.seen + {r.follower}),
      i1, kept + [r])
  {
    FollowersSnoc(kept, r);
    RepeatsSnoc(Followers(kept), r.follower);
    OccurrencesSnoc(kept, r, i1);
  }

  lemma KeptStep(rs: seq<Record>, i: nat, counted: Record -> bool)
    requires i < |rs|
    ensures counted(rs[i]) ==> Kept(rs[..i + 1], counted) == Kept(rs[..i], counted) + [rs[i]]
    ensures !counted(rs[i]) ==> Kept(rs[..i + 1], counted) == Kept(rs[..i], counted)
  {
    assert rs[..i + 1][..i] == rs[..i];
    assert Kept(rs[..i], counted) + [] == Kept(rs[..i], counted);
  }

  lemma OccurrencesSnoc(rs: seq<Record>, r: Record, who: Uid)
    ensures Occurrences(rs + [r], who) == Occurrences(rs, who) + (if r.influencer == who then 1 else 0)
  {
    assert (rs + [r])[..|rs|] == rs;
  }

  lemma RepeatsSnoc(xs: seq<Uid>, x: Uid)
    ensures Repeats(xs + [x]) == Repeats(xs) + (if x in xs then 1 else 0)
    ensures Elements(xs + [x]) == Elements(xs) + {x}
  {
    assert (xs + [x])[..|xs|] == xs;
    ElementsSnoc(xs, x);
  }

  /** A follow is counted exactly when its day is on or before the cutoff and it belongs to one of the two influencers. */
  lemma FollowCountedIff(i1: Uid, i2: Uid, r: Record)
    ensures FollowCounted(i1, i2)(r) <==>
      !DateBefore(FollowCutoff, r.stamp.date) && (r.influencer == i1 || r.influencer == i2)
  {
    TruncatedAfter(FollowCutoff, r.stamp);
  }

  /** The engagers' date clause never holds: an engagement is counted exactly when it belongs to one of the two influencers. */
  lemma EngagementCountedIff(i1: Uid, i2: Uid, r: Record)
    ensures EngagementCounted(i1, i2)(r) <==> r.influencer == i1 || r.influencer == i2
  {
    BeforeIsStrictOrder(r.stamp, Midnight(EngagementLower), Midnight(EngagementUpper));
    BeforeIsStrictOrder(Midnight(EngagementUpper), r.stamp, Midnight(EngagementLower));
  }

  /** The fraction is 0 exactly when the smaller count is 0 or nothing is shared. */
  lemma RatioIsZero(shared: nat, least: nat)
    ensures Ratio(shared, least) == 0.0 <==> least == 0 || shared == 0
  {
    if least > 0 {
      assert Ratio(shared, least) * (least as real) == shared as real;
    }
  }

  /** No two records pair the same influencer with the same follower. */
  predicate DistinctPairs(rs: seq<Record>)
  {
    forall a, b :: 0 <= a < b < |rs| ==> rs[a].influencer != rs[b].influencer || rs[a].follower != rs[b].follower
  }

  lemma {:induction false} KeptDistinct(rs: seq<Record>, counted: Record -> bool)
    requires DistinctPairs(rs)
    ensures DistinctPairs(Kept(rs, counted))
  {
    if rs != [] {
      var init, last := rs[..|rs| - 1], rs[|rs| - 1];
      assert DistinctPairs(init) by {
        forall a, b | 0 <= a < b < |init|
          ensures init[a].influencer != init[b].influencer || init[a].follower != init[b].follower
        {
          assert init[a] == rs[a] && init[b] == rs[b];
        }
      }
      KeptDistinct(init, counted);
      KeptMembers(init, counted);
      var ks := Kept(init, counted);
      if counted(last) {
        forall a | 0 <= a < |ks|
          ensures ks[a].influencer != last.influencer || ks[a].follower != last.follower
        {
          assert ks[a] in init;
          var k :| 0 <= k < |init| && init[k] == ks[a];
          assert rs[k] == init[k];
        }
      }
    }
  }

  /** Without duplicate pairs, no follower repeats within one influencer's list. */
  lemma {:induction false} DistinctFollowersOf(rs: seq<Record>, who: Uid)
    requires DistinctPairs(rs)
    ensures Repeats(FollowersOf(rs, who)) == 0
  {
    if rs != [] {
      var init, last := rs[..|rs| - 1], rs[|rs| - 1];
      assert DistinctPairs(init) by {
        forall a, b | 0 <= a < b < |init|
          ensures init[a].influencer != init[b].influencer || init[a].follower != init[b].follower
        {
          assert init[a] == rs[a] && init[b] == rs[b];
        }
      }
      DistinctFollowersOf(init, who);
      if last.influencer == who {
        if last.follower in FollowersOf(init, who) {
          FollowersOfSource(init, who, last.follower);
          assert false;
        }
        assert FollowersOf(rs, who) == FollowersOf(init, who) + [last.follower];
        RepeatsSnoc(FollowersOf(init, who), last.follower);
      } else {
        assert FollowersOf(rs, who) == FollowersOf(init, who);
      }
    }
  }

  /** When every record belongs to `i1` or `i2`, the distinct followers are those of `i1` and those of `i2`. */
  lemma {:induction false} FollowersSplit(ks: seq<Record>, i1: Uid, i2: Uid)
    requires forall r :: r in ks ==> r.influencer == i1 || r.influencer == i2
    ensures Elements(Followers(ks)) == Elements(FollowersOf(ks, i1)) + Elements(FollowersOf(ks, i2))
  {
    if ks != [] {
      var init, last := ks[..|ks| - 1], ks[|ks| - 1];
      assert ks == init + [last];
      FollowersSplit(init, i1, i2);
      FollowersSnoc(init, last);
      ElementsSnoc(Followers(init), last.follower);
      if last.influencer == i1 {
        ElementsSnoc(FollowersOf(init, i1), last.follower);
      }
      if last.influencer == i2 {
        ElementsSnoc(FollowersOf(init, i2), last.follower);
      }
    }
  }

  /** When every record belongs to `i1` or `i2`, the records not of `i1` are those of `i2`. */
  lemma {:induction false} CountsPartition(ks: seq<Record>, i1: Uid, i2: Uid)
    requires forall r :: r in ks ==> r.influencer == i1 || r.influencer == i2
    ensures |ks| - Occurrences(ks, i1) == (if i1 == i2 then 0 else Occurrences(ks, i2))
  {
    if ks != [] {
      var init, last := ks[..|ks| - 1], ks[|ks| - 1];
      assert ks == init + [last];
      CountsPartition(init, i1, i2);
      OccurrencesSnoc(init, last, i1);
      OccurrencesSnoc(init, last, i2);
    }
  }

  /**
   * Without duplicate (influencer, follower) pairs, a shared record is a
   * follower of both influencers, so there are at most as many as the smaller count.
   */
  lemma SharedAtMostLeast(ks: seq<Record>, i1: Uid, i2: Uid)
    requires forall r :: r in ks ==> r.influencer == i1 || r.influencer == i2
    requires DistinctPairs(ks)
    ensures Repeats(Followers(ks)) <= Min(Occurrences(ks, i1), |ks| - Occurrences(ks, i1))
  {
    var a, b := Elements(FollowersOf(ks, i1)), Elements(FollowersOf(ks, i2));
    RepeatsAndElements(Followers(ks));
    FollowersSplit(ks, i1, i2);
    CountsPartition(ks, i1, i2);
    DistinctFollowersOf(ks, i1);
    RepeatsAndElements(FollowersOf(ks, i1));
    DistinctFollowersOf(ks, i2);
    RepeatsAndElements(FollowersOf(ks, i2));
    assert |a - b| == |a| - |a * b|;
    assert |b - a| == |b| - |a * b|;
  }

  lemma AtMostOne(i1: Uid, i2: Uid, ks: seq<Record>)
    requires forall r :: r in ks ==> r.influencer == i1 || r.influencer == i2
    requires DistinctPairs(ks)
    ensures Fraction(i1, ks) <= 1.0
  {
    SharedAtMostLeast(ks, i1, i2);
    var shared, least := Repeats(Followers(ks)), Min(Occurrences(ks, i1), |ks| - Occurrences(ks, i1));
    if least > 0 {
      assert Ratio(shared, least) * (least as real) <= least as real;
    }
  }

  /** Without duplicate follow pairs in the input, the followers fraction is at most 1. */
  lemma FollowersFractionAtMostOne(i1: Uid, i2: Uid, records: seq<Record>)
    requires DistinctPairs(records)
    ensures Fraction(i1, Kept(records, FollowCounted(i1, i2))) <= 1.0
  {
    var ks := Kept(records, FollowCounted(i1, i2));
    KeptMembers(records, FollowCounted(i1, i2));
    KeptDistinct(records, FollowCounted(i1, i2));
    AtMostOne(i1, i2, ks);
  }

  /** Without duplicate engagement pairs in the input, the engagers fraction is at most 1. */
  lemma EngagersFractionAtMostOne(i1: Uid, i2: Uid, records: seq<Record>)
    requires DistinctPairs(records)
    ensures Fraction(i1, Kept(records, EngagementCounted(i1, i2))) <= 1.0
  {
    var ks := Kept(records, EngagementCounted(i1, i2));
    KeptMembers(records, EngagementCounted(i1, i2));
    KeptDistinct(records, EngagementCounted(i1, i2));
    AtMostOne(i1, i2, ks);
  }

  // ----- Worked examples -----

  function Follow(influencer: Uid, follower: Uid, d: Date): Record
  {
    Record(influencer, follower, Midnight(d))
  }

  /** Every record passes the filter: nothing is dropped. */
  lemma {:induction false} KeptEverything(rs: seq<Record>, counted: Record -> bool)
    requires forall k :: 0 <= k < |rs| ==> counted(rs[k])
    ensures Kept(rs, counted) == rs
  {
    if rs != [] {
      KeptEverything(rs[..|rs| - 1], counted);
    }
  }

  /** A shares f1 with B: 2 and 1 counted records, 1 shared, fraction 1. */
  lemma SharedFollowerExample()
    ensures Fraction("A", Kept([Follow("A", "f1", Date(2022, 4, 1)), Follow("A", "f2", Date(2022, 4, 1)),
                               Follow("B", "f1", Date(2022, 4, 15))], FollowCounted("A", "B"))) == 1.0
  {
    var r0, r1, r2 := Follow("A", "f1", Date(2022, 4, 1)), Follow("A", "f2", Date(2022, 4, 1)), Follow("B", "f1", Date(2022, 4, 15));
    var rs := [r0, r1, r2];
    assert Kept(rs, FollowCounted("A", "B")) == rs by {
      KeptEverything(rs, FollowCounted("A", "B"));
    }
    var fs := Followers(rs);
    assert fs == ["f1", "f2", "f1"] by {
      assert [r0] == [] + [r0] && [r0, r1] == [r0] + [r1] && rs == [r0, r1] + [r2];
      FollowersSnoc([], r0);
      FollowersSnoc([r0], r1);
      FollowersSnoc([r0, r1], r2);
    }
    assert Repeats(fs) == 1 by {
      var f1, f2 := "f1", "f2";
      assert f1 != f2 by { assert f1[1] != f2[1]; }
      assert [f1] == [] + [f1] && [f1, f2] == [f1] + [f2] && fs == [f1, f2] + [f1];
      RepeatsSnoc([], f1);
      RepeatsSnoc([f1], f2);
      RepeatsSnoc([f1, f2], f1);
    }
    assert Occurrences(rs, "A") == 2 by {
      assert [r0] == [] + [r0] && [r0, r1] == [r0] + [r1] && rs == [r0, r1] + [r2];
      OccurrencesSnoc([], r0, "A");
      OccurrencesSnoc([r0], r1, "A");
      OccurrencesSnoc([r0, r1], r2, "A");
    }
    assert Fraction("A", rs) == Ratio(1, 1);
    assert Ratio(1, 1) == 1.0;
  }

  /** A follower repeated under one influencer counts as shared too: the fraction can exceed 1. */
  lemma RepeatedFollowerExample()
    ensures Fraction("A", Kept([Follow("A", "f1", Date(2022, 4, 1)), Follow("A", "f1", Date(2022, 4, 1)),
                               Follow("B", "f1", Date(2022, 4, 1))], FollowCounted("A", "B"))) == 2.0
  {
    var a, b := Follow("A", "f1", Date(2022, 4, 1)), Follow("B", "f1", Date(2022, 4, 1));
    var rs := [a, a, b];
    assert Kept(rs, FollowCounted("A", "B")) == rs by {
      KeptEverything(rs, FollowCounted("A", "B"));
    }
    var fs := Followers(rs);
    assert fs == ["f1", "f1", "f1"] by {
      assert [a] == [] + [a] && [a, a] == [a] + [a] && rs == [a, a] + [b];
      FollowersSnoc([], a);
      FollowersSnoc([a], a);
      FollowersSnoc([a, a], b);
    }
    assert Repeats(fs) == 2 by {
      var f1 := "f1";
      assert [f1] == [] + [f1] && [f1, f1] == [f1] + [f1] && fs == [f1, f1] + [f1];
      RepeatsSnoc([], f1);
      RepeatsSnoc([f1], f1);
      RepeatsSnoc([f1, f1], f1);
    }
    assert Occurrences(rs, "A") == 2 by {
      assert [a] == [] + [a] && [a, a] == [a] + [a] && rs == [a, a] + [b];
      OccurrencesSnoc([], a, "A");
      OccurrencesSnoc([a], a, "A");
      OccurrencesSnoc([a, a], b, "A");
    }
    assert Fraction("A", rs) == Ratio(2, 1);
    assert Ratio(2, 1) == 2.0;
  }

  /** Follows dated after the cutoff are not counted, so the fraction is 0. */
  lemma LateFollowsExample()
    ensures Fraction("A", Kept([Follow("A", "f1", Date(2022, 5, 1)), Follow("B", "f1", Date(2022, 5, 2))],
                              FollowCounted("A", "B"))) == 0.0
  {
  }
}
