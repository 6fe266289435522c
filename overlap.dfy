/**
 * `get_overlap`: for every pair of keys i < j of an influencer map, in
 * insertion order, each follower in list i (repeats included) that also occurs
 * in list j is converted to an integer and appended to the result.
 */
module Overlap {
  import opened Records
  import opened Grouping

  datatype Option<T> = None | Some(value: T)

  // ----- The integer conversion -----

  predicate IsDigit(c: char)
  {
    '0' <= c <= '9'
  }

  /** A non-empty string of ASCII decimal digits: the ids `int` is modelled as accepting. */
  predicate IsDigitString(s: string)
  {
    |s| > 0 && forall k :: 0 <= k < |s| ==> IsDigit(s[k])
  }

  /** The number a string of decimal digits denotes. */
  function DecimalValue(s: string): nat
    requires forall k :: 0 <= k < |s| ==> IsDigit(s[k])
  {
    if s == [] then 0
    else
      assert IsDigit(s[|s| - 1]);
      10 * DecimalValue(s[..|s| - 1]) + ((s[|s| - 1] as int) - ('0' as int))
  }

  /** The decimal digits of `n`, without leading zeros. */
  function DecimalString(n: nat): (s: string)
    ensures IsDigitString(s)
  {
    var d := ['0' + ((n % 10) as char)];
    if n < 10 then d else DecimalString(n / 10) + d
  }

  /** Reading back the digits of a number gives the number. */
  lemma {:induction false} DecimalRoundTrip(n: nat)
    ensures DecimalValue(DecimalString(n)) == n
  {
    var s := DecimalString(n);
    if n >= 10 {
      DecimalRoundTrip(n / 10);
      assert s[..|s| - 1] == DecimalString(n / 10);
    }
  }

  /** Leading zeros do not change the value, so "007" and "7" convert to the same integer. */
  lemma {:induction false} LeadingZero(s: string)
    requires forall k :: 0 <= k < |s| ==> IsDigit(s[k])
    ensures DecimalValue("0" + s) == DecimalValue(s)
  {
    if s != [] {
      var init := s[..|s| - 1];
      assert ("0" + s)[..|s|] == "0" + init;
      LeadingZero(init);
    }
  }

  predicate AllDigitStrings(xs: seq<Uid>)
  {
    forall k :: 0 <= k < |xs| ==> IsDigitString(xs[k])
  }

  /** `int(x)` for every element. */
  function Decimals(xs: seq<Uid>): (ns: seq<nat>)
    requires AllDigitStrings(xs)
    ensures |ns| == |xs|
  {
    if xs == [] then [] else Decimals(xs[..|xs| - 1]) + [DecimalValue(xs[|xs| - 1])]
  }

  // ----- The overlap, as ids -----

  /** The elements of `xs` that occur in `ys`, in the order of `xs`, repeats kept. */
  function Common(xs: seq<Uid>, ys: seq<Uid>): (cs: seq<Uid>)
    ensures |cs| <= |xs|
  {
    if xs == [] then []
    else
      var last := xs[|xs| - 1];
      Common(xs[..|xs| - 1], ys) + (if last in ys then [last] else [])
  }

  /** The list of the `i`-th key. */
  function List(m: InfluencerMap, i: nat): seq<Uid>
    requires m.Valid() && i < |m.keys|
  {
    m.lists[m.keys[i]]
  }

  /** What pairs (i, i + 1), ..., (i, j - 1) contribute. */
  function RowOverlap(m: InfluencerMap, i: nat, j: nat): seq<Uid>
    requires m.Valid() && i < |m.keys| && j <= |m.keys|
  {
    if j <= i + 1 then [] else RowOverlap(m, i, j - 1) + Common(List(m, i), List(m, j - 1))
  }

  /** What the rows of the first `i` keys contribute. */
  function OverlapBefore(m: InfluencerMap, i: nat): seq<Uid>
    requires m.Valid() && i <= |m.keys|
  {
    if i == 0 then [] else OverlapBefore(m, i - 1) + RowOverlap(m, i - 1, |m.keys|)
  }

  /** The concatenation, over all key pairs i < j, of the elements of list i that occur in list j. */
  function OverlapIds(m: InfluencerMap): seq<Uid>
    requires m.Valid()
  {
    OverlapBefore(m, |m.keys|)
  }

  /**
   * `get_overlap`. `None` stands for the error `int` raises on an overlapping
   * follower id that is not a decimal number.
   */
  method GetOverlap(m: InfluencerMap) returns (result: Option<seq<nat>>)
    requires m.Valid()
    ensures result.Some? <==> AllDigitStrings(OverlapIds(m))
    ensures result.Some? ==> result.value == Decimals(OverlapIds(m))
  {
    var overlap: seq<nat> := [];
    var i := 0;
    while i < |m.keys|
      invariant 0 <= i <= |m.keys|
      invariant AllDigitStrings(OverlapBefore(m, i))
      invariant overlap == Decimals(OverlapBefore(m, i))
    {
      var extended := AppendRow(m, i, overlap);
      if extended.None? {
        RowSpoilsOverlap(m, i);
        return None;
      }
      DecimalsAppend(OverlapBefore(m, i), RowOverlap(m, i, |m.keys|));
      overlap := extended.value;
      i := i + 1;
    }
    result := Some(overlap);
  }

  /**
   * The loop over the keys after the `i`-th: for each, the followers of key
   * `i` that the later key also has are converted and appended to `overlap`.
   */
  method AppendRow(m: InfluencerMap, i: nat, overlap: seq<nat>) returns (extended: Option<seq<nat>>)
    requires m.Valid() && i < |m.keys|
    ensures extended.Some? <==> AllDigitStrings(RowOverlap(m, i, |m.keys|))
    ensures extended.Some? ==> extended.value == overlap + Decimals(RowOverlap(m, i, |m.keys|))
  {
    var result := overlap;
    var j := i + 1;
    while j < |m.keys|
      invariant i + 1 <= j <= |m.keys|
      invariant AllDigitStrings(RowOverlap(m, i, j))
      invariant result == overlap + Decimals(RowOverlap(m, i, j))
    {
      var pair := AppendCommon(result, List(m, i), List(m, j));
      if pair.None? {
        PairSpoilsRow(m, i, j);
        return None;
      }
      var row, common := RowOverlap(m, i, j), Common(List(m, i), List(m, j));
      DecimalsAppend(row, common);
      assert RowOverlap(m, i, j + 1) == row + common;
      assert pair.value == overlap + Decimals(row + common);
      result := pair.value;
      j := j + 1;
    }
    extended := Some(result);
  }

  /**
   * The loop over one pair of lists: every follower of `list` that occurs in
   * `other` is converted and appended to `overlap`; `None` when one of them
   * is not a decimal number.
   */
  method AppendCommon(overlap: seq<nat>, list: seq<Uid>, other: seq<Uid>) returns (extended: Option<seq<nat>>)
    ensures extended.Some? <==> AllDigitStrings(Common(list, other))
    ensures extended.Some? ==> extended.value == overlap + Decimals(Common(list, other))
  {
    var result := overlap;
    var t := 0;
    while t < |list|
      invariant 0 <= t <= |list|
      invariant AllDigitStrings(Common(list[..t], other))
      invariant result == overlap + Decimals(Common(list[..t], other))
    {
      var follower := list[t];
      CommonStep(list, other, t);
      if follower in other {
        if !IsDigitString(follower) {
          NotAllDigits(list, other, t);
          return None;
        }
        DecimalsSnoc(Common(list[..t], other), follower);
        assert result + [DecimalValue(follower)] == overlap + (Decimals(Common(list[..t], other)) + [DecimalValue(follower)]);
        result := result + [DecimalValue(follower)];
      }
      t := t + 1;
    }
    assert list[..t] == list;
    extended := Some(result);
  }

  /** A common follower of keys i < j that is not a decimal number spoils row i. */
  lemma PairSpoilsRow(m: InfluencerMap, i: nat, j: nat)
    requires m.Valid() && i < j < |m.keys|
    requires !AllDigitStrings(Common(List(m, i), List(m, j)))
    ensures !AllDigitStrings(RowOverlap(m, i, |m.keys|))
  {
    var c := Common(List(m, i), List(m, j));
    var k :| 0 <= k < |c| && !IsDigitString(c[k]);
    CommonMembers(List(m, i), List(m, j), c[k]);
    RowMembers(m, i, |m.keys|, c[k]);
    Spoils(RowOverlap(m, i, |m.keys|), c[k]);
  }

  /** An id of row i that is not a decimal number spoils the whole overlap. */
  lemma RowSpoilsOverlap(m: InfluencerMap, i: nat)
    requires m.Valid() && i < |m.keys|
    requires !AllDigitStrings(RowOverlap(m, i, |m.keys|))
    ensures !AllDigitStrings(OverlapIds(m))
  {
    var r := RowOverlap(m, i, |m.keys|);
    var k :| 0 <= k < |r| && !IsDigitString(r[k]);
    RowMembers(m, i, |m.keys|, r[k]);
    OverlapMembers(m, r[k]);
    Spoils(OverlapIds(m), r[k]);
  }

  lemma Spoils(xs: seq<Uid>, x: Uid)
    requires x in xs && !IsDigitString(x)
    ensures !AllDigitStrings(xs)
  {
  }

  /** The follower at `t`, common and not a number, spoils every longer prefix. */
  lemma NotAllDigits(list: seq<Uid>, other: seq<Uid>, t: nat)
    requires t < |list| && list[t] in other && !IsDigitString(list[t])
    ensures !AllDigitStrings(Common(list, other))
  {
    CommonMembers(list, other, list[t]);
    Spoils(Common(list, other), list[t]);
  }

  lemma CommonStep(xs: seq<Uid>, ys: seq<Uid>, t: nat)
    requires t < |xs|
    ensures xs[t] in ys ==> Common(xs[..t + 1], ys) == Common(xs[..t], ys) + [xs[t]]
    ensures xs[t] !in ys ==> Common(xs[..t + 1], ys) == Common(xs[..t], ys)
  {
    assert xs[..t + 1][..t] == xs[..t];
    assert Common(xs[..t], ys) + [] == Common(xs[..t], ys);
  }

  lemma DecimalsSnoc(xs: seq<Uid>, x: Uid)
    requires AllDigitStrings(xs) && IsDigitString(x)
    ensures AllDigitStrings(xs + [x])
    ensures Decimals(xs + [x]) == Decimals(xs) + [DecimalValue(x)]
  {
    assert (xs + [x])[..|xs|] == xs;
  }

  lemma {:induction false} DecimalsAppend(xs: seq<Uid>, ys: seq<Uid>)
    requires AllDigitStrings(xs) && AllDigitStrings(ys)
    ensures AllDigitStrings(xs + ys)
    ensures Decimals(xs + ys) == Decimals(xs) + Decimals(ys)
  {
    if ys != [] {
      var init, last := ys[..|ys| - 1], ys[|ys| - 1];
      DecimalsAppend(xs, init);
      assert xs + ys == (xs + init) + [last];
      DecimalsSnoc(xs + init, last);
      assert Decimals(ys) == Decimals(init) + [DecimalValue(last)];
      assert Decimals(xs) + Decimals(ys) == (Decimals(xs) + Decimals(init)) + [DecimalValue(last)];
    } else {
      assert xs + ys == xs;
      assert Decimals(xs) + Decimals(ys) == Decimals(xs);
    }
  }

  // ----- Properties -----

  /** An element is common exactly when it occurs in both lists. */
  lemma {:induction false} CommonMembers(xs: seq<Uid>, ys: seq<Uid>, x: Uid)
    ensures x in Common(xs, ys) <==> x in xs && x in ys
  {
    if xs != [] {
      CommonMembers(xs[..|xs| - 1], ys, x);
      assert xs == xs[..|xs| - 1] + [xs[|xs| - 1]];
    }
  }

  /** Each element of list i keeps its multiplicity when it occurs in list j, and is dropped otherwise. */
  lemma {:induction false} CommonMultiplicity(xs: seq<Uid>, ys: seq<Uid>, x: Uid)
    ensures multiset(Common(xs, ys))[x] == if x in ys then multiset(xs)[x] else 0
  {
    if xs != [] {
      var init, last := xs[..|xs| - 1], xs[|xs| - 1];
      CommonMultiplicity(init, ys, x);
      assert xs == init + [last];
    }
  }

  lemma {:induction false} RowMembers(m: InfluencerMap, i: nat, j: nat, x: Uid)
    requires m.Valid() && i < |m.keys| && j <= |m.keys|
    ensures x in RowOverlap(m, i, j) <==> exists j' :: i < j' < j && x in List(m, i) && x in List(m, j')
  {
    if j > i + 1 {
      RowMembers(m, i, j - 1, x);
      CommonMembers(List(m, i), List(m, j - 1), x);
    }
  }

  lemma {:induction false} BeforeMembers(m: InfluencerMap, i: nat, x: Uid)
    requires m.Valid() && i <= |m.keys|
    ensures x in OverlapBefore(m, i) <==>
      exists a, b :: 0 <= a < i && a < b < |m.keys| && x in List(m, a) && x in List(m, b)
  {
    if x in OverlapBefore(m, i) {
      BeforeSound(m, i, x);
    }
    if exists a, b :: 0 <= a < i && a < b < |m.keys| && x in List(m, a) && x in List(m, b) {
      var a, b :| 0 <= a < i && a < b < |m.keys| && x in List(m, a) && x in List(m, b);
      BeforeComplete(m, i, x, a, b);
    }
  }

  lemma {:induction false} BeforeSound(m: InfluencerMap, i: nat, x: Uid)
    requires m.Valid() && i <= |m.keys| && x in OverlapBefore(m, i)
    ensures exists a, b :: 0 <= a < i && a < b < |m.keys| && x in List(m, a) && x in List(m, b)
  {
    assert OverlapBefore(m, i) == OverlapBefore(m, i - 1) + RowOverlap(m, i - 1, |m.keys|);
    if x in OverlapBefore(m, i - 1) {
      BeforeSound(m, i - 1, x);
      var a, b :| 0 <= a < i - 1 && a < b < |m.keys| && x in List(m, a) && x in List(m, b);
      assert 0 <= a < i && a < b < |m.keys| && x in List(m, a) && x in List(m, b);
    } else {
      RowMembers(m, i - 1, |m.keys|, x);
      var b :| i - 1 < b < |m.keys| && x in List(m, i - 1) && x in List(m, b);
      assert 0 <= i - 1 < i && i - 1 < b < |m.keys| && x in List(m, i - 1) && x in List(m, b);
    }
  }

  lemma {:induction false} BeforeComplete(m: InfluencerMap, i: nat, x: Uid, a: nat, b: nat)
    requires m.Valid() && i <= |m.keys| && a < i && a < b < |m.keys|
    requires x in List(m, a) && x in List(m, b)
    ensures x in OverlapBefore(m, i)
  {
    var rest, row := OverlapBefore(m, i - 1), RowOverlap(m, i - 1, |m.keys|);
    assert OverlapBefore(m, i) == rest + row;
    if a < i - 1 {
      BeforeComplete(m, i - 1, x, a, b);
      assert x in rest;
    } else {
      RowMembers(m, i - 1, |m.keys|, x);
      assert x in row;
    }
  }

  /**
   * An id is in the overlap exactly when it is in the lists of two different
   * keys, that is of two distinct influencers.
   */
  lemma OverlapMembers(m: InfluencerMap, x: Uid)
    requires m.Valid()
    ensures x in OverlapIds(m) <==>
      exists a, b :: 0 <= a < b < |m.keys| && x in List(m, a) && x in List(m, b)
  {
    BeforeMembers(m, |m.keys|, x);
  }

  /** With fewer than two keys there is no pair, so the overlap is empty. */
  lemma FewerThanTwoKeys(m: InfluencerMap)
    requires m.Valid() && |m.keys| < 2
    ensures OverlapIds(m) == []
  {
    if |m.keys| == 1 {
      assert OverlapBefore(m, 1) == OverlapBefore(m, 0) + RowOverlap(m, 0, 1);
    }
  }

  // ----- Worked example -----

  /** Two keys whose lists share x2 and x3: the overlap is [x2, x3], in the first list's order. */
  lemma PairExample(a: Uid, b: Uid, x1: Uid, x2: Uid, x3: Uid, x4: Uid)
    requires a != b && x1 != x2 && x1 != x3 && x1 != x4
    ensures OverlapIds(InfluencerMap([a, b], map[a := [x1, x2, x3], b := [x2, x3, x4]])) == [x2, x3]
  {
    var m := InfluencerMap([a, b], map[a := [x1, x2, x3], b := [x2, x3, x4]]);
    assert m.Valid();
    assert List(m, 0) == [x1, x2, x3] && List(m, 1) == [x2, x3, x4];
    CommonExample(x1, x2, x3, x4);
    assert RowOverlap(m, 0, 2) == [x2, x3];
    assert RowOverlap(m, 1, 2) == [];
    assert OverlapBefore(m, 1) == [x2, x3];
  }

  lemma CommonExample(x1: Uid, x2: Uid, x3: Uid, x4: Uid)
    requires x1 != x2 && x1 != x3 && x1 != x4
    ensures Common([x1, x2, x3], [x2, x3, x4]) == [x2, x3]
  {
    var xs, ys := [x1, x2, x3], [x2, x3, x4];
    assert xs[..0] == [] && xs[..3] == xs;
    CommonStep(xs, ys, 0);
    CommonStep(xs, ys, 1);
    CommonStep(xs, ys, 2);
  }

  /** The map {A: ["1", "2", "3"], B: ["2", "3", "4"]} converts to the overlap [2, 3]. */
  lemma OverlapExample()
    ensures var m := InfluencerMap(["A", "B"], map["A" := ["1", "2", "3"], "B" := ["2", "3", "4"]]);
      m.Valid() && AllDigitStrings(OverlapIds(m)) && Decimals(OverlapIds(m)) == [2, 3]
  {
    var m := InfluencerMap(["A", "B"], map["A" := ["1", "2", "3"], "B" := ["2", "3", "4"]]);
    assert m.Valid() by { assert "A"[0] != "B"[0]; }
    assert "1"[0] != "2"[0] && "1"[0] != "3"[0] && "1"[0] != "4"[0];
    PairExample("A", "B", "1", "2", "3", "4");
    DigitsExample();
  }

  lemma DigitsExample()
    ensures AllDigitStrings(["2", "3"]) && Decimals(["2", "3"]) == [2, 3]
  {
    assert ["2", "3"][..1] == ["2"] && ["2"][..0] == [];
    assert "2"[..0] == [] && "3"[..0] == [];
  }
}
