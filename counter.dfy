/**
 * The part of Python's `collections.Counter` that the server relies on:
 * `Counter(names)` keeps one key per distinct label, in order of first
 * occurrence, `dict(counter)` lists them in that order, and
 * `most_common(1)[0][0]` is the first key (in that order) whose count is
 * largest, since `heapq.nlargest` with n == 1 falls back on `max`, which
 * keeps the first maximal element.
 */
module Counter {
  import opened Payload

  /** `counter[x]`: how many times x occurs. */
  function Count(names: seq<string>, x: string): (c: nat)
    ensures c <= |names|
    ensures c > 0 <==> x in names
  {
    if names == [] then 0
    else
      var init := names[..|names| - 1];
      assert names == init + [names[|names| - 1]];
      Count(init, x) + (if names[|names| - 1] == x then 1 else 0)
  }

  ghost predicate NoDuplicates(xs: seq<string>)
  {
    forall i, j :: 0 <= i < j < |xs| ==> xs[i] != xs[j]
  }

  /** The keys of `Counter(names)`: each label once, in order of first occurrence. */
  function Distinct(names: seq<string>): (d: seq<string>)
    ensures NoDuplicates(d)
    ensures forall x :: x in d <==> x in names
    ensures |d| <= |names|
  {
    if names == [] then []
    else
      var init := names[..|names| - 1];
      var last := names[|names| - 1];
      assert names == init + [last];
      var d := Distinct(init);
      if last in d then d else d + [last]
  }

  /** Index of the first occurrence of x. */
  function FirstIndexOf(names: seq<string>, x: string): (i: nat)
    requires x in names
    ensures i < |names| && names[i] == x
    ensures forall j :: 0 <= j < i ==> names[j] != x
  {
    if names[0] == x then 0 else 1 + FirstIndexOf(names[1..], x)
  }

  lemma {:induction false} FirstIndexOfExtend(names: seq<string>, y: string, x: string)
    requires x in names
    ensures x in names + [y] && FirstIndexOf(names + [y], x) == FirstIndexOf(names, x)
  {
    if names[0] != x {
      assert (names + [y])[1..] == names[1..] + [y];
      FirstIndexOfExtend(names[1..], y, x);
    }
  }

  /** The keys come out in order of first occurrence. */
  lemma {:induction false} DistinctInFirstOccurrenceOrder(names: seq<string>, i: nat, j: nat)
    requires i < j < |Distinct(names)|
    ensures FirstIndexOf(names, Distinct(names)[i]) < FirstIndexOf(names, Distinct(names)[j])
  {
    var init := names[..|names| - 1];
    var last := names[|names| - 1];
    assert names == init + [last];
    var d := Distinct(init);
    var x, y := Distinct(names)[i], Distinct(names)[j];
    if last in d {
      DistinctInFirstOccurrenceOrder(init, i, j);
      FirstIndexOfExtend(init, last, x);
      FirstIndexOfExtend(init, last, y);
    } else {
      FirstIndexOfExtend(init, last, x);
      if j < |d| {
        DistinctInFirstOccurrenceOrder(init, i, j);
        FirstIndexOfExtend(init, last, y);
      } else {
        assert y == last && last !in init;
        assert FirstIndexOf(names, y) == |init|;
      }
    }
  }

  /** The (key, count) pairs of the given keys. */
  function Tally(keys: seq<string>, names: seq<string>): (t: seq<(string, nat)>)
    ensures Keys(t) == keys
    ensures forall i :: 0 <= i < |t| ==> t[i].1 == Count(names, keys[i])
  {
    seq(|keys|, i requires 0 <= i < |keys| => (keys[i], Count(names, keys[i])))
  }

  /** `dict(Counter(names))`. */
  function Distribution(names: seq<string>): (dist: seq<(string, nat)>)
    ensures Keys(dist) == Distinct(names)
    ensures forall i :: 0 <= i < |dist| ==> dist[i].1 == Count(names, dist[i].0) && dist[i].1 > 0
  {
    Tally(Distinct(names), names)
  }

  /** Appending one name adds one to the total of the keys that include it. */
  lemma {:induction false} TallyExtend(keys: seq<string>, names: seq<string>, x: string)
    requires NoDuplicates(keys)
    ensures CountTotal(Tally(keys, names + [x])) == CountTotal(Tally(keys, names)) + (if x in keys then 1 else 0)
  {
    if keys != [] {
      assert Tally(keys, names + [x])[1..] == Tally(keys[1..], names + [x]);
      assert Tally(keys, names)[1..] == Tally(keys[1..], names);
      assert (names + [x])[..|names|] == names;
      TallyExtend(keys[1..], names, x);
    }
  }

  /** The counts add up to the number of names. */
  lemma {:induction false} DistributionTotal(names: seq<string>)
    ensures CountTotal(Distribution(names)) == |names|
  {
    if names != [] {
      var init := names[..|names| - 1];
      var last := names[|names| - 1];
      assert names == init + [last];
      DistributionTotal(init);
      var d := Distinct(init);
      TallyExtend(d, init, last);
      if last !in d {
        assert Tally(d + [last], names) == Tally(d, names) + [(last, Count(names, last))];
        CountTotalAppend(Tally(d, names), (last, Count(names, last)));
        assert Count(init, last) == 0;
      }
    }
  }

  /** The index of the first largest count. */
  function FirstMaxIndex(entries: seq<(string, nat)>): (i: nat)
    requires |entries| > 0
    ensures i < |entries|
    ensures forall j :: 0 <= j < |entries| ==> entries[j].1 <= entries[i].1
    ensures forall j :: 0 <= j < i ==> entries[j].1 < entries[i].1
  {
    if |entries| == 1 then 0
    else
      var i := FirstMaxIndex(entries[..|entries| - 1]);
      if entries[|entries| - 1].1 > entries[i].1 then |entries| - 1 else i
  }

  /** `Counter(names).most_common(1)[0][0]`. */
  function MostCommon(names: seq<string>): (top: string)
    requires |names| > 0
    ensures top in names
  {
    var dist := Distribution(names);
    assert names[0] in Distinct(names);
    assert Keys(dist)[FirstMaxIndex(dist)] in Distinct(names);
    dist[FirstMaxIndex(dist)].0
  }

  lemma IndexInDistribution(names: seq<string>, y: string) returns (j: nat)
    requires y in names
    ensures j < |Distribution(names)| && Distribution(names)[j].0 == y
  {
    var d := Distinct(names);
    j :| 0 <= j < |d| && d[j] == y;
    assert Keys(Distribution(names))[j] == y;
  }

  /** The majority label occurs at least as often as any other label. */
  lemma MostCommonIsMaximal(names: seq<string>, y: string)
    requires |names| > 0
    ensures Count(names, MostCommon(names)) >= Count(names, y)
  {
    if y in names {
      var j := IndexInDistribution(names, y);
    }
  }

  /** Ties go to the label seen first. */
  lemma MostCommonTieBreak(names: seq<string>, y: string)
    requires |names| > 0 && y in names && y != MostCommon(names)
    requires Count(names, y) == Count(names, MostCommon(names))
    ensures FirstIndexOf(names, MostCommon(names)) < FirstIndexOf(names, y)
  {
    var dist := Distribution(names);
    var i := FirstMaxIndex(dist);
    var j := IndexInDistribution(names, y);
    assert Keys(dist) == Distinct(names);
    assert i != j;
    assert !(j < i);
    DistinctInFirstOccurrenceOrder(names, i, j);
  }
}
