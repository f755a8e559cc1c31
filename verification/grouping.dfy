/** Grouping the rows of one inference call by class label: every row's
    class index is resolved through the call's own name table, and its score
    is appended to that label's list in an insertion-ordered dictionary.
    Scores are carried, never inspected, so their type is a parameter. */
module Grouping {

  /** One detection row. The four box coordinates that precede the score are
      discarded by the grouping and are not kept; `clsId` is the class index
      after the conversion to an integer. */
  datatype Detection<S> = Detection(score: S, clsId: int)

  /** The lookup `names[cls_id]` fails for an index the table lacks. */
  datatype GroupError = MissingClass(clsId: int)

  datatype Result<T> = Ok(value: T) | Err(error: GroupError)

  /** An insertion-ordered dictionary from label to scores: `labels` lists the
      keys in the order they were first inserted, `scores` holds the lists. */
  datatype GroupedDefects<S> = GroupedDefects(labels: seq<string>, scores: map<string, seq<S>>)

  predicate Distinct(s: seq<string>) {
    forall i, j :: 0 <= i < j < |s| ==> s[i] != s[j]
  }

  /** The keys are listed once each, exactly the keys of the dictionary, and
      every list holds at least the score that created it. */
  ghost predicate WellFormed<S>(g: GroupedDefects<S>) {
    && Distinct(g.labels)
    && (forall l :: l in g.scores <==> l in g.labels)
    && (forall l :: l in g.scores ==> g.scores[l] != [])
  }

  /** Every row's class index is in the name table. */
  predicate AllResolved<S>(dets: seq<Detection<S>>, names: map<int, string>) {
    forall i :: 0 <= i < |dets| ==> dets[i].clsId in names
  }

  /** Row `i` is the first whose class index the table lacks. */
  predicate FirstMissingAt<S>(dets: seq<Detection<S>>, names: map<int, string>, i: int) {
    0 <= i < |dets| && dets[i].clsId !in names && AllResolved(dets[..i], names)
  }

  /** `grouped[key].append(score)` on a `defaultdict(list)`: a key seen for
      the first time becomes the last key with an empty list; then the score
      goes at the end of the key's list, and no other key changes. */
  function Append<S>(g: GroupedDefects<S>, key: string, score: S): (r: GroupedDefects<S>)
    requires WellFormed(g)
    ensures WellFormed(r)
    ensures r.scores.Keys == g.scores.Keys + {key}
    ensures r.scores[key] == (if key in g.scores then g.scores[key] else []) + [score]
    ensures forall l :: l in g.scores && l != key ==> r.scores[l] == g.scores[l]
    ensures r.labels == if key in g.scores then g.labels else g.labels + [key]
  {
    if key in g.scores then
      GroupedDefects(g.labels, g.scores[key := g.scores[key] + [score]])
    else
      GroupedDefects(g.labels + [key], g.scores[key := [score]])
  }

  /** The grouping of the rows in order, or the error of the first row whose
      class index the name table lacks. */
  function Group<S>(dets: seq<Detection<S>>, names: map<int, string>): (r: Result<GroupedDefects<S>>)
    ensures r.Ok? <==> AllResolved(dets, names)
    ensures r.Ok? ==> WellFormed(r.value)
    decreases |dets|
  {
    if dets == [] then Ok(GroupedDefects([], map[]))
    else
      var d := dets[|dets| - 1];
      match Group(dets[..|dets| - 1], names)
      case Err(e) => Err(e)
      case Ok(g) =>
        if d.clsId in names then Ok(Append(g, names[d.clsId], d.score))
        else Err(MissingClass(d.clsId))
  }

  /** The label of every row, in row order. */
  function LabelsOf<S>(dets: seq<Detection<S>>, names: map<int, string>): (r: seq<string>)
    requires AllResolved(dets, names)
    ensures |r| == |dets|
    ensures forall i :: 0 <= i < |dets| ==> r[i] == names[dets[i].clsId]
  {
    seq(|dets|, i requires 0 <= i < |dets| && dets[i].clsId in names => names[dets[i].clsId])
  }

  /** The scores of the rows labelled `l`, in row order. */
  function ScoresOf<S>(dets: seq<Detection<S>>, names: map<int, string>, l: string): seq<S>
    decreases |dets|
  {
    if dets == [] then []
    else
      var d := dets[|dets| - 1];
      ScoresOf(dets[..|dets| - 1], names, l)
        + (if d.clsId in names && names[d.clsId] == l then [d.score] else [])
  }

  /** The elements of `s` without repeats, each where it first occurs. */
  function FirstOccurrences(s: seq<string>): (r: seq<string>)
    ensures Distinct(r)
    ensures forall x :: x in r <==> x in s
    decreases |s|
  {
    if s == [] then []
    else
      var p := FirstOccurrences(s[..|s| - 1]);
      if s[|s| - 1] in s[..|s| - 1] then p else p + [s[|s| - 1]]
  }

  /** The number of scores held under the labels `ls`. */
  function SumLengths<S>(ls: seq<string>, m: map<string, seq<S>>): nat
    decreases |ls|
  {
    if ls == [] then 0
    else SumLengths(ls[..|ls| - 1], m) + (if ls[|ls| - 1] in m then |m[ls[|ls| - 1]]| else 0)
  }

  /** The number of scores in a grouping. */
  function TotalScores<S>(g: GroupedDefects<S>): nat {
    SumLengths(g.labels, g.scores)
  }

  lemma {:induction false} SumLengthsIgnoresOthers<S>(ls: seq<string>, m: map<string, seq<S>>, l: string, v: seq<S>)
    requires l !in ls
    ensures SumLengths(ls, m[l := v]) == SumLengths(ls, m)
    decreases |ls|
  {
    if ls != [] {
      SumLengthsIgnoresOthers(ls[..|ls| - 1], m, l, v);
    }
  }

  lemma {:induction false} SumLengthsGrowsByOne<S>(ls: seq<string>, m: map<string, seq<S>>, l: string, x: S)
    requires Distinct(ls) && l in ls && l in m
    ensures SumLengths(ls, m[l := m[l] + [x]]) == SumLengths(ls, m) + 1
    decreases |ls|
  {
    var p := ls[..|ls| - 1];
    if ls[|ls| - 1] == l {
      assert l !in p;
      SumLengthsIgnoresOthers(p, m, l, m[l] + [x]);
    } else {
      assert l in p;
      SumLengthsGrowsByOne(p, m, l, x);
    }
  }

  /** Once a prefix of the rows fails, the whole grouping fails the same way. */
  lemma {:induction false} GroupErrorPersists<S>(dets: seq<Detection<S>>, names: map<int, string>, k: nat)
    requires k <= |dets| && Group(dets[..k], names).Err?
    ensures Group(dets, names) == Group(dets[..k], names)
    decreases |dets| - k
  {
    if k < |dets| {
      var p := dets[..|dets| - 1];
      assert p[..k] == dets[..k];
      GroupErrorPersists(p, names, k);
    } else {
      assert dets[..k] == dets;
    }
  }

  /** The error reported names the class index of the first row the table
      lacks. */
  lemma {:induction false} GroupErrorIsFirstMissing<S>(dets: seq<Detection<S>>, names: map<int, string>)
    requires Group(dets, names).Err?
    ensures exists i :: FirstMissingAt(dets, names, i) && dets[i].clsId == Group(dets, names).error.clsId
    decreases |dets|
  {
    var n := |dets| - 1;
    var p := dets[..n];
    if Group(p, names).Err? {
      GroupErrorIsFirstMissing(p, names);
      var i :| FirstMissingAt(p, names, i) && p[i].clsId == Group(p, names).error.clsId;
      assert p[..i] == dets[..i];
      assert FirstMissingAt(dets, names, i);
    } else {
      assert p == dets[..n];
      assert FirstMissingAt(dets, names, n);
    }
  }

  /** No row is dropped or duplicated: the lists together hold one score per
      row. */
  lemma {:induction false} GroupKeepsEveryDetection<S>(dets: seq<Detection<S>>, names: map<int, string>)
    requires AllResolved(dets, names)
    ensures TotalScores(Group(dets, names).value) == |dets|
    decreases |dets|
  {
    if dets != [] {
      var p := dets[..|dets| - 1];
      var d := dets[|dets| - 1];
      assert AllResolved(p, names);
      GroupKeepsEveryDetection(p, names);
      var g := Group(p, names).value;
      var l := names[d.clsId];
      if l in g.scores {
        SumLengthsGrowsByOne(g.labels, g.scores, l, d.score);
      } else {
        SumLengthsIgnoresOthers(g.labels, g.scores, l, [d.score]);
      }
    }
  }

  /** Each key holds exactly the scores of its rows, in row order; a key
      no row carries holds nothing. */
  lemma {:induction false} GroupScoresAreRowsInOrder<S>(dets: seq<Detection<S>>, names: map<int, string>, l: string)
    requires AllResolved(dets, names)
    ensures var g := Group(dets, names).value;
      ScoresOf(dets, names, l) == if l in g.scores then g.scores[l] else []
    decreases |dets|
  {
    if dets != [] {
      var p := dets[..|dets| - 1];
      assert AllResolved(p, names);
      GroupScoresAreRowsInOrder(p, names, l);
    }
  }

  /** The keys are the labels of the rows, each once, in the order of its first
      row. */
  lemma {:induction false} GroupLabelsInFirstOccurrenceOrder<S>(dets: seq<Detection<S>>, names: map<int, string>)
    requires AllResolved(dets, names)
    ensures Group(dets, names).value.labels == FirstOccurrences(LabelsOf(dets, names))
    decreases |dets|
  {
    if dets != [] {
      var n := |dets| - 1;
      var p := dets[..n];
      assert AllResolved(p, names);
      GroupLabelsInFirstOccurrenceOrder(p, names);
      var g := Group(p, names).value;
      var ls := LabelsOf(dets, names);
      assert ls[..n] == LabelsOf(p, names);
      var key := names[dets[n].clsId];
      assert ls[n] == key;
      assert key in g.scores <==> key in ls[..n];
      assert Group(dets, names) == Ok(Append(g, key, dets[n].score));
    }
  }

  /** The set of keys is the set of labels of the rows. */
  lemma GroupKeysAreRowLabels<S>(dets: seq<Detection<S>>, names: map<int, string>)
    requires AllResolved(dets, names)
    ensures Group(dets, names).value.scores.Keys == set i | 0 <= i < |dets| :: names[dets[i].clsId]
  {
    GroupLabelsInFirstOccurrenceOrder(dets, names);
    var ls := LabelsOf(dets, names);
    var keys := set i | 0 <= i < |dets| :: names[dets[i].clsId];
    forall x ensures x in keys <==> x in ls {
      if x in ls {
        var i :| 0 <= i < |ls| && ls[i] == x;
        assert x == names[dets[i].clsId];
      }
    }
  }

  // The example below is evaluated one row at a time: asking the verifier to
  // unfold the whole grouping of a literal at once is costly.

  lemma GroupExampleFirstRow()
    ensures Group([Detection("0.91", 0)], map[0 := "Crazing", 1 := "Patches"])
      == Ok(GroupedDefects(["Crazing"], map["Crazing" := ["0.91"]]))
  {
    var dets := [Detection("0.91", 0)];
    var names := map[0 := "Crazing", 1 := "Patches"];
    var e: GroupedDefects<string> := GroupedDefects([], map[]);
    assert dets[..0] == [];
    assert Group(dets[..0], names) == Ok(e);
    assert Append(e, "Crazing", "0.91") == GroupedDefects(["Crazing"], map["Crazing" := ["0.91"]]);
    assert Group(dets, names) == Ok(Append(e, "Crazing", "0.91"));
  }

  lemma GroupExampleTwoRows()
    ensures Group([Detection("0.91", 0), Detection("0.40", 1)], map[0 := "Crazing", 1 := "Patches"])
      == Ok(GroupedDefects(["Crazing", "Patches"], map["Crazing" := ["0.91"], "Patches" := ["0.40"]]))
  {
    var dets := [Detection("0.91", 0), Detection("0.40", 1)];
    var names := map[0 := "Crazing", 1 := "Patches"];
    var g1: GroupedDefects<string> := GroupedDefects(["Crazing"], map["Crazing" := ["0.91"]]);
    GroupExampleFirstRow();
    assert dets[..1] == [Detection("0.91", 0)];
    assert Append(g1, "Patches", "0.40")
      == GroupedDefects(["Crazing", "Patches"], map["Crazing" := ["0.91"], "Patches" := ["0.40"]]);
    assert Group(dets, names) == Ok(Append(g1, "Patches", "0.40"));
  }

  lemma AppendExampleKnownLabel()
    ensures Append(GroupedDefects(["Crazing", "Patches"], map["Crazing" := ["0.91"], "Patches" := ["0.40"]]),
                   "Crazing", "0.77")
      == GroupedDefects(["Crazing", "Patches"], map["Crazing" := ["0.91", "0.77"], "Patches" := ["0.40"]])
  {
    var g2: GroupedDefects<string> :=
      GroupedDefects(["Crazing", "Patches"], map["Crazing" := ["0.91"], "Patches" := ["0.40"]]);
    assert g2.scores["Crazing"] + ["0.77"] == ["0.91", "0.77"];
  }

  lemma GroupExampleThirdRow()
    ensures Group([Detection("0.91", 0), Detection("0.40", 1), Detection("0.77", 0)],
                  map[0 := "Crazing", 1 := "Patches"])
      == Ok(Append(GroupedDefects(["Crazing", "Patches"], map["Crazing" := ["0.91"], "Patches" := ["0.40"]]),
                   "Crazing", "0.77"))
  {
    var dets := [Detection("0.91", 0), Detection("0.40", 1), Detection("0.77", 0)];
    GroupExampleTwoRows();
    assert dets[..2] == [Detection("0.91", 0), Detection("0.40", 1)];
  }

  /** Three rows, two labels: the first label's scores stay in row order and
      the first label comes first. */
  lemma GroupExample()
    ensures Group([Detection("0.91", 0), Detection("0.40", 1), Detection("0.77", 0)],
                  map[0 := "Crazing", 1 := "Patches"])
      == Ok(GroupedDefects(["Crazing", "Patches"], map["Crazing" := ["0.91", "0.77"], "Patches" := ["0.40"]]))
  {
    GroupExampleThirdRow();
    AppendExampleKnownLabel();
  }

  /** The grouping loop: walk the rows once, resolving each class index and
      appending its score; a missing index stops the walk with its error. */
  method GroupDetections<S>(dets: seq<Detection<S>>, names: map<int, string>) returns (r: Result<GroupedDefects<S>>)
    ensures r == Group(dets, names)
  {
    var labels: seq<string> := [];
    var scores: map<string, seq<S>> := map[];
    var i := 0;
    while i < |dets|
      invariant 0 <= i <= |dets|
      invariant Group(dets[..i], names) == Ok(GroupedDefects(labels, scores))
    {
      var d := dets[i];
      assert dets[..i + 1][..i] == dets[..i];
      if d.clsId !in names {
        GroupErrorPersists(dets, names, i + 1);
        return Err(MissingClass(d.clsId));
      }
      var key := names[d.clsId];
      assert Group(dets[..i + 1], names) == Ok(Append(GroupedDefects(labels, scores), key, d.score));
      // `grouped[key]` on a missing key inserts it, at the end, with an empty list.
      var current := if key in scores then scores[key] else [];
      if key !in scores {
        labels := labels + [key];
      }
      scores := scores[key := current + [d.score]];
      i := i + 1;
    }
    assert dets[..i] == dets;
    return Ok(GroupedDefects(labels, scores));
  }
}
