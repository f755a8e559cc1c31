/** The processing of one uploaded image once the detector has answered: group
    the rows, then render one section per label, in the dictionary's order,
    with its confidences and either the table's cause and prevention or the
    "no information" warning. A failure while grouping is caught by the
    top-level handler and shown as an error message instead of the report. */
module Display {
  import opened Grouping
  import opened Knowledge

  /** One defect section: the label as the detector names it, its confidences
      in row order, and what the knowledge table says about it. */
  datatype Section<S> = Section(defect: string, confidences: seq<S>, advice: Advice)

  /** What the page shows for one image: the report, or the error message of
      the handler around the whole processing. */
  datatype Page<S> = Report(sections: seq<Section<S>>) | ErrorMessage(error: GroupError)

  /** The number of confidence lines the sections show. */
  function CountConfidences<S>(sections: seq<Section<S>>): nat
    decreases |sections|
  {
    if sections == [] then 0
    else CountConfidences(sections[..|sections| - 1]) + |sections[|sections| - 1].confidences|
  }

  /** Sections that show the lists of `labels` show as many confidences as
      those lists hold. */
  lemma {:induction false} CountConfidencesOfLists<S>(sections: seq<Section<S>>, labels: seq<string>, m: map<string, seq<S>>)
    requires |sections| == |labels|
    requires forall i :: 0 <= i < |sections| ==> labels[i] in m && sections[i].confidences == m[labels[i]]
    ensures CountConfidences(sections) == SumLengths(labels, m)
    decreases |sections|
  {
    if sections != [] {
      var n := |sections| - 1;
      CountConfidencesOfLists(sections[..n], labels[..n], m);
    }
  }

  /** The sections are those of the labels of the rows, each once in the order
      of its first row, with exactly that label's scores in row order and the
      lookup of that label. */
  ghost predicate ReportsRows<S>(dets: seq<Detection<S>>, names: map<int, string>,
                               knowledge: map<string, Entry>, sections: seq<Section<S>>) {
    && AllResolved(dets, names)
    && var labels := FirstOccurrences(LabelsOf(dets, names));
    && |sections| == |labels|
    && forall i :: 0 <= i < |sections| ==>
         sections[i] == Section(labels[i], ScoresOf(dets, names, labels[i]), Lookup(knowledge, labels[i]))
  }

  /** The display loop: one section per key of the grouping, in key order; a
      label the table does not know gets the warning and the loop goes on. */
  method RenderSections<S>(g: GroupedDefects<S>, knowledge: map<string, Entry>) returns (sections: seq<Section<S>>)
    requires WellFormed(g)
    ensures |sections| == |g.labels|
    ensures forall i :: 0 <= i < |sections| ==>
      sections[i] == Section(g.labels[i], g.scores[g.labels[i]], Lookup(knowledge, g.labels[i]))
    ensures CountConfidences(sections) == TotalScores(g)
  {
    sections := [];
    for i := 0 to |g.labels|
      invariant |sections| == i
      invariant forall j :: 0 <= j < i ==>
        sections[j] == Section(g.labels[j], g.scores[g.labels[j]], Lookup(knowledge, g.labels[j]))
    {
      var defect := g.labels[i];
      var section := Section(defect, g.scores[defect], Lookup(knowledge, defect));
      sections := sections + [section];
    }
    CountConfidencesOfLists(sections, g.labels, g.scores);
  }

  /** One image's rows and name table to what the page shows. */
  method ProcessDetections<S>(dets: seq<Detection<S>>, names: map<int, string>,
                               knowledge: map<string, Entry>) returns (page: Page<S>)
    ensures page.ErrorMessage? <==> !AllResolved(dets, names)
    ensures page.ErrorMessage? ==>
      exists i :: FirstMissingAt(dets, names, i) && dets[i].clsId == page.error.clsId
    ensures page.Report? ==> ReportsRows(dets, names, knowledge, page.sections)
    ensures page.Report? ==> CountConfidences(page.sections) == |dets|
    ensures dets == [] ==> page == Report([])
  {
    var grouped := GroupDetections(dets, names);
    match grouped
    case Err(e) =>
      GroupErrorIsFirstMissing(dets, names);
      page := ErrorMessage(e);
    case Ok(g) =>
      var sections := RenderSections(g, knowledge);
      GroupLabelsInFirstOccurrenceOrder(dets, names);
      GroupKeepsEveryDetection(dets, names);
      forall l: string
        ensures ScoresOf(dets, names, l) == if l in g.scores then g.scores[l] else []
      {
        GroupScoresAreRowsInOrder(dets, names, l);
      }
      page := Report(sections);
  }
}
