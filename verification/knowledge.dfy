/** The fixed table of defect knowledge and the lookup the report makes in it
    for every detected label. */
module Knowledge {
  import opened LabelKey

  /** What the table says about one kind of defect. */
  datatype Entry = Entry(cause: string, prevention: string)

  /** The outcome of a lookup: the configured pair, or the "no information"
      warning, which is shown in place of the pair and stops nothing. */
  datatype Advice = Found(cause: string, prevention: string) | NoInformation

  /** The six defect classes the table knows, keyed by their normalised names. */
  const DefectKnowledge: map<string, Entry> := map[
    "Crazing" := Entry(
      "Tensile stress beyond material limit due to cooling issues or high rolling speed.",
      "Optimize rolling speed and ensure uniform cooling."),
    "Patches" := Entry(
      "Local oxidation or improper cleaning before rolling.",
      "Maintain surface cleanliness and control mill scale formation."),
    "Pitted_surface" := Entry(
      "Localized corrosion or trapped air bubbles during rolling.",
      "Improve descaling processes and surface inspection."),
    "Rolled-in_scale" := Entry(
      "Oxide scales not removed properly before rolling.",
      "Enhance descaling efficiency and pre-cleaning."),
    "Scratches" := Entry(
      "Abrasive particles or improper handling.",
      "Maintain clean rollers and handling equipment."),
    "Inclusion" := Entry(
      "Non-metallic particles embedded during manufacturing.",
      "Use high-quality raw materials and controlled processing.")
  ]

  /** The lookup for one detected label in a knowledge table (the script
      always passes `DefectKnowledge`): normalise the label, then either the
      configured pair for that key or the "no information" branch. */
  function Lookup(knowledge: map<string, Entry>, defect: string): (r: Advice)
    ensures r.Found? <==> Normalize(defect) in knowledge
    ensures r.Found? ==> knowledge[Normalize(defect)] == Entry(r.cause, r.prevention)
  {
    var key := Normalize(defect);
    if key in knowledge then
      Found(knowledge[key].cause, knowledge[key].prevention)
    else
      NoInformation
  }

  /** The six keys, in the table's order. */
  const DefectKeys: seq<string> :=
    ["Crazing", "Patches", "Pitted_surface", "Rolled-in_scale", "Scratches", "Inclusion"]

  // The key facts are split in three: asking the verifier for all six keys of
  // the table with its long texts at once is costly.

  lemma KnowledgeKeysListed()
    ensures forall k :: k in DefectKnowledge <==> k in DefectKeys
  {
    assert DefectKnowledge.Keys == {"Crazing", "Patches", "Pitted_surface", "Rolled-in_scale", "Scratches", "Inclusion"};
  }

  lemma FirstKeysAreNormal()
    ensures IsNormal(DefectKeys[0]) && IsNormal(DefectKeys[1]) && IsNormal(DefectKeys[2])
  {
  }

  lemma LastKeysAreNormal()
    ensures IsNormal(DefectKeys[3]) && IsNormal(DefectKeys[4]) && IsNormal(DefectKeys[5])
  {
  }

  /** Every key of the table already has the shape normalisation produces. */
  lemma KnowledgeKeysAreNormal()
    ensures forall k :: k in DefectKnowledge ==> IsNormal(k)
  {
    KnowledgeKeysListed();
    FirstKeysAreNormal();
    LastKeysAreNormal();
    forall k | k in DefectKnowledge ensures IsNormal(k) {
      var i :| 0 <= i < |DefectKeys| && DefectKeys[i] == k;
    }
  }

  /** Every key is a fixed point of normalisation, so each table entry is
      reached by at least one label: its own key. */
  lemma KnowledgeKeysReachable()
    ensures forall k :: k in DefectKnowledge ==>
      Normalize(k) == k && Lookup(DefectKnowledge, k) == Found(DefectKnowledge[k].cause, DefectKnowledge[k].prevention)
  {
    KnowledgeKeysAreNormal();
    forall k | k in DefectKnowledge
      ensures Normalize(k) == k
    {
      NormalizeFixedPoint(k);
    }
  }

  /** A label finds an entry exactly when, stripped and with spaces made
      underscores, it spells one of the six keys up to letter case; the entry
      found is that key's. */
  lemma LookupMatchesIgnoringCase(defect: string, k: string)
    requires k in DefectKnowledge
    ensures LowerAll(ReplaceSpaces(Strip(defect))) == LowerAll(k) <==>
      Normalize(defect) == k
    ensures LowerAll(ReplaceSpaces(Strip(defect))) == LowerAll(k) ==>
      Lookup(DefectKnowledge, defect) == Found(DefectKnowledge[k].cause, DefectKnowledge[k].prevention)
  {
    KnowledgeKeysAreNormal();
    NormalizeMatchesIgnoringCase(defect, k);
  }

  /** Looking up an already normalised key gives what the label itself gives,
      whatever the table. */
  lemma LookupAfterNormalize(knowledge: map<string, Entry>, defect: string)
    ensures Lookup(knowledge, Normalize(defect)) == Lookup(knowledge, defect)
  {
    NormalizeIdempotent(defect);
  }

  /** A known label gets its configured pair. */
  lemma LookupExampleKnown()
    ensures Lookup(DefectKnowledge, "Crazing") == Found(
      "Tensile stress beyond material limit due to cooling issues or high rolling speed.",
      "Optimize rolling speed and ensure uniform cooling.")
  {
    var c := "Crazing";
    assert IsNormal(c);
    NormalizeFixedPoint(c);
    assert DefectKnowledge[c].cause ==
      "Tensile stress beyond material limit due to cooling issues or high rolling speed.";
  }

  /** An unknown label gets the "no information" warning, not an error. */
  lemma LookupExampleUnknown()
    ensures Lookup(DefectKnowledge, "Unknown_defect") == NoInformation
  {
    var u := "Unknown_defect";
    assert IsNormal(u);
    NormalizeFixedPoint(u);
    assert u !in DefectKnowledge;
  }
}
