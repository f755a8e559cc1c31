# Steel surface defect report: a Dafny model

The repository is a web demo for a steel-strip defect detector. A user
uploads an image and a pretrained detector finds defects in it. The page then
shows the annotated image and one section per defect class. Each section lists
the confidences of that class's detections and the cause and prevention text
from a fixed six-entry knowledge table.

Almost all of `imp.py` is interface code. Three pieces of sequential logic sit
inline in the script, and this project models them:

- **Grouping** (`grouping.dfy`, module `Grouping`). The script walks the
  detector's rows `(x1, y1, x2, y2, score, cls_id)` in order. It resolves each
  class index through the name table that came with that call. It appends the
  score to an insertion-ordered `defaultdict(list)` keyed by label. The loop is
  `Grouping.GroupDetections`, and it is proved equal to the specification
  function `Grouping.Group`. The lemmas then prove what that function keeps:
  every row, each label's scores in row order, and the labels in
  first-occurrence order. A class index missing from the table makes the
  lookup fail. The model returns an error carrying the class index of the
  first such row.
- **Key normalisation** (`label_key.dfy`, module `LabelKey`). The expression
  is `defect.strip().replace(" ", "_").capitalize()`. `Strip` follows the
  left and right scans of Python's `str.strip`. `Capitalize` upper-cases the
  first character and lower-cases all the rest. The result always has the
  shape of a table key (`IsNormal`). The lemmas prove that normalisation is
  idempotent and that its fixed points are exactly the strings of key shape.
  They also prove that a label reaches a key exactly when it spells that key
  up to letter case, once stripped and with its spaces made underscores.
- **Knowledge lookup and display** (`knowledge.dfy`, module `Knowledge`, and
  `display.dfy`, module `Display`). `DefectKnowledge` is the six-entry table.
  `Lookup` returns the configured pair, or it takes the "no information"
  branch. `Display.RenderSections` is the display loop. It renders one section
  per grouped label, in dictionary order, and a lookup miss stops nothing.
  `Display.ProcessDetections` is the per-image flow. It groups the rows, then
  renders the sections. A grouping failure becomes the error message that the
  top-level handler shows.

Scores are only moved, never computed on, so they have a type parameter `S`.
The display takes the knowledge table as a parameter. The script always passes
its one global table, `DefectKnowledge`.

Characters are modelled as ASCII. The whitespace that `strip` removes is the
set of characters that Python's `str.isspace` accepts below 128:
space, tab, newline, vertical tab, form feed, carriage return, and the four
separators 0x1C to 0x1F. Python's `strip` really does remove those four
separators, so they are included.

On an empty detection list the code renders the section heading with no
defect sections below it. `ProcessDetections` states exactly that:
`dets == [] ==> page == Report([])`. The code has no separate "no defects"
message. Running the grouping twice on the same rows gives the same result.
This follows from `GroupDetections` being equal to the function `Group`, so
no lemma of its own states it.

## Model

| member | source | states |
|---|---|---|
| `Grouping.Append` | imp.py:117 | `grouped[label].append(score)` on a `defaultdict(list)`: a new label is added last with a list holding just the score, a known label's list grows by the score at its end, every other key is unchanged, and the dictionary stays well formed |
| `Grouping.Group` | imp.py:113-117 | the grouping succeeds exactly when every row's class index is in the name table, and a successful grouping is well formed (distinct keys, key list equal to the dictionary's keys, no empty list) |
| `Grouping.GroupDetections` | imp.py:113-117 | the loop over the rows returns exactly the specification's grouping, or the specification's error when a class index is missing |
| `Grouping.GroupErrorPersists` | imp.py:116 | once a prefix of the rows fails on a missing class index, the whole run fails with the same error: rows after the failing one are never looked at |
| `Grouping.GroupErrorIsFirstMissing` | imp.py:116 | the error names the class index of the first row whose index the name table lacks |
| `Grouping.GroupKeepsEveryDetection` | imp.py:113-117 | nothing is thresholded, deduplicated or dropped: the score lists together hold exactly one score per row |
| `Grouping.GroupScoresAreRowsInOrder` | imp.py:114-117 | each label's list is exactly the scores of the rows whose class resolves to that label, in row order; a label no row carries has no list |
| `Grouping.GroupLabelsInFirstOccurrenceOrder` | imp.py:113-117 | the dictionary's key order is the rows' labels without repeats, each at its first occurrence |
| `Grouping.GroupKeysAreRowLabels` | imp.py:113-117 | the set of keys is `{ names[cls_id] : row in rows }` |
| `Grouping.GroupExample` | imp.py:113-117 | rows (0.91, class 0), (0.40, class 1), (0.77, class 0) with names {0: Crazing, 1: Patches} group to Crazing: [0.91, 0.77], Patches: [0.40], with Crazing first |
| `LabelKey.Strip` | imp.py:128 | `strip()` returns a slice of the label that neither starts nor ends with whitespace, with only whitespace before and after it |
| `LabelKey.StripEmptyIffBlank` | imp.py:128 | stripping leaves nothing exactly when the label is all whitespace |
| `LabelKey.ReplaceSpaces` | imp.py:128 | `replace(" ", "_")` keeps the length, leaves no space, and changes only spaces, each to an underscore |
| `LabelKey.Capitalize` | imp.py:128 | `capitalize()` keeps the length and every character up to case; the first character is not lower-case and no later character is upper-case |
| `LabelKey.Normalize` | imp.py:128 | the computed key has no surrounding whitespace and no space; its first character is not lower-case and no later letter is upper-case; it spells the stripped label, spaces made underscores, up to case |
| `LabelKey.NormalizeFixedPoint` | imp.py:128 | a string is left unchanged by normalisation if and only if it already has the key shape |
| `LabelKey.NormalizeIdempotent` | imp.py:128 | normalising a key a second time changes nothing |
| `LabelKey.CapitalizeMatchesIgnoringCase` | imp.py:128 | capitalising gives a given key-shaped string if and only if the input equals it up to letter case |
| `LabelKey.NormalizeMatchesIgnoringCase` | imp.py:128 | a label normalises to a given key if and only if, stripped and with spaces made underscores, it equals the key up to letter case |
| `LabelKey.NormalizeExamplePadded` | imp.py:128 | `" pitted surface "` becomes `"Pitted_surface"` |
| `LabelKey.NormalizeExampleTitleCase` | imp.py:128 | `"Rolled-In Scale"` becomes `"Rolled-in_scale"`: only the first letter keeps its capital |
| `LabelKey.NormalizeExampleBlank` | imp.py:128 | a label made only of whitespace becomes the empty key |
| `Knowledge.DefectKnowledge` | imp.py:75-100 | the six keys, each with its cause and prevention text as the script has them |
| `Knowledge.Lookup` | imp.py:133-137 | a label finds an entry exactly when its normalised key is in the table, and then it yields that key's cause and prevention; otherwise it takes the "no information" branch |
| `Knowledge.KnowledgeKeysAreNormal` | imp.py:75-100 | all six table keys already have the shape normalisation produces |
| `Knowledge.KnowledgeKeysReachable` | imp.py:75-100 | every table key is a fixed point of normalisation, so looking it up yields its own configured pair: no entry is unreachable |
| `Knowledge.LookupMatchesIgnoringCase` | imp.py:128-137 | a label finds a given entry exactly when, stripped and with spaces made underscores, it spells that key up to letter case |
| `Knowledge.LookupAfterNormalize` | imp.py:128-137 | looking up an already normalised label gives the same result as looking up the label itself |
| `Knowledge.LookupExampleKnown` | imp.py:76-79 | `"Crazing"` yields exactly its configured cause and prevention |
| `Knowledge.LookupExampleUnknown` | imp.py:133-137 | `"Unknown_defect"` yields the "no information" outcome, not an error |
| `Display.RenderSections` | imp.py:127-137 | one section per key, in dictionary order; each shows the label, that label's scores, and its lookup result, so a miss is a warning and the loop goes on; the sections show as many confidences as the grouping holds |
| `Display.ProcessDetections` | imp.py:104-140 | the page is the error message exactly when some class index is missing, and the message names the first one; otherwise every label of the rows has one section, in first-occurrence order, with exactly its scores in row order and its lookup, and every row's confidence is shown once; no rows give an empty report |

## Left out

- Model download (`download_model_from_github`, imp.py:13-28). This is network and file-system I/O. The code does not delete an undersized download before it raises, and it never re-checks a cached file.
- Detector inference and the annotated image (imp.py:109-110). These are calls into an external library. The model takes the rows and the name table as inputs.
- Image decoding (imp.py:105-106). This is foreign code. Failures there reach the same top-level handler, but the model only has the grouping's error.
- The Streamlit page: layout, styling, upload widget, headings, the `{conf:.2f}` formatting and the prompt shown when no file is uploaded (imp.py:31-72, 120-126, 129-131, 141-142). This is interface code and floating-point formatting. A section keeps its label, its scores and its lookup result, not the text that is printed.
- Box coordinates. They are discarded at imp.py:115 and affect nothing.
- Class indices: a row holds the class index after `int(cls_id)`. The float-to-integer conversion is not modelled. The six-column unpacking of a row is not modelled either: a row with a different number of columns would fail the unpacking before the lookup.
- LabelKey.Normalize: models ASCII only. Outside ASCII, Python's `strip` also removes other Unicode whitespace, and `capitalize` applies Unicode title-casing and lower-casing. The model treats every non-ASCII character as neither whitespace nor a letter.
