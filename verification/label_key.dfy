/** The normalisation that turns a detector label into a key of the knowledge
    table: strip surrounding whitespace, turn every space into an underscore,
    then upper-case the first character and lower-case all the others.
    Characters are treated as ASCII: outside the ASCII range nothing counts as
    whitespace and no case mapping applies. */
module LabelKey {

  /** The ASCII characters Python's `str.isspace` accepts, which are the ones
      `str.strip()` removes: space, tab, newline, VT, FF, CR (9 to 13) and the
      four separators 0x1C to 0x1F. */
  predicate IsWhitespace(c: char) {
    c == ' ' || 9 <= c as int <= 13 || 28 <= c as int <= 31
  }

  predicate IsUpper(c: char) { 'A' <= c <= 'Z' }

  predicate IsLower(c: char) { 'a' <= c <= 'z' }

  function ToLower(c: char): (r: char)
    ensures !IsUpper(r)
    ensures !IsUpper(c) ==> r == c
    ensures IsWhitespace(r) <==> IsWhitespace(c)
  {
    if IsUpper(c) then (c as int + 32) as char else c
  }

  function ToUpper(c: char): (r: char)
    ensures !IsLower(r)
    ensures !IsLower(c) ==> r == c
    ensures IsWhitespace(r) <==> IsWhitespace(c)
    ensures ToLower(r) == ToLower(c)
  {
    if IsLower(c) then (c as int - 32) as char else c
  }

  /** Every character of `s` lower-cased. */
  function LowerAll(s: string): (r: string)
    ensures |r| == |s|
    ensures forall i :: 0 <= i < |r| ==> !IsUpper(r[i])
  {
    seq(|s|, i requires 0 <= i < |s| => ToLower(s[i]))
  }

  /** The first index at or after `i` whose character is not whitespace, or
      `|s|` when there is none. */
  function SkipLeading(s: string, i: nat): (b: nat)
    requires i <= |s|
    ensures i <= b <= |s|
    ensures forall k :: i <= k < b ==> IsWhitespace(s[k])
    ensures b < |s| ==> !IsWhitespace(s[b])
    decreases |s| - i
  {
    if i < |s| && IsWhitespace(s[i]) then SkipLeading(s, i + 1) else i
  }

  /** The end of `s[lo..j]` once its trailing whitespace is dropped; the scan
      from the right never goes below `lo`. */
  function SkipTrailing(s: string, lo: nat, j: nat): (e: nat)
    requires lo <= j <= |s|
    ensures lo <= e <= j
    ensures forall k :: e <= k < j ==> IsWhitespace(s[k])
    ensures e > lo ==> !IsWhitespace(s[e - 1])
    decreases j
  {
    if j > lo && IsWhitespace(s[j - 1]) then SkipTrailing(s, lo, j - 1) else j
  }

  /** `s` is `r` with `k` whitespace characters before it and nothing but
      whitespace after it. */
  predicate IsPaddingOf(s: string, k: nat, r: string) {
    && k + |r| <= |s| && r == s[k..k + |r|]
    && (forall i :: 0 <= i < k ==> IsWhitespace(s[i]))
    && (forall i :: k + |r| <= i < |s| ==> IsWhitespace(s[i]))
  }

  /** `s.strip()`: skip the whitespace on the left, then scan back from the
      right end over whitespace, never past the left mark. The result is the
      slice of `s` between its leading and its trailing whitespace. */
  function Strip(s: string): (r: string)
    ensures r == [] || (!IsWhitespace(r[0]) && !IsWhitespace(r[|r| - 1]))
    ensures IsPaddingOf(s, SkipLeading(s, 0), r)
  {
    var b := SkipLeading(s, 0);
    var e := SkipTrailing(s, b, |s|);
    s[b..e]
  }

  /** Stripping leaves nothing exactly when there is nothing but whitespace. */
  lemma StripEmptyIffBlank(s: string)
    ensures Strip(s) == [] <==> forall i :: 0 <= i < |s| ==> IsWhitespace(s[i])
  {
    var r := Strip(s);
    var k := SkipLeading(s, 0);
    if r == [] {
      forall i | 0 <= i < |s| ensures IsWhitespace(s[i]) {
        if k <= i { assert k + |r| <= i; }
      }
    }
  }

  /** `s.replace(" ", "_")`: every space becomes an underscore, every other
      character stays where it is. */
  function ReplaceSpaces(s: string): (r: string)
    ensures |r| == |s|
    ensures forall i :: 0 <= i < |r| ==> r[i] != ' '
    ensures forall i :: 0 <= i < |s| ==> r[i] == s[i] || (s[i] == ' ' && r[i] == '_')
  {
    seq(|s|, i requires 0 <= i < |s| => if s[i] == ' ' then '_' else s[i])
  }

  /** `s.capitalize()`: the only string that equals `s` up to case, whose first
      character is not lower-case and whose later characters are not upper-case. */
  function Capitalize(s: string): (r: string)
    ensures |r| == |s|
    ensures forall i :: 0 <= i < |r| ==> ToLower(r[i]) == ToLower(s[i])
    ensures r != [] ==> !IsLower(r[0])
    ensures forall i :: 1 <= i < |r| ==> !IsUpper(r[i])
    ensures forall i :: 0 <= i < |r| ==> (IsWhitespace(r[i]) <==> IsWhitespace(s[i]))
  {
    if s == [] then [] else [ToUpper(s[0])] + LowerAll(s[1..])
  }

  /** The shape of every knowledge-table key: no surrounding whitespace, no
      space anywhere, a first character that is not lower-case and no
      upper-case letter after it. */
  predicate IsNormal(k: string) {
    && (k != [] ==> !IsWhitespace(k[0]) && !IsWhitespace(k[|k| - 1]) && !IsLower(k[0]))
    && (forall i :: 0 <= i < |k| ==> k[i] != ' ')
    && (forall i :: 1 <= i < |k| ==> !IsUpper(k[i]))
  }

  /** The key computed from a detector label:
      `defect.strip().replace(" ", "_").capitalize()`. */
  function Normalize(defect: string): (key: string)
    ensures IsNormal(key)
    ensures |key| == |Strip(defect)|
    ensures forall i :: 0 <= i < |key| ==> ToLower(key[i]) == ToLower(ReplaceSpaces(Strip(defect))[i])
  {
    var t := ReplaceSpaces(Strip(defect));
    assert t != [] ==> !IsWhitespace(t[0]) && !IsWhitespace(t[|t| - 1]);
    Capitalize(t)
  }

  /** The keys normalisation leaves unchanged are exactly the normal strings. */
  lemma NormalizeFixedPoint(s: string)
    ensures Normalize(s) == s <==> IsNormal(s)
  {
    if IsNormal(s) {
      assert SkipLeading(s, 0) == 0;
      assert SkipTrailing(s, 0, |s|) == |s|;
      assert Strip(s) == s;
      assert ReplaceSpaces(s) == s;
      if s != [] {
        assert LowerAll(s[1..]) == s[1..];
        assert Capitalize(s) == [s[0]] + s[1..] == s;
      }
    }
  }

  /** Normalising twice is the same as normalising once. */
  lemma NormalizeIdempotent(s: string)
    ensures Normalize(Normalize(s)) == Normalize(s)
  {
    NormalizeFixedPoint(Normalize(s));
  }

  /** Capitalising reaches a string of the key shape exactly when it spells
      that string up to letter case. */
  lemma CapitalizeMatchesIgnoringCase(t: string, k: string)
    requires k != [] ==> !IsLower(k[0])
    requires forall i :: 1 <= i < |k| ==> !IsUpper(k[i])
    ensures Capitalize(t) == k <==> LowerAll(t) == LowerAll(k)
  {
    if LowerAll(t) == LowerAll(k) {
      var n := Capitalize(t);
      forall i | 0 <= i < |k| ensures n[i] == k[i] {
        assert LowerAll(n)[i] == LowerAll(k)[i];
        if i == 0 {
          assert ToUpper(n[0]) == ToUpper(ToLower(n[0])) == ToUpper(ToLower(k[0]));
        }
      }
    }
  }

  /** A label reaches a given key exactly when, once stripped and with spaces
      made underscores, it spells that key up to letter case. */
  lemma NormalizeMatchesIgnoringCase(defect: string, k: string)
    requires IsNormal(k)
    ensures Normalize(defect) == k <==> LowerAll(ReplaceSpaces(Strip(defect))) == LowerAll(k)
  {
    CapitalizeMatchesIgnoringCase(ReplaceSpaces(Strip(defect)), k);
  }

  // The worked examples below go one string operation at a time: asking the
  // verifier to evaluate the whole pipeline on a literal at once is costly.

  lemma NormalizeSteps(defect: string, stripped: string, underscored: string, key: string)
    requires Strip(defect) == stripped
    requires ReplaceSpaces(stripped) == underscored
    requires Capitalize(underscored) == key
    ensures Normalize(defect) == key
  {
  }

  lemma StripExamplePadded()
    ensures Strip(" pitted surface ") == "pitted surface"
  {
    var a := " pitted surface ";
    assert SkipLeading(a, 1) == 1;
    assert SkipLeading(a, 0) == 1;
    assert SkipTrailing(a, 1, 15) == 15;
    assert SkipTrailing(a, 1, 16) == 15;
    assert a[1..15] == "pitted surface";
  }

  lemma ReplaceSpacesExamplePadded()
    ensures ReplaceSpaces("pitted surface") == "pitted_surface"
  {
  }

  lemma CapitalizeExamplePadded()
    ensures Capitalize("pitted_surface") == "Pitted_surface"
  {
    assert LowerAll("pitted_surface") == LowerAll("Pitted_surface");
    CapitalizeMatchesIgnoringCase("pitted_surface", "Pitted_surface");
  }

  /** A label with surrounding and inner spaces, as in a caption. */
  lemma NormalizeExamplePadded()
    ensures Normalize(" pitted surface ") == "Pitted_surface"
  {
    StripExamplePadded();
    ReplaceSpacesExamplePadded();
    CapitalizeExamplePadded();
    NormalizeSteps(" pitted surface ", "pitted surface", "pitted_surface", "Pitted_surface");
  }

  lemma CapitalizeExampleTitleCase()
    ensures Capitalize("Rolled-In_Scale") == "Rolled-in_scale"
  {
    assert LowerAll("Rolled-In_Scale") == LowerAll("Rolled-in_scale");
    CapitalizeMatchesIgnoringCase("Rolled-In_Scale", "Rolled-in_scale");
  }

  /** A label in title case: only its first letter keeps its capital. */
  lemma NormalizeExampleTitleCase()
    ensures Normalize("Rolled-In Scale") == "Rolled-in_scale"
  {
    var a := "Rolled-In Scale";
    assert SkipLeading(a, 0) == 0;
    assert SkipTrailing(a, 0, |a|) == |a|;
    assert a[0..|a|] == a;
    assert ReplaceSpaces(a) == "Rolled-In_Scale";
    CapitalizeExampleTitleCase();
    NormalizeSteps(a, a, "Rolled-In_Scale", "Rolled-in_scale");
  }

  /** A label made only of whitespace becomes the empty key. */
  lemma NormalizeExampleBlank()
    ensures Normalize(" \t ") == ""
  {
    var a := " \t ";
    assert IsWhitespace(a[0]) && IsWhitespace(a[1]) && IsWhitespace(a[2]);
    StripEmptyIffBlank(a);
  }
}
