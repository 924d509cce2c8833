/**
 * The Rust transcoder from the Win Innwa legacy font encoding to Unicode
 * Myanmar text (`win_to_myanmar3`), stage by stage: the clean-up of stray
 * spaces, the font mapping, the four kinzi passes, the ra reordering, the
 * zero/wa decision, the storage-order pass, correction1 and the final
 * clean-up of the bracket and comma placeholders.
 */
module Transcoder {
  import opened Replace
  import opened MappingTables
  import opened Scanners
  import opened Correction

  // ---------------------------------------------------------------------
  // Font mapping and clean-up
  // ---------------------------------------------------------------------

  /** `apply_font_mapping`: every table entry in turn, each one applied to
      the whole text. */
  method ApplyFontMapping(input: string) returns (result: string)
    ensures result == ReplaceEach(RustEntries, input)
    ensures NoKinziGlyph(result)
  {
    result := ReplaceEachInOrder(RustEntries, input);
    RustMappingLeavesNoKinziGlyph(input);
  }

  /** The stray spaces removed before the font mapping. */
  const CleanupBeforePairs: Table := [
    (" f", "f"), (" m", "m"), ("  ;", ";"), ("a ", "a"),
    (" D", "D"), (" d", "d"), (" F", "F"), (" S", "S")
  ]

  /** The placeholders restored after the conversion. */
  const CleanupAfterPairs: Table := [("\U{00AB}", "["), ("\U{00BB}", "]"), ("\U{00E7}", ",")]

  /** `cleanup_before_convert`. */
  method CleanupBeforeConvert(input: string) returns (result: string)
    ensures result == ReplaceEach(CleanupBeforePairs, input)
  {
    result := ReplaceEachInOrder(CleanupBeforePairs, input);
  }

  /** `cleanup_after_convert`: each placeholder becomes its bracket or
      comma, and every other character stays where it is. */
  method CleanupAfterConvert(input: string) returns (result: string)
    ensures result == ReplaceEach(CleanupAfterPairs, input)
    ensures |result| == |input|
    ensures forall i :: 0 <= i < |input| ==> result[i] == Restored(input[i])
  {
    result := ReplaceEachInOrder(CleanupAfterPairs, input);
    CleanupAfterPointwise(input);
  }

  /** The character a placeholder stands for; any other character is
      itself. */
  function Restored(ch: char): char
  {
    if ch == '\U{00AB}' then '['
    else if ch == '\U{00BB}' then ']'
    else if ch == '\U{00E7}' then ','
    else ch
  }

  /** `a` is `b` with one or two spaces added at an end. */
  predicate DropsSpaces(a: string, b: string)
  {
    a == [' '] + b || a == [' ', ' '] + b || a == b + [' ']
  }

  /** Dropping spaces keeps the count of every other character. */
  lemma DropsSpacesCounts(a: string, b: string, x: char)
    requires DropsSpaces(a, b)
    ensures a != []
    ensures multiset(b)[' '] <= multiset(a)[' ']
    ensures x != ' ' ==> multiset(b)[x] == multiset(a)[x]
  {
  }

  /** Every clean-up pair drops spaces and nothing else. */
  lemma CleanupBeforeEntries(x: char)
    ensures forall k :: 0 <= k < |CleanupBeforePairs| ==>
      CleanupBeforePairs[k].0 != [] && multiset(CleanupBeforePairs[k].1)[' '] <= multiset(CleanupBeforePairs[k].0)[' ']
    ensures forall k :: 0 <= k < |CleanupBeforePairs| ==>
      x != ' ' ==> multiset(CleanupBeforePairs[k].1)[x] == multiset(CleanupBeforePairs[k].0)[x]
  {
    forall k | 0 <= k < |CleanupBeforePairs|
      ensures CleanupBeforePairs[k].0 != [] && multiset(CleanupBeforePairs[k].1)[' '] <= multiset(CleanupBeforePairs[k].0)[' ']
      ensures x != ' ' ==> multiset(CleanupBeforePairs[k].1)[x] == multiset(CleanupBeforePairs[k].0)[x]
    {
      var p := CleanupBeforePairs[k];
      assert DropsSpaces(p.0, p.1);
      DropsSpacesCounts(p.0, p.1, x);
    }
  }

  /** The clean-up before the mapping only removes spaces: every other
      character keeps its count. */
  lemma CleanupBeforeOnlyRemovesSpaces(s: string, x: char)
    ensures x != ' ' ==> multiset(ReplaceEach(CleanupBeforePairs, s))[x] == multiset(s)[x]
    ensures multiset(ReplaceEach(CleanupBeforePairs, s))[' '] <= multiset(s)[' ']
  {
    CleanupBeforeEntries(x);
    ReplaceEachCount(CleanupBeforePairs, s, x);
    ReplaceEachCount(CleanupBeforePairs, s, ' ');
  }

  /** The clean-up after the conversion leaves none of the three
      placeholders behind. */
  lemma CleanupAfterRemovesPlaceholders(s: string)
    ensures NoPlaceholder(ReplaceEach(CleanupAfterPairs, s))
  {
    var t := CleanupAfterPairs;
    ReplaceEachRemovesChar(t, 0, '\U{00AB}', s);
    ReplaceEachRemovesChar(t, 1, '\U{00BB}', s);
    ReplaceEachRemovesChar(t, 2, '\U{00E7}', s);
  }

  /** The clean-up after the conversion turns each placeholder into its
      character. */
  lemma CleanupAfterSteps()
    ensures ReplaceEach(CleanupAfterPairs, ['\U{00AB}']) == "["
    ensures ReplaceEach(CleanupAfterPairs, ['\U{00BB}']) == "]"
    ensures ReplaceEach(CleanupAfterPairs, ['\U{00E7}']) == ","
  {
    var t := CleanupAfterPairs;
    ReplaceEachOneStep(t, 0, '\U{00AB}', '[');
    ReplaceEachOneStep(t, 1, '\U{00BB}', ']');
    ReplaceEachOneStep(t, 2, '\U{00E7}', ',');
  }

  /** The clean-up after the conversion works character by character: the
      length is kept, each placeholder anywhere in the text becomes its
      character, and every other character is unchanged. */
  lemma CleanupAfterPointwise(s: string)
    ensures ReplaceEach(CleanupAfterPairs, s) == seq(|s|, i requires 0 <= i < |s| => Restored(s[i]))
  {
    var t := CleanupAfterPairs;
    var s1 := ReplaceAll(s, ['\U{00AB}'], "[");
    var s2 := ReplaceAll(s1, ['\U{00BB}'], "]");
    var s3 := ReplaceAll(s2, ['\U{00E7}'], ",");
    assert t[1..][1..][1..] == [];
    assert ReplaceEach(t, s) == s3;
    ReplaceAllOneChar(s, '\U{00AB}', "[");
    SubstituteCharPointwise(s, '\U{00AB}', '[');
    ReplaceAllOneChar(s1, '\U{00BB}', "]");
    SubstituteCharPointwise(s1, '\U{00BB}', ']');
    ReplaceAllOneChar(s2, '\U{00E7}', ",");
    SubstituteCharPointwise(s2, '\U{00E7}', ',');
  }

  /** A placeholder is left alone by the font mapping, and the clean-up
      after the conversion turns it into its bracket or comma. */
  lemma PlaceholderRestored(p: char)
    requires IsPlaceholder(p)
    ensures ReplaceEach(CleanupAfterPairs, ReplaceEach(RustEntries, [p]))
         == (if p == '\U{00AB}' then "[" else if p == '\U{00BB}' then "]" else ",")
  {
    RustMappingKeepsPlaceholder(p);
    CleanupAfterSteps();
  }

  /** None of the placeholders for `[`, `]` and `,` occurs. */
  predicate NoPlaceholder(s: string)
  {
    '\U{00AB}' !in s && '\U{00BB}' !in s && '\U{00E7}' !in s
  }

  // ---------------------------------------------------------------------
  // Zero and wa
  // ---------------------------------------------------------------------

  /** `is_mm_context`: Myanmar letters and signs (but not wa, the digits and
      punctuation) and the space. */
  predicate IsMmContext(c: char)
    ensures c == ' ' ==> IsMmContext(c)
    ensures IsMmContext(c) ==> c != '\U{1040}' && c != '\U{1047}' && c != '\U{101D}'
  {
    ('\U{1000}' <= c <= '\U{101C}') || ('\U{101E}' <= c <= '\U{102A}') || c == '\U{102C}'
    || ('\U{102E}' <= c <= '\U{103F}') || ('\U{104C}' <= c <= '\U{109F}') || c == ' '
  }

  /** What `replace_zero_wa` puts at position `i`: digit zero becomes wa and
      digit seven becomes ra when a neighbour is Myanmar context. */
  function ZeroWaAt(s: string, i: nat): char
    requires i < |s|
  {
    var near := (i > 0 && IsMmContext(s[i - 1])) || (i + 1 < |s| && IsMmContext(s[i + 1]));
    if s[i] == '\U{1040}' && near then '\U{101D}'
    else if s[i] == '\U{1047}' && near then '\U{101B}'
    else s[i]
  }

  /** The whole text after the zero/wa decision. */
  function ZeroWa(s: string): (r: string)
    ensures |r| == |s|
  {
    seq(|s|, i requires 0 <= i < |s| => ZeroWaAt(s, i))
  }

  /** `replace_zero_wa`: one pass over the characters, deciding each from its
      neighbours in the input. */
  method ReplaceZeroWa(input: string) returns (out: string)
    ensures out == ZeroWa(input)
  {
    out := [];
    for i := 0 to |input|
      invariant |out| == i
      invariant forall j :: 0 <= j < i ==> out[j] == ZeroWaAt(input, j)
    {
      var ch := input[i];
      var prevMm := if i > 0 then IsMmContext(input[i - 1]) else false;
      var nextMm := if i + 1 < |input| then IsMmContext(input[i + 1]) else false;
      if ch == '\U{1040}' {
        if prevMm || nextMm {
          out := out + ['\U{101D}'];
        } else {
          out := out + [ch];
        }
      } else if ch == '\U{1047}' {
        if prevMm || nextMm {
          out := out + ['\U{101B}'];
        } else {
          out := out + [ch];
        }
      } else {
        out := out + [ch];
      }
    }
  }

  /** Only digit zero and digit seven are ever changed, into wa and ra. */
  lemma ZeroWaChangesOnlyDigits(s: string, i: nat)
    requires i < |s|
    ensures ZeroWa(s)[i] != s[i] ==>
      (s[i] == '\U{1040}' && ZeroWa(s)[i] == '\U{101D}') || (s[i] == '\U{1047}' && ZeroWa(s)[i] == '\U{101B}')
    ensures s[i] == '\U{1040}' && i + 1 < |s| && IsMmContext(s[i + 1]) ==> ZeroWa(s)[i] == '\U{101D}'
  {
  }

  // ---------------------------------------------------------------------
  // The kinzi passes and the pipeline
  // ---------------------------------------------------------------------

  /** Nga, asat, virama: the kinzi. */
  const KinziMark: string := "\U{1004}\U{103A}\U{1039}"

  /** The first kinzi pass: the kinzi is moved in front of its consonant. */
  const KinziFirst: Pattern := Kinzi(KinziMark, KinziMark, [])

  /** The three passes for the legacy kinzi glyphs. */
  const KinziGlyphD: Pattern := Kinzi("\U{00D8}", "F", "d")
  const KinziGlyphCapitalD: Pattern := Kinzi("\U{00D0}", "F", "D")
  const KinziGlyphH: Pattern := Kinzi("\U{00F8}", "F", "H")

  /** All four kinzi passes, in order. */
  function KinziReordered(s: string): string
  {
    Rewrite(KinziGlyphH, Rewrite(KinziGlyphCapitalD, Rewrite(KinziGlyphD, Rewrite(KinziFirst, s))))
  }

  /** The last step of correction1 in Rust: every asat before a dot below is
      swapped with it. */
  function RustCorrection1(s: string): string
  {
    ReplaceAll(Corrected(s), [T[2], T[0]], [T[0], T[2]])
  }

  /** `correction1`. */
  method Correction1(input: string) returns (unistr: string)
    ensures unistr == RustCorrection1(input)
  {
    unistr := ApplyCorrections(input);
    unistr := ReplaceAll(unistr, [T[2], T[0]], [T[0], T[2]]);
  }

  /** `win_to_myanmar3` as a function of its input. */
  function Transcoded(input: string): (r: string)
    ensures NoPlaceholder(r)
  {
    var cleaned := ReplaceEach(CleanupBeforePairs, input);
    var mapped := ReplaceEach(RustEntries, cleaned);
    var ra := Rewrite(RaReorder, KinziReordered(mapped));
    var stored := Rewrite(StorageOrder(true), ZeroWa(ra));
    var corrected := RustCorrection1(stored);
    CleanupAfterRemovesPlaceholders(corrected);
    ReplaceEach(CleanupAfterPairs, corrected)
  }

  /** `win_to_myanmar3`. */
  method WinToMyanmar3(input: string) returns (output: string)
    ensures output == Transcoded(input)
  {
    var cleaned := CleanupBeforeConvert(input);
    var unistr := ApplyFontMapping(cleaned);
    unistr := Rewrite(KinziFirst, unistr);
    unistr := Rewrite(KinziGlyphD, unistr);
    unistr := Rewrite(KinziGlyphCapitalD, unistr);
    unistr := Rewrite(KinziGlyphH, unistr);
    unistr := Rewrite(RaReorder, unistr);
    unistr := ReplaceZeroWa(unistr);
    unistr := Rewrite(StorageOrder(true), unistr);
    unistr := Correction1(unistr);
    output := CleanupAfterConvert(unistr);
  }

  /**
   * The font mapping already turns the three legacy kinzi glyphs into
   * kinzi text, so the three glyph passes never find anything to rewrite:
   * on the mapped text (see `ApplyFontMapping`) only the first kinzi pass
   * has an effect.
   */
  lemma GlyphKinziPassesInert(mapped: string)
    requires NoKinziGlyph(mapped)
    ensures KinziReordered(mapped) == Rewrite(KinziFirst, mapped)
  {
    GlyphPassesInertAfter(KinziMark, mapped);
  }

  /** After a first kinzi pass whose replacement holds no kinzi glyph, on a
      text that holds none, the three glyph passes change nothing. */
  lemma GlyphPassesInertAfter(lead: string, s: string)
    requires NoKinziGlyph(lead) && NoKinziGlyph(s)
    ensures var first := Rewrite(Kinzi(KinziMark, lead, []), s);
      Rewrite(KinziGlyphH, Rewrite(KinziGlyphCapitalD, Rewrite(KinziGlyphD, first))) == first
  {
    var first := Rewrite(Kinzi(KinziMark, lead, []), s);
    KinziRewriteChars(KinziMark, lead, [], s);
    KinziPassInert('\U{00D8}', "F", "d", first);
    KinziPassInert('\U{00D0}', "F", "D", first);
    KinziPassInert('\U{00F8}', "F", "H", first);
  }

  /** The first kinzi pass moves the kinzi in front of its consonant: it
      only rearranges characters. */
  lemma KinziFirstPermutes(s: string)
    ensures multiset(Rewrite(KinziFirst, s)) == multiset(s)
  {
    RewritePermutes(KinziFirst, s);
  }
}
