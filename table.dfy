/**
 * The ordered Win-encoding-to-Unicode replacement tables.
 *
 * Both transcoders share most of their table.  It is kept here in the
 * sections the Rust source marks with comments; the two full tables are the
 * concatenations of those sections in source order.
 */
module MappingTables {
  import opened Replace

  /** Multi-letter combinations, applied first (win_to_myanmar3.rs:5-11). */
  const KinziCombinations: Table := [
    ("ps", "\U{1008}"),
    ("Bo", "\U{1029}"),
    ("Mo", "\U{1029}"),
    ("OD", "\U{1026}"),
    ("\U{00CD}D", "\U{1026}"),
    ("aBomf", "\U{102A}"),
    ("aMomf", "\U{102A}")
  ]

  /** The kinzi letter, the three precomposed kinzi glyphs U+00F8, U+00D0 and U+00D8, and medial pairs (win_to_myanmar3.rs:14-25). */
  const TwoCharHead: Table := [
    ("F", "\U{1004}\U{103A}\U{1039}"),
    ("\U{00F8}", "\U{1036}\U{1004}\U{103A}\U{1039}"),
    ("\U{00D0}", "\U{1004}\U{103A}\U{1039}\U{102E}"),
    ("\U{00D8}", "\U{1004}\U{103A}\U{1039}\U{102D}"),
    ("\U{00F0}", "\U{102D}\U{1036}"),
    ("R", "\U{103B}\U{103D}"),
    ("Q", "\U{103B}\U{103E}"),
    ("W", "\U{103B}\U{103D}\U{103E}"),
    ("<", "\U{103C}\U{103D}"),
    (">", "\U{103C}\U{103D}"),
    ("\U{00EA}", "\U{103C}\U{102F}"),
    ("\U{00FB}", "\U{103C}\U{102F}")
  ]

  /** The ka-plus-medial-ra pair, present only in the Rust table (win_to_myanmar3.rs:26). */
  const BuEntry: Table := [
    ("Bu", "\U{1000}\U{103C}")
  ]

  /** The remaining two-character combinations (win_to_myanmar3.rs:27-30). */
  const TwoCharTail: Table := [
    ("T", "\U{103D}\U{103D}\U{103E}"),
    ("I", "\U{103E}\U{102F}"),
    ("\U{00AA}", "\U{103E}\U{1030}"),
    (":", "\U{102B}\U{103A}")
  ]

  /** Special characters: independent letters and the great sa (win_to_myanmar3.rs:33-38). */
  const SpecialLetters: Table := [
    ("\U{00FE}", "\U{1024}"),
    ("\U{00A3}", "\U{1023}"),
    ("O", "\U{1025}"),
    ("\U{00CD}", "\U{1025}"),
    ("\U{00D3}", "\U{1009}\U{102C}"),
    ("\U{00F3}", "\U{103F}")
  ]

  /** Special characters: stacked pairs and punctuation stand-ins (win_to_myanmar3.rs:39-46). */
  const SpecialStacks: Table := [
    ("@", "\U{100F}\U{1039}\U{100D}"),
    ("|", "\U{100B}\U{1039}\U{100C}"),
    ("\U{00A5}", "\U{100B}\U{1039}\U{100B}"),
    ("\U{00D7}", "\U{100D}\U{1039}\U{100D}"),
    ("\U{00B9}", "\U{100E}\U{1039}\U{100D}"),
    ("\U{00BF}", "?"),
    ("\U{00B5}", "!"),
    ("\U{03BC}", "!")
  ]

  /** Placeholders for brackets and comma, present only in the TypeScript table (WinToMyanmar3.ts:53-55). */
  const Placeholders: Table := [
    ("\U{00AB}", "["),
    ("\U{00BB}", "]"),
    ("\U{00E7}", ",")
  ]

  /** Special characters: currency, star and fractions (win_to_myanmar3.rs:47-57). */
  const SpecialFractions: Table := [
    ("$", "\U{1000}\U{1019}\U{1015}\U{103A}"),
    ("_", "*"),
    ("\U{0192}", "\U{1041}\U{2044}\U{1042}"),
    ("\U{201E}", "\U{1041}\U{2044}\U{1043}"),
    ("\U{2026}", "\U{1042}\U{2044}\U{1043}"),
    ("\U{2020}", "\U{1041}\U{2044}\U{1044}"),
    ("\U{2021}", "\U{1043}\U{2044}\U{1044}"),
    ("\U{02C6}", "\U{1041}\U{2044}\U{1045}"),
    ("\U{2030}", "\U{1042}\U{2044}\U{1045}"),
    ("\U{0160}", "\U{1043}\U{2044}\U{1045}"),
    ("\U{2039}", "\U{1044}\U{2044}\U{1045}")
  ]

  /** Special characters: the Myanmar symbols U+104C..U+104F (win_to_myanmar3.rs:58-61). */
  const SpecialSigns: Table := [
    ("\U{00FC}", "\U{104C}"),
    ("\U{00ED}", "\U{104D}"),
    ("\U{00A4}", "\U{104E}"),
    ("\\", "\U{104F}")
  ]

  /** Stacked consonants written with U+1039 (win_to_myanmar3.rs:64-85). */
  const StackedConsonants: Table := [
    ("\U{00FA}", "\U{1039}\U{1000}"),
    ("\U{00A9}", "\U{1039}\U{1001}"),
    ("\U{00BE}", "\U{1039}\U{1002}"),
    ("\U{00A2}", "\U{1039}\U{1003}"),
    ("\U{00F6}", "\U{1039}\U{1005}"),
    ("\U{00E4}", "\U{1039}\U{1006}"),
    ("\U{00C6}", "\U{1039}\U{1007}"),
    ("\U{00D1}", "\U{1039}\U{1008}"),
    ("\U{00B3}", "\U{1039}\U{100C}"),
    ("\U{00B2}", "\U{1039}\U{100D}"),
    ("\U{00DC}", "\U{1039}\U{1015}"),
    ("\U{00D6}", "\U{1039}\U{100F}"),
    ("\U{00C5}", "\U{1039}\U{1010}"),
    ("\U{00E5}", "\U{1039}\U{1010}"),
    ("\U{00A6}", "\U{1039}\U{1011}"),
    ("\U{00AC}", "\U{1039}\U{1011}"),
    ("\U{00B4}", "\U{1039}\U{1012}"),
    ("\U{00A8}", "\U{1039}\U{1013}"),
    ("\U{00E9}", "\U{1039}\U{1014}"),
    ("\U{00E6}", "\U{1039}\U{1016}"),
    ("\U{00C7}", "\U{1039}\U{1018}"),
    ("\U{00AE}", "\U{1039}\U{1019}")
  ]

  /** Consonants, first part (win_to_myanmar3.rs:88-99). */
  const ConsonantsA: Table := [
    ("u", "\U{1000}"),
    ("c", "\U{1001}"),
    ("*", "\U{1002}"),
    ("C", "\U{1003}"),
    ("i", "\U{1004}"),
    ("p", "\U{1005}"),
    ("q", "\U{1006}"),
    ("Z", "\U{1007}"),
    ("\U{00DA}", "\U{1009}"),
    ("n", "\U{100A}"),
    ("\U{00F1}", "\U{100A}"),
    ("#", "\U{100B}")
  ]

  /** Consonants, second part (win_to_myanmar3.rs:100-111). */
  const ConsonantsB: Table := [
    ("X", "\U{100C}"),
    ("!", "\U{100D}"),
    ("\U{00A1}", "\U{100E}"),
    ("P", "\U{100F}"),
    ("w", "\U{1010}"),
    ("x", "\U{1011}"),
    ("'", "\U{1012}"),
    ("\"", "\U{1013}"),
    ("e", "\U{1014}"),
    ("E", "\U{1014}"),
    ("y", "\U{1015}"),
    ("z", "\U{1016}")
  ]

  /** Consonants, third part (win_to_myanmar3.rs:112-122). */
  const ConsonantsC: Table := [
    ("A", "\U{1017}"),
    ("b", "\U{1018}"),
    ("r", "\U{1019}"),
    (",", "\U{101A}"),
    ("&", "\U{101B}"),
    ("\U{00BD}", "\U{101B}"),
    ("v", "\U{101C}"),
    ("o", "\U{101E}"),
    ("[", "\U{101F}"),
    ("V", "\U{1020}"),
    ("t", "\U{1021}")
  ]

  /** Medial consonants (win_to_myanmar3.rs:125-135). */
  const Medials: Table := [
    ("s", "\U{103B}"),
    ("\U{00DF}", "\U{103B}"),
    ("`", "\U{103C}"),
    ("j", "\U{103C}"),
    ("~", "\U{103C}"),
    ("B", "\U{103C}"),
    ("M", "\U{103C}"),
    ("N", "\U{103C}"),
    ("G", "\U{103D}"),
    ("S", "\U{103E}"),
    ("\U{00A7}", "\U{103E}")
  ]

  /** Independent vowels (win_to_myanmar3.rs:138). */
  const IndependentVowels: Table := [
    ("{", "\U{1027}")
  ]

  /** Dependent vowels (win_to_myanmar3.rs:141-151). */
  const DependentVowels: Table := [
    ("g", "\U{102B}"),
    ("m", "\U{102C}"),
    ("d", "\U{102D}"),
    ("D", "\U{102E}"),
    ("k", "\U{102F}"),
    ("K", "\U{102F}"),
    ("l", "\U{1030}"),
    ("L", "\U{1030}"),
    ("a", "\U{1031}"),
    ("J", "\U{1032}"),
    ("H", "\U{1036}")
  ]

  /** Tone marks and signs (win_to_myanmar3.rs:154-158). */
  const ToneMarks: Table := [
    ("f", "\U{103A}"),
    ("Y", "\U{1037}"),
    ("U", "\U{1037}"),
    ("h", "\U{1037}"),
    (";", "\U{1038}")
  ]

  /** Digits, after the consonants so that "0" ends up a digit (win_to_myanmar3.rs:161-170). */
  const Digits: Table := [
    ("0", "\U{1040}"),
    ("1", "\U{1041}"),
    ("2", "\U{1042}"),
    ("3", "\U{1043}"),
    ("4", "\U{1044}"),
    ("5", "\U{1045}"),
    ("6", "\U{1046}"),
    ("7", "\U{1047}"),
    ("8", "\U{1048}"),
    ("9", "\U{1049}")
  ]

  /** Punctuation, applied last (win_to_myanmar3.rs:173-177). */
  const Punctuation: Table := [
    ("/", "\U{104B}"),
    ("?", "\U{104A}"),
    ("]", "'"),
    ("}", "'"),
    ("^", "/")
  ]

  /** The sections of FONT_MAPPING_ENTRIES (win_to_myanmar3.rs:3-178), in
      source order. */
  const RustSections: seq<Table> := [
    KinziCombinations, TwoCharHead, BuEntry, TwoCharTail, SpecialLetters, SpecialStacks,
    SpecialFractions, SpecialSigns, StackedConsonants, ConsonantsA, ConsonantsB, ConsonantsC,
    Medials, IndependentVowels, DependentVowels, ToneMarks, Digits, Punctuation
  ]

  /** The sections of fontMappingEntries (WinToMyanmar3.ts:10-187): no
      ka-plus-medial-ra pair, and the three placeholders after the special
      stacks. */
  const TsSections: seq<Table> := [
    KinziCombinations, TwoCharHead, TwoCharTail, SpecialLetters, SpecialStacks, Placeholders,
    SpecialFractions, SpecialSigns, StackedConsonants, ConsonantsA, ConsonantsB, ConsonantsC,
    Medials, IndependentVowels, DependentVowels, ToneMarks, Digits, Punctuation
  ]

  /** FONT_MAPPING_ENTRIES: 153 entries. */
  const RustEntries: Table := Flatten(RustSections)

  /** fontMappingEntries: 155 entries. */
  const TsEntries: Table := Flatten(TsSections)

  /** True iff `s` holds none of the three precomposed kinzi glyphs U+00D8,
      U+00D0 and U+00F8 that the second to fourth kinzi passes look for. */
  predicate NoKinziGlyph(s: string)
  {
    '\U{00D8}' !in s && '\U{00D0}' !in s && '\U{00F8}' !in s
  }

  /** True iff no replacement value of `t` holds a kinzi glyph. */
  predicate ValuesNoKinziGlyph(t: Table)
  {
    forall k :: 0 <= k < |t| ==> NoKinziGlyph(t[k].1)
  }

  // One lemma per section keeps each table fact a small proof obligation.
  lemma KinziCombinationsClean() ensures ValuesNoKinziGlyph(KinziCombinations) {}
  lemma TwoCharHeadClean() ensures ValuesNoKinziGlyph(TwoCharHead) {}
  lemma TwoCharTailClean() ensures ValuesNoKinziGlyph(BuEntry) && ValuesNoKinziGlyph(TwoCharTail) {}
  lemma SpecialLettersClean() ensures ValuesNoKinziGlyph(SpecialLetters) {}
  lemma SpecialStacksClean() ensures ValuesNoKinziGlyph(SpecialStacks) && ValuesNoKinziGlyph(Placeholders) {}
  lemma SpecialFractionsClean() ensures ValuesNoKinziGlyph(SpecialFractions) && ValuesNoKinziGlyph(SpecialSigns) {}
  lemma StackedConsonantsClean() ensures ValuesNoKinziGlyph(StackedConsonants) {}
  lemma ConsonantsAClean() ensures ValuesNoKinziGlyph(ConsonantsA) {}
  lemma ConsonantsBClean() ensures ValuesNoKinziGlyph(ConsonantsB) {}
  lemma ConsonantsCClean() ensures ValuesNoKinziGlyph(ConsonantsC) {}
  lemma VowelSectionsClean() ensures ValuesNoKinziGlyph(Medials) && ValuesNoKinziGlyph(IndependentVowels) && ValuesNoKinziGlyph(DependentVowels) {}
  lemma TrailingSectionsClean() ensures ValuesNoKinziGlyph(ToneMarks) && ValuesNoKinziGlyph(Digits) && ValuesNoKinziGlyph(Punctuation) {}

  lemma AllSectionsClean()
    ensures forall i :: 0 <= i < |RustSections| ==> ValuesNoKinziGlyph(RustSections[i])
    ensures forall i :: 0 <= i < |TsSections| ==> ValuesNoKinziGlyph(TsSections[i])
  {
    KinziCombinationsClean();
    TwoCharHeadClean();
    TwoCharTailClean();
    SpecialLettersClean();
    SpecialStacksClean();
    SpecialFractionsClean();
    StackedConsonantsClean();
    ConsonantsAClean();
    ConsonantsBClean();
    ConsonantsCClean();
    VowelSectionsClean();
    TrailingSectionsClean();
  }

  /** A sectioned table none of whose sections writes a kinzi glyph writes
      none either. */
  lemma {:induction false} FlattenValuesNoKinziGlyph(ts: seq<Table>)
    requires forall i :: 0 <= i < |ts| ==> ValuesNoKinziGlyph(ts[i])
    ensures ValuesNoKinziGlyph(Flatten(ts))
  {
    if ts != [] {
      FlattenValuesNoKinziGlyph(ts[1..]);
      var a: Table, b: Table := ts[0], Flatten(ts[1..]);
      forall k | 0 <= k < |a + b| ensures NoKinziGlyph((a + b)[k].1) {
        if k >= |a| { assert (a + b)[k] == b[k - |a|]; }
      }
    }
  }

  /** A sectioned table whose second section replaces the three kinzi
      glyphs at its entries 1 to 3 after a first section of seven entries, and
      none of whose values writes one, leaves no kinzi glyph behind. */
  lemma FlattenLeavesNoKinziGlyph(ts: seq<Table>, s: string)
    requires forall i :: 0 <= i < |ts| ==> ValuesNoKinziGlyph(ts[i])
    requires |ts| >= 2 && |ts[0]| == 7 && |ts[1]| >= 4
    requires ts[1][1].0 == ['\U{00F8}'] && ts[1][2].0 == ['\U{00D0}'] && ts[1][3].0 == ['\U{00D8}']
    ensures NoKinziGlyph(ReplaceEach(Flatten(ts), s))
  {
    FlattenValuesNoKinziGlyph(ts);
    var t := Flatten(ts);
    assert t == ts[0] + (ts[1] + Flatten(ts[2..])) by {
      assert ts[1..][0] == ts[1] && ts[1..][1..] == ts[2..];
      assert Flatten(ts[1..]) == ts[1] + Flatten(ts[2..]);
    }
    ReplaceEachRemovesChar(t, 8, '\U{00F8}', s);
    ReplaceEachRemovesChar(t, 9, '\U{00D0}', s);
    ReplaceEachRemovesChar(t, 10, '\U{00D8}', s);
  }

  /**
   * After the Rust font mapping no kinzi glyph is left: entries 8, 9 and 10
   * replace U+00F8, U+00D0 and U+00D8, and no value from there on holds any
   * of them.
   */
  lemma RustMappingLeavesNoKinziGlyph(s: string)
    ensures NoKinziGlyph(ReplaceEach(RustEntries, s))
  {
    AllSectionsClean();
    FlattenLeavesNoKinziGlyph(RustSections, s);
  }

  /** The same holds of the TypeScript table, whose first two sections are the
      Rust table's. */
  lemma TsMappingLeavesNoKinziGlyph(s: string)
    ensures NoKinziGlyph(ReplaceEach(TsEntries, s))
  {
    AllSectionsClean();
    FlattenLeavesNoKinziGlyph(TsSections, s);
  }

  // ---------------------------------------------------------------------
  // The placeholders for brackets and comma
  // ---------------------------------------------------------------------

  /** The placeholders for `[`, `]` and `,`. */
  predicate IsPlaceholder(c: char)
  {
    c == '\U{00AB}' || c == '\U{00BB}' || c == '\U{00E7}'
  }

  /** The characters a placeholder becomes on its way through a table: the
      placeholders, the bracket and comma keys, ha and ya. */
  predicate IsTracked(c: char)
  {
    IsPlaceholder(c) || c == '[' || c == ']' || c == ',' || c == '\U{101F}' || c == '\U{101A}'
  }

  lemma KinziCombinationsAvoids(c: char) requires IsTracked(c) ensures KeysAvoid(KinziCombinations, c) {}
  lemma TwoCharHeadAvoids(c: char) requires IsTracked(c) ensures KeysAvoid(TwoCharHead, c) {}
  lemma BuEntryAvoids(c: char) requires IsTracked(c) ensures KeysAvoid(BuEntry, c) {}
  lemma TwoCharTailAvoids(c: char) requires IsTracked(c) ensures KeysAvoid(TwoCharTail, c) {}
  lemma SpecialLettersAvoids(c: char) requires IsTracked(c) ensures KeysAvoid(SpecialLetters, c) {}
  lemma SpecialStacksAvoids(c: char) requires IsTracked(c) ensures KeysAvoid(SpecialStacks, c) {}
  lemma SpecialFractionsAvoids(c: char) requires IsTracked(c) ensures KeysAvoid(SpecialFractions, c) {}
  lemma SpecialSignsAvoids(c: char) requires IsTracked(c) ensures KeysAvoid(SpecialSigns, c) {}
  lemma StackedConsonantsAvoids(c: char) requires IsTracked(c) ensures KeysAvoid(StackedConsonants, c) {}
  lemma ConsonantsAAvoids(c: char) requires IsTracked(c) ensures KeysAvoid(ConsonantsA, c) {}
  lemma ConsonantsBAvoids(c: char) requires IsTracked(c) ensures KeysAvoid(ConsonantsB, c) {}
  lemma ConsonantsCAvoids(c: char) requires IsTracked(c) && c != '[' && c != ',' ensures KeysAvoid(ConsonantsC, c) {}
  lemma MedialsAvoids(c: char) requires IsTracked(c) ensures KeysAvoid(Medials, c) {}
  lemma IndependentVowelsAvoids(c: char) requires IsTracked(c) ensures KeysAvoid(IndependentVowels, c) {}
  lemma DependentVowelsAvoids(c: char) requires IsTracked(c) ensures KeysAvoid(DependentVowels, c) {}
  lemma ToneMarksAvoids(c: char) requires IsTracked(c) ensures KeysAvoid(ToneMarks, c) {}
  lemma DigitsAvoids(c: char) requires IsTracked(c) ensures KeysAvoid(Digits, c) {}
  lemma PunctuationAvoids(c: char) requires IsTracked(c) && c != ']' ensures KeysAvoid(Punctuation, c) {}
  lemma PlaceholdersAvoids(c: char) requires IsTracked(c) && !IsPlaceholder(c) ensures KeysAvoid(Placeholders, c) {}

  /** No section of the Rust table has a placeholder as a pattern. */
  lemma RustSectionsAvoidPlaceholder(p: char)
    requires IsPlaceholder(p)
    ensures forall i :: 0 <= i < |RustSections| ==> KeysAvoid(RustSections[i], p)
  {
    KinziCombinationsAvoids(p);
    TwoCharHeadAvoids(p);
    BuEntryAvoids(p);
    TwoCharTailAvoids(p);
    SpecialLettersAvoids(p);
    SpecialStacksAvoids(p);
    SpecialFractionsAvoids(p);
    SpecialSignsAvoids(p);
    StackedConsonantsAvoids(p);
    ConsonantsAAvoids(p);
    ConsonantsBAvoids(p);
    ConsonantsCAvoids(p);
    MedialsAvoids(p);
    IndependentVowelsAvoids(p);
    DependentVowelsAvoids(p);
    ToneMarksAvoids(p);
    DigitsAvoids(p);
    PunctuationAvoids(p);
  }

  /** The Rust table has no entry for the three placeholders, so the
      mapping leaves each of them as it is. */
  lemma RustMappingKeepsPlaceholder(p: char)
    requires IsPlaceholder(p)
    ensures ReplaceEach(RustEntries, [p]) == [p]
  {
    RustSectionsAvoidPlaceholder(p);
    FlattenFixes(RustSections, p);
  }

  /** The first five sections of the TypeScript table have no placeholder
      as a pattern. */
  lemma TsHeadAvoidsPlaceholder(p: char)
    requires IsPlaceholder(p)
    ensures forall i :: 0 <= i < 5 ==> KeysAvoid(TsSections[i], p)
  {
    KinziCombinationsAvoids(p);
    TwoCharHeadAvoids(p);
    TwoCharTailAvoids(p);
    SpecialLettersAvoids(p);
    SpecialStacksAvoids(p);
  }

  /** Sections 6 to 10 of the TypeScript table have no bracket or comma as a
      pattern, and neither has any section up to 16 a closing bracket. */
  lemma TsMiddleAvoidsBrackets(c: char)
    requires c == '[' || c == ',' || c == ']'
    ensures forall i :: 5 < i < 11 ==> KeysAvoid(TsSections[i], c)
    ensures c == ']' ==> forall i :: 5 < i < 17 ==> KeysAvoid(TsSections[i], c)
  {
    SpecialFractionsAvoids(c);
    SpecialSignsAvoids(c);
    StackedConsonantsAvoids(c);
    ConsonantsAAvoids(c);
    ConsonantsBAvoids(c);
    if c == ']' {
      ConsonantsCAvoids(c);
      MedialsAvoids(c);
      IndependentVowelsAvoids(c);
      DependentVowelsAvoids(c);
      ToneMarksAvoids(c);
      DigitsAvoids(c);
    }
  }

  /** The last six sections of the TypeScript table have no ha and no ya as
      a pattern. */
  lemma TsTailAvoidsLetters(c: char)
    requires c == '\U{101F}' || c == '\U{101A}'
    ensures forall i :: 11 < i < |TsSections| ==> KeysAvoid(TsSections[i], c)
  {
    MedialsAvoids(c);
    IndependentVowelsAvoids(c);
    DependentVowelsAvoids(c);
    ToneMarksAvoids(c);
    DigitsAvoids(c);
    PunctuationAvoids(c);
  }

  /** The placeholder section turns each placeholder into its character. */
  lemma PlaceholdersSteps()
    ensures ReplaceEach(TsSections[5], ['\U{00AB}']) == ['[']
    ensures ReplaceEach(TsSections[5], ['\U{00BB}']) == [']']
    ensures ReplaceEach(TsSections[5], ['\U{00E7}']) == [',']
  {
    var t := TsSections[5];
    assert t == Placeholders;
    ReplaceEachOneStep(t, 0, '\U{00AB}', '[');
    ReplaceEachOneStep(t, 1, '\U{00BB}', ']');
    ReplaceEachOneStep(t, 2, '\U{00E7}', ',');
  }

  /** The third consonant section reads `[` as ha. */
  lemma OpenBracketStep()
    ensures ReplaceEach(TsSections[11], ['[']) == ['\U{101F}']
  {
    var t := TsSections[11];
    assert t == ConsonantsC;
    ReplaceEachOneStep(t, 8, '[', '\U{101F}');
  }

  /** The third consonant section reads `,` as ya. */
  lemma CommaStep()
    ensures ReplaceEach(TsSections[11], [',']) == ['\U{101A}']
  {
    var t := TsSections[11];
    assert t == ConsonantsC;
    ReplaceEachOneStep(t, 3, ',', '\U{101A}');
  }

  /** The punctuation section reads `]` as an apostrophe. */
  lemma PunctuationStep()
    ensures ReplaceEach(TsSections[17], [']']) == ['\'']
  {
    var t := TsSections[17];
    assert t == Punctuation;
    ReplaceEachOneStep(t, 2, ']', '\'');
  }

  /** The placeholder for `[` becomes `[` and then, by the entry for the
      legacy glyph `[`, the letter ha. */
  lemma OpenBracketPlaceholder()
    ensures ReplaceEach(TsEntries, ['\U{00AB}']) == ['\U{101F}']
  {
    TsHeadAvoidsPlaceholder('\U{00AB}');
    TsMiddleAvoidsBrackets('[');
    TsTailAvoidsLetters('\U{101F}');
    PlaceholdersSteps();
    OpenBracketStep();
    TwoStepChain(TsSections, 5, '\U{00AB}', '[', 11, '\U{101F}');
  }

  /** The placeholder for `,` becomes `,` and then, by the entry for the
      legacy glyph `,`, the letter ya. */
  lemma CommaPlaceholder()
    ensures ReplaceEach(TsEntries, ['\U{00E7}']) == ['\U{101A}']
  {
    TsHeadAvoidsPlaceholder('\U{00E7}');
    TsMiddleAvoidsBrackets(',');
    TsTailAvoidsLetters('\U{101A}');
    PlaceholdersSteps();
    CommaStep();
    TwoStepChain(TsSections, 5, '\U{00E7}', ',', 11, '\U{101A}');
  }

  /** The placeholder for `]` becomes `]` and then, by the punctuation entry
      for `]`, an apostrophe. */
  lemma CloseBracketPlaceholder()
    ensures ReplaceEach(TsEntries, ['\U{00BB}']) == ['\'']
  {
    TsHeadAvoidsPlaceholder('\U{00BB}');
    TsMiddleAvoidsBrackets(']');
    PlaceholdersSteps();
    PunctuationStep();
    TwoStepChain(TsSections, 5, '\U{00BB}', ']', 17, '\'');
  }
}
