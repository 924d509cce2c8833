/**
 * The TypeScript transcoder (`winToMyanmar3`), which runs the Rust
 * pipeline's stages with three differences: no clean-up of stray spaces or
 * placeholders, a first kinzi pass whose replacement is written with escaped
 * backslashes, and a storage-order replacement without its last group.
 * Its correction1 differs in its last step, which only rewrites the first
 * asat-before-dot-below.
 */
module TsPort {
  import opened Replace
  import opened MappingTables
  import opened Scanners
  import opened Correction
  import opened Transcoder

  /** `applyFontMapping`: `split(key).join(value)` for every entry in turn;
      with a non-empty key that is the replacement of every occurrence. */
  method ApplyFontMapping(input: string) returns (result: string)
    ensures result == ReplaceEach(TsEntries, input)
    ensures NoKinziGlyph(result)
  {
    result := ReplaceEachInOrder(TsEntries, input);
    TsMappingLeavesNoKinziGlyph(input);
  }

  /** `childdeldul` with the UTF-16 length of the match; every character the
      model handles is one UTF-16 unit. */
  function JsChilddeldul(m: string): (r: string)
    ensures r <= m
    ensures m != [] ==> |r| == 1
  {
    if |m| > 1 then [m[0]] else m
  }

  /** The two versions cut a run of marks the same way: a run of two or more
      becomes its first mark, a single character is left as it is. */
  lemma ChilddeldulAgree(m: string)
    ensures JsChilddeldul(m) == Childdeldul(m)
    ensures |m| > 1 ==> JsChilddeldul(m) == [m[0]]
    ensures |m| <= 1 ==> JsChilddeldul(m) == m
  {
    if |m| == 1 {
      assert m == [m[0]] && m[1..] == [];
      assert Utf8Length(m) == Utf8Width(m[0]) + Utf8Length(m[1..]);
    } else if |m| > 1 {
      assert Utf8Length(m) == Utf8Width(m[0]) + Utf8Length(m[1..]);
      assert Utf8Length(m[1..]) == Utf8Width(m[1]) + Utf8Length(m[2..]);
    }
  }

  // ---------------------------------------------------------------------
  // Kinzi
  // ---------------------------------------------------------------------

  /** The first kinzi pass as written: its replacement text spells the kinzi
      as the eighteen characters `\u1004\u103A\u1039`. */
  const KinziFirstAsWritten: Pattern := Kinzi(KinziMark, "\\u1004\\u103A\\u1039", [])

  /** Wherever the first kinzi pass as written matches, a backslash is
      written into the text. */
  lemma KinziFirstAsWrittenWritesBackslash(s: string)
    requires MatchAt(KinziFirstAsWritten, s).Some?
    ensures '\\' in Rewrite(KinziFirstAsWritten, s)
  {
    var m := MatchAt(KinziFirstAsWritten, s).value;
    RewriteUnfold(KinziFirstAsWritten, s);
    assert Rewrite(KinziFirstAsWritten, s)[0] == m.out[0] == '\\';
  }

  /** An apostrophe (what the mapping makes of `]`) before a kinzi: the pass
      as written leaves escape text, the intended pass moves the kinzi. */
  lemma KinziFirstAsWrittenExample()
    ensures Rewrite(KinziFirstAsWritten, "'" + KinziMark) == "\\u1004\\u103A\\u1039'"
    ensures Rewrite(KinziFirst, "'" + KinziMark) == KinziMark + "'"
  {
    var s := "'" + KinziMark;
    assert Opt(s, 0, 'a') == 0 && Opt(s, 0, 'j') == 0 && IsKinziBase(s[0]);
    assert s[..1] == "'" && IsPrefix(KinziMark, s[1..]);
    assert KinziMatch(s, KinziMark, "\\u1004\\u103A\\u1039", []).Some?;
    assert KinziMatch(s, KinziMark, KinziMark, []).Some?;
    RewriteUnfold(KinziFirstAsWritten, s);
    RewriteUnfold(KinziFirst, s);
    assert s[4..] == [];
  }

  /** All four kinzi passes, the first one as written. */
  function KinziReorderedAsWritten(s: string): string
  {
    Rewrite(KinziGlyphH, Rewrite(KinziGlyphCapitalD, Rewrite(KinziGlyphD, Rewrite(KinziFirstAsWritten, s))))
  }

  /** As in the Rust pipeline, the three glyph passes find nothing after the
      mapping. */
  lemma GlyphKinziPassesInert(mapped: string)
    requires NoKinziGlyph(mapped)
    ensures KinziReorderedAsWritten(mapped) == Rewrite(KinziFirstAsWritten, mapped)
  {
    GlyphPassesInertAfter("\\u1004\\u103A\\u1039", mapped);
  }

  // ---------------------------------------------------------------------
  // Zero and wa
  // ---------------------------------------------------------------------

  /** One lookaround pass: every `digit` with Myanmar context right after or
      right before it becomes `letter`; the context is read in the text the
      pass starts from. */
  function ContextPass(s: string, digit: char, letter: char): (r: string)
    ensures |r| == |s|
  {
    seq(|s|, i requires 0 <= i < |s| =>
      if s[i] == digit && ((i + 1 < |s| && IsMmContext(s[i + 1])) || (i > 0 && IsMmContext(s[i - 1])))
      then letter else s[i])
  }

  /** The zero pass, then the seven pass. */
  function TsZeroWa(s: string): string
  {
    ContextPass(ContextPass(s, '\U{1040}', '\U{101D}'), '\U{1047}', '\U{101B}')
  }

  /** Neither the digits nor wa are Myanmar context, so the two passes of the
      TypeScript version decide every position as the single pass of the
      Rust version does. */
  lemma TsZeroWaAgrees(s: string)
    ensures TsZeroWa(s) == ZeroWa(s)
  {
    var s1 := ContextPass(s, '\U{1040}', '\U{101D}');
    forall j | 0 <= j < |s| ensures IsMmContext(s1[j]) == IsMmContext(s[j]) {
    }
    forall i | 0 <= i < |s| ensures TsZeroWa(s)[i] == ZeroWa(s)[i] {
    }
  }

  // ---------------------------------------------------------------------
  // Storage order
  // ---------------------------------------------------------------------

  /** Ka, the lower vowel sign u, then the upper vowel sign i (the typed order
      of "ko"): the replacement as written drops the i, the Rust one keeps it. */
  lemma StorageAsWrittenExample()
    ensures Rewrite(StorageOrder(false), "\U{1000}\U{102F}\U{102D}") == "\U{1000}\U{102F}"
    ensures Rewrite(StorageOrder(true), "\U{1000}\U{102F}\U{102D}") == "\U{1000}\U{102F}\U{102D}"
  {
    var s := "\U{1000}\U{102F}\U{102D}";
    KoGroups();
    var g := StorageSplit(0, 1, 1, 1, 1, 2, 3);
    assert StorageOut(s, g, false) == "\U{1000}\U{102F}";
    assert StorageOut(s, g, true) == s;
    RewriteUnfold(StorageOrder(false), s);
    RewriteUnfold(StorageOrder(true), s);
    assert s[3..] == [];
  }

  /** The groups of the storage-order pattern in ka, u, i: the consonant, no
      upper sign, tones or medials, the lower sign, the second upper sign. */
  lemma KoGroups()
    ensures StorageGroups("\U{1000}\U{102F}\U{102D}") == Some(StorageSplit(0, 1, 1, 1, 1, 2, 3))
  {
    var s := "\U{1000}\U{102F}\U{102D}";
    assert Span(s[1..], IsMedial) == 0;
  }

  // ---------------------------------------------------------------------
  // correction1 and the pipeline
  // ---------------------------------------------------------------------

  /** correction1 of the TypeScript version: its last step rewrites only the
      first asat-before-dot-below. */
  function TsCorrection1(s: string): string
  {
    ReplaceFirst(Corrected(s), [T[2], T[0]], [T[0], T[2]])
  }

  /** `correction1`. */
  method Correction1(input: string) returns (unistr: string)
    ensures unistr == TsCorrection1(input)
  {
    unistr := ApplyCorrections(input);
    unistr := ReplaceFirst(unistr, [T[2], T[0]], [T[0], T[2]]);
  }

  /** Two asat-before-dot-below pairs: the Rust step swaps both, the
      TypeScript step only the first. */
  lemma LastStepExample()
    ensures ReplaceAll("\U{103A}\U{1037}\U{103A}\U{1037}", [T[2], T[0]], [T[0], T[2]])
         == "\U{1037}\U{103A}\U{1037}\U{103A}"
    ensures ReplaceFirst("\U{103A}\U{1037}\U{103A}\U{1037}", [T[2], T[0]], [T[0], T[2]])
         == "\U{1037}\U{103A}\U{103A}\U{1037}"
  {
    var s := "\U{103A}\U{1037}\U{103A}\U{1037}";
    assert s[..2] == [T[2], T[0]];
    assert s[2..][..2] == [T[2], T[0]];
    assert s[2..][2..] == [];
  }

  /** `winToMyanmar3` as a function of its input. */
  function TsTranscoded(input: string): string
  {
    var mapped := ReplaceEach(TsEntries, input);
    var ra := Rewrite(RaReorder, KinziReorderedAsWritten(mapped));
    var stored := Rewrite(StorageOrder(false), TsZeroWa(ra));
    TsCorrection1(stored)
  }

  /** `winToMyanmar3`. */
  method WinToMyanmar3(input: string) returns (output: string)
    ensures output == TsTranscoded(input)
  {
    var unistr := ApplyFontMapping(input);
    unistr := Rewrite(KinziFirstAsWritten, unistr);
    unistr := Rewrite(KinziGlyphD, unistr);
    unistr := Rewrite(KinziGlyphCapitalD, unistr);
    unistr := Rewrite(KinziGlyphH, unistr);
    unistr := Rewrite(RaReorder, unistr);
    unistr := ContextPass(unistr, '\U{1040}', '\U{101D}');
    unistr := ContextPass(unistr, '\U{1047}', '\U{101B}');
    unistr := Rewrite(StorageOrder(false), unistr);
    output := Correction1(unistr);
  }
}
