/**
 * The corrections applied after the storage-order pass (`correction1`).
 *
 * Both transcoders run the same sequence of steps up to the last one; the
 * Rust version replaces every dot-below-after-asat in that last step, the
 * TypeScript version only the first.  The steps are kept here as data: a
 * table of literal replacements is folded with `ReplaceEach`, a regular
 * expression is one `Pattern` rewritten with `Rewrite`.  `Corrected` is the
 * shared part as a function of the input, and `ApplyCorrections` is the
 * step-by-step reassignment of the working string that the source performs.
 */
module Correction {
  import opened Replace
  import opened Scanners

  /** The character arrays of correction1, indexed as in the source:
      consonants, medials, vowel signs, independent vowels, tone and virama
      marks, digits. */
  const C: string := "\U{1000}\U{1001}\U{1002}\U{1003}\U{1004}\U{1005}\U{1006}\U{1007}\U{1008}\U{1009}\U{100A}\U{100B}\U{100C}\U{100D}\U{100E}\U{100F}\U{1010}\U{1011}\U{1012}\U{1013}\U{1014}\U{1015}\U{1016}\U{1017}\U{1018}\U{1019}\U{101A}\U{101B}\U{101C}\U{101D}\U{101E}\U{101F}\U{1020}\U{1021}"
  const M: string := "\U{103B}\U{103C}\U{103D}\U{103E}"
  const V: string := "\U{102B}\U{102C}\U{102D}\U{102E}\U{102F}\U{1030}\U{1031}\U{1032}\U{1036}"
  const IV: string := "\U{1023}\U{1024}\U{1025}\U{1026}\U{1027}\U{1029}\U{102A}\U{104E}"
  const T: string := "\U{1037}\U{1038}\U{103A}\U{1039}"
  const D: string := "\U{1040}\U{1041}\U{1042}\U{1043}\U{1044}\U{1045}\U{1046}\U{1047}\U{1048}\U{1049}"

  /** The other orders of ra, wa and ha, rewritten to ra wa ha. */
  const RaWaHa: Pattern := AnyOf([[M[3], M[2], M[1]], [M[3], M[1], M[2]], [M[2], M[3], M[1]],
                                  [M[2], M[1], M[3]], [M[1], M[3], M[2]]], [M[1], M[2], M[3]])

  /** The other orders of ya, wa and ha, rewritten to ya wa ha. */
  const YaWaHa: Pattern := AnyOf([[M[3], M[2], M[0]], [M[3], M[0], M[2]], [M[2], M[3], M[0]],
                                  [M[2], M[0], M[3]], [M[0], M[3], M[2]]], [M[0], M[2], M[3]])

  /** Runs of a duplicate-prone mark collapsed to one mark. */
  function Deduplicated(s: string): string
  {
    Rewrite(DuplicateMarks, s)
  }

  /** The eleven fixes of specific character combinations. */
  function Combined(s: string): string
  {
    var s := ReplaceAll(s, [C[5], M[0]], [C[8]]);
    var s := ReplaceAll(s, [C[30], M[1]], [IV[5]]);
    var s := ReplaceAll(s, [C[30], M[1], V[6], V[1], T[2]], [IV[6]]);
    var s := ReplaceAll(s, [IV[5], V[6], V[1], T[2]], [IV[6]]);
    var s := ReplaceAll(s, [IV[2], V[3]], [IV[3]]);
    var s := ReplaceAll(s, [IV[2], T[3]], [C[9], T[3]]);
    var s := ReplaceAll(s, [IV[2], T[2]], [C[9], T[2]]);
    var s := ReplaceAll(s, [IV[2], V[1]], [C[9], V[1]]);
    var s := ReplaceAll(s, [D[4], C[4], T[2], T[1]], [IV[7], C[4], T[2], T[1]]);
    var s := ReplaceAll(s, [T[0], T[2]], [T[2], T[0]]);
    ReplaceAll(s, [T[1], T[2]], [T[2], T[1]])
  }

  /** Five swaps of adjacent medials and two triple reorderings towards ya,
      ra, wa, ha.  No step moves ra before ya, so a ra typed before a ya stays
      there. */
  function MedialsOrdered(s: string): string
  {
    var s := ReplaceAll(s, [M[3], M[0]], [M[0], M[3]]);
    var s := ReplaceAll(s, [M[3], M[1]], [M[1], M[3]]);
    var s := ReplaceAll(s, [M[3], M[2]], [M[2], M[3]]);
    var s := ReplaceAll(s, [M[2], M[0]], [M[0], M[2]]);
    var s := ReplaceAll(s, [M[2], M[1]], [M[1], M[2]]);
    Rewrite(YaWaHa, Rewrite(RaWaHa, s))
  }

  /** Six swaps of adjacent vowel signs and the dot below. */
  function VowelsOrdered(s: string): string
  {
    var s := ReplaceAll(s, [V[8], V[4]], [V[4], V[8]]);
    var s := ReplaceAll(s, [V[4], V[2]], [V[2], V[4]]);
    var s := ReplaceAll(s, [V[8], V[2]], [V[2], V[8]]);
    var s := ReplaceAll(s, [T[0], V[4]], [V[4], T[0]]);
    var s := ReplaceAll(s, [T[0], V[7]], [V[7], T[0]]);
    ReplaceAll(s, [T[0], V[8]], [V[8], T[0]])
  }

  /** Two contracted words whose asat is moved, then a doubled asat made
      single. */
  function AsatsFixed(s: string): string
  {
    var s := ReplaceAll(s, [C[26], V[6], V[1], C[0], M[0], T[2], V[1]], [C[26], V[6], V[1], C[0], T[2], M[0], V[1]]);
    var s := ReplaceAll(s, [C[20], V[4], T[2]], [C[20], T[2], V[4]]);
    ReplaceAll(s, [T[2], T[2]], [T[2]])
  }

  /** Zero, seven and eight before `mark` read as wa, ra and ga. */
  function DigitsBeforeMark(s: string, mark: char): string
  {
    var s := ReplaceAll(s, [D[0], mark], [C[29], mark]);
    var s := ReplaceAll(s, [D[7], mark], [C[27], mark]);
    ReplaceAll(s, [D[8], mark], [C[2], mark])
  }

  /** Zero, seven and eight before asat, then before virama, read as wa, ra
      and ga. */
  function DigitSignsRead(s: string): string
  {
    DigitsBeforeMark(DigitsBeforeMark(s, T[2]), T[3])
  }

  /** Zero, seven and eight before a vowel sign, a medial or a final
      consonant read as wa, ra and ga. */
  function DigitClassesRead(s: string): string
  {
    var s := Rewrite(DigitAsLetter(D[0], C[29], VowelSign), s);
    var s := Rewrite(DigitAsLetter(D[7], C[27], VowelSign), s);
    var s := Rewrite(DigitAsLetter(D[8], C[2], VowelSign), s);
    var s := Rewrite(DigitAsLetter(D[0], C[29], MedialSign), s);
    var s := Rewrite(DigitAsLetter(D[7], C[27], MedialSign), s);
    var s := Rewrite(DigitAsLetter(D[8], C[2], MedialSign), s);
    var s := Rewrite(DigitAsLetter(D[0], C[29], FinalPair), s);
    var s := Rewrite(DigitAsLetter(D[7], C[27], FinalPair), s);
    Rewrite(DigitAsLetter(D[8], C[2], FinalPair), s)
  }

  /** Upper signs after the medials, lower signs before anusvara, dot below
      and visarga. */
  function Reordered(s: string): string
  {
    Rewrite(SignsBeforeLower, Rewrite(UpperBeforeMedials, s))
  }

  /** Every step of correction1 but the last, in the order of the source. */
  function Corrected(s: string): string
  {
    Reordered(DigitClassesRead(DigitSignsRead(AsatsFixed(VowelsOrdered(MedialsOrdered(Combined(Deduplicated(s))))))))
  }

  /** The shared part of correction1, one reassignment per source statement. */
  method ApplyCorrections(input: string) returns (unistr: string)
    ensures unistr == Corrected(input)
  {
    unistr := input;
    unistr := Rewrite(DuplicateMarks, unistr);
    ghost var deduplicated := unistr;

    unistr := ReplaceAll(unistr, [C[5], M[0]], [C[8]]);
    unistr := ReplaceAll(unistr, [C[30], M[1]], [IV[5]]);
    unistr := ReplaceAll(unistr, [C[30], M[1], V[6], V[1], T[2]], [IV[6]]);
    unistr := ReplaceAll(unistr, [IV[5], V[6], V[1], T[2]], [IV[6]]);
    unistr := ReplaceAll(unistr, [IV[2], V[3]], [IV[3]]);
    unistr := ReplaceAll(unistr, [IV[2], T[3]], [C[9], T[3]]);
    unistr := ReplaceAll(unistr, [IV[2], T[2]], [C[9], T[2]]);
    unistr := ReplaceAll(unistr, [IV[2], V[1]], [C[9], V[1]]);
    unistr := ReplaceAll(unistr, [D[4], C[4], T[2], T[1]], [IV[7], C[4], T[2], T[1]]);
    unistr := ReplaceAll(unistr, [T[0], T[2]], [T[2], T[0]]);
    unistr := ReplaceAll(unistr, [T[1], T[2]], [T[2], T[1]]);
    assert unistr == Combined(deduplicated);
    ghost var combined := unistr;

    unistr := ReplaceAll(unistr, [M[3], M[0]], [M[0], M[3]]);
    unistr := ReplaceAll(unistr, [M[3], M[1]], [M[1], M[3]]);
    unistr := ReplaceAll(unistr, [M[3], M[2]], [M[2], M[3]]);
    unistr := ReplaceAll(unistr, [M[2], M[0]], [M[0], M[2]]);
    unistr := ReplaceAll(unistr, [M[2], M[1]], [M[1], M[2]]);
    unistr := Rewrite(RaWaHa, unistr);
    unistr := Rewrite(YaWaHa, unistr);
    assert unistr == MedialsOrdered(combined);
    ghost var medials := unistr;

    unistr := ReplaceAll(unistr, [V[8], V[4]], [V[4], V[8]]);
    unistr := ReplaceAll(unistr, [V[4], V[2]], [V[2], V[4]]);
    unistr := ReplaceAll(unistr, [V[8], V[2]], [V[2], V[8]]);
    unistr := ReplaceAll(unistr, [T[0], V[4]], [V[4], T[0]]);
    unistr := ReplaceAll(unistr, [T[0], V[7]], [V[7], T[0]]);
    unistr := ReplaceAll(unistr, [T[0], V[8]], [V[8], T[0]]);
    assert unistr == VowelsOrdered(medials);
    ghost var vowels := unistr;

    unistr := ReplaceAll(unistr, [C[26], V[6], V[1], C[0], M[0], T[2], V[1]], [C[26], V[6], V[1], C[0], T[2], M[0], V[1]]);
    unistr := ReplaceAll(unistr, [C[20], V[4], T[2]], [C[20], T[2], V[4]]);
    unistr := ReplaceAll(unistr, [T[2], T[2]], [T[2]]);
    assert unistr == AsatsFixed(vowels);
    ghost var asats := unistr;

    unistr := ReplaceAll(unistr, [D[0], T[2]], [C[29], T[2]]);
    unistr := ReplaceAll(unistr, [D[7], T[2]], [C[27], T[2]]);
    unistr := ReplaceAll(unistr, [D[8], T[2]], [C[2], T[2]]);
    unistr := ReplaceAll(unistr, [D[0], T[3]], [C[29], T[3]]);
    unistr := ReplaceAll(unistr, [D[7], T[3]], [C[27], T[3]]);
    unistr := ReplaceAll(unistr, [D[8], T[3]], [C[2], T[3]]);
    assert unistr == DigitSignsRead(asats);
    ghost var signs := unistr;

    unistr := Rewrite(DigitAsLetter(D[0], C[29], VowelSign), unistr);
    unistr := Rewrite(DigitAsLetter(D[7], C[27], VowelSign), unistr);
    unistr := Rewrite(DigitAsLetter(D[8], C[2], VowelSign), unistr);
    unistr := Rewrite(DigitAsLetter(D[0], C[29], MedialSign), unistr);
    unistr := Rewrite(DigitAsLetter(D[7], C[27], MedialSign), unistr);
    unistr := Rewrite(DigitAsLetter(D[8], C[2], MedialSign), unistr);
    unistr := Rewrite(DigitAsLetter(D[0], C[29], FinalPair), unistr);
    unistr := Rewrite(DigitAsLetter(D[7], C[27], FinalPair), unistr);
    unistr := Rewrite(DigitAsLetter(D[8], C[2], FinalPair), unistr);
    assert unistr == DigitClassesRead(signs);
    ghost var digits := unistr;

    unistr := Rewrite(UpperBeforeMedials, unistr);
    unistr := Rewrite(SignsBeforeLower, unistr);
  }

  // ---------------------------------------------------------------------
  // What the sections do
  // ---------------------------------------------------------------------

  /** The medial reordering only rearranges characters. */
  lemma MedialsOrderedPermutes(s: string)
    ensures multiset(MedialsOrdered(s)) == multiset(s)
  {
    var s1 := ReplaceAll(s, [M[3], M[0]], [M[0], M[3]]);
    var s2 := ReplaceAll(s1, [M[3], M[1]], [M[1], M[3]]);
    var s3 := ReplaceAll(s2, [M[3], M[2]], [M[2], M[3]]);
    var s4 := ReplaceAll(s3, [M[2], M[0]], [M[0], M[2]]);
    var s5 := ReplaceAll(s4, [M[2], M[1]], [M[1], M[2]]);
    SwapPermutes(s, M[3], M[0]);
    SwapPermutes(s1, M[3], M[1]);
    SwapPermutes(s2, M[3], M[2]);
    SwapPermutes(s3, M[2], M[0]);
    SwapPermutes(s4, M[2], M[1]);
    TriplesPermuting();
    RewritePermutes(RaWaHa, s5);
    RewritePermutes(YaWaHa, Rewrite(RaWaHa, s5));
  }

  /** Swapping two adjacent characters everywhere is a permutation. */
  lemma SwapPermutes(s: string, a: char, b: char)
    ensures multiset(ReplaceAll(s, [a, b], [b, a])) == multiset(s)
  {
    assert multiset([a, b]) == multiset{a, b} == multiset([b, a]);
    ReplaceAllPermutes(s, [a, b], [b, a]);
  }

  /** Both triple orderings replace a match by a rearrangement of it. */
  lemma TriplesPermuting()
    ensures Permuting(RaWaHa) && Permuting(YaWaHa)
  {
    TriplePermuting(M[1], M[2], M[3]);
    TriplePermuting(M[0], M[2], M[3]);
  }

  lemma TriplePermuting(x: char, y: char, z: char)
    ensures Permuting(AnyOf([[z, y, x], [z, x, y], [y, z, x], [y, x, z], [x, z, y]], [x, y, z]))
  {
    var alts := [[z, y, x], [z, x, y], [y, z, x], [y, x, z], [x, z, y]];
    forall j | 0 <= j < |alts| ensures multiset(alts[j]) == multiset([x, y, z]) {
      if j == 0 {
        assert alts[j] == [z, y, x];
        Reversed(x, y, z);
      } else if j == 1 {
        assert alts[j] == [z, x, y];
        LastFirst(x, y, z);
      } else if j == 2 {
        assert alts[j] == [y, z, x];
        MiddleFirst(x, y, z);
      } else if j == 3 {
        assert alts[j] == [y, x, z];
        FirstTwoSwapped(x, y, z);
      } else {
        assert alts[j] == [x, z, y];
        LastTwoSwapped(x, y, z);
      }
    }
  }

  lemma Reversed(x: char, y: char, z: char)
    ensures multiset([z, y, x]) == multiset([x, y, z])
  {
    assert multiset([z, y, x]) == multiset{x, y, z} == multiset([x, y, z]);
  }

  lemma LastFirst(x: char, y: char, z: char)
    ensures multiset([z, x, y]) == multiset([x, y, z])
  {
    assert multiset([z, x, y]) == multiset{x, y, z} == multiset([x, y, z]);
  }

  lemma MiddleFirst(x: char, y: char, z: char)
    ensures multiset([y, z, x]) == multiset([x, y, z])
  {
    assert multiset([y, z, x]) == multiset{x, y, z} == multiset([x, y, z]);
  }

  lemma FirstTwoSwapped(x: char, y: char, z: char)
    ensures multiset([y, x, z]) == multiset([x, y, z])
  {
    assert multiset([y, x, z]) == multiset{x, y, z} == multiset([x, y, z]);
  }

  lemma LastTwoSwapped(x: char, y: char, z: char)
    ensures multiset([x, z, y]) == multiset([x, y, z])
  {
    assert multiset([x, z, y]) == multiset{x, y, z} == multiset([x, y, z]);
  }

  /** The vowel reordering only rearranges characters. */
  lemma VowelsOrderedPermutes(s: string)
    ensures multiset(VowelsOrdered(s)) == multiset(s)
  {
    var s1 := ReplaceAll(s, [V[8], V[4]], [V[4], V[8]]);
    var s2 := ReplaceAll(s1, [V[4], V[2]], [V[2], V[4]]);
    var s3 := ReplaceAll(s2, [V[8], V[2]], [V[2], V[8]]);
    var s4 := ReplaceAll(s3, [T[0], V[4]], [V[4], T[0]]);
    var s5 := ReplaceAll(s4, [T[0], V[7]], [V[7], T[0]]);
    SwapPermutes(s, V[8], V[4]);
    SwapPermutes(s1, V[4], V[2]);
    SwapPermutes(s2, V[8], V[2]);
    SwapPermutes(s3, T[0], V[4]);
    SwapPermutes(s4, T[0], V[7]);
    SwapPermutes(s5, T[0], V[8]);
  }

  /** The final reordering only rearranges characters. */
  lemma ReorderedPermutes(s: string)
    ensures multiset(Reordered(s)) == multiset(s)
  {
    RewritePermutes(UpperBeforeMedials, s);
    RewritePermutes(SignsBeforeLower, Rewrite(UpperBeforeMedials, s));
  }

  /** Zero, seven and eight, the digits correction1 reads as letters. */
  predicate IsLetterLikeDigit(c: char) { c == D[0] || c == D[7] || c == D[8] }

  /** The letter a digit is read as: zero as wa, seven as ra, eight as ga. */
  function DigitLetter(c: char): char
    requires IsLetterLikeDigit(c)
  {
    if c == D[0] then C[29] else if c == D[7] then C[27] else C[2]
  }

  /** What the digit-before-sign step makes of position `i`. */
  function DigitSignAt(s: string, i: nat): char
    requires i < |s|
  {
    if IsLetterLikeDigit(s[i]) && i + 1 < |s| && (s[i + 1] == T[2] || s[i + 1] == T[3])
    then DigitLetter(s[i]) else s[i]
  }

  /**
   * Zero, seven and eight become wa, ra and ga exactly where an asat or a
   * virama follows them; every other position keeps its character.
   */
  lemma DigitSignsReadPointwise(s: string)
    ensures |DigitSignsRead(s)| == |s|
    ensures forall i :: 0 <= i < |s| ==> DigitSignsRead(s)[i] == DigitSignAt(s, i)
  {
    var s1 := DigitsBeforeMark(s, T[2]);
    DigitsBeforeMarkLength(s, T[2]);
    DigitsBeforeMarkLength(s1, T[3]);
    forall i | 0 <= i < |s| ensures DigitSignsRead(s)[i] == DigitSignAt(s, i) {
      DigitsBeforeMarkAt(s, T[2], i);
      DigitsBeforeMarkAt(s1, T[3], i);
      if i + 1 < |s| {
        DigitsBeforeMarkAt(s, T[2], i + 1);
      }
    }
  }

  lemma DigitsBeforeMarkLength(s: string, mark: char)
    ensures |DigitsBeforeMark(s, mark)| == |s|
  {
    var s1 := ReplaceAll(s, [D[0], mark], [C[29], mark]);
    var s2 := ReplaceAll(s1, [D[7], mark], [C[27], mark]);
    ReplaceAllPairLength(s, D[0], mark, C[29]);
    ReplaceAllPairLength(s1, D[7], mark, C[27]);
    ReplaceAllPairLength(s2, D[8], mark, C[2]);
  }

  /** One mark: the digits right before it, and only those, become letters. */
  lemma DigitsBeforeMarkAt(s: string, mark: char, i: nat)
    requires !IsLetterLikeDigit(mark) && mark != C[29] && mark != C[27] && mark != C[2]
    requires i < |s|
    ensures |DigitsBeforeMark(s, mark)| == |s|
    ensures DigitsBeforeMark(s, mark)[i]
         == if IsLetterLikeDigit(s[i]) && i + 1 < |s| && s[i + 1] == mark then DigitLetter(s[i]) else s[i]
  {
    var s1 := ReplaceAll(s, [D[0], mark], [C[29], mark]);
    var s2 := ReplaceAll(s1, [D[7], mark], [C[27], mark]);
    ReplaceAllPairAt(s, D[0], mark, C[29], i);
    ReplaceAllPairAt(s1, D[7], mark, C[27], i);
    ReplaceAllPairAt(s2, D[8], mark, C[2], i);
    if i + 1 < |s| {
      ReplaceAllPairAt(s, D[0], mark, C[29], i + 1);
      ReplaceAllPairAt(s1, D[7], mark, C[27], i + 1);
    }
  }
}
