/**
 * The regular expressions of the transcoders, each written as a matcher
 * anchored at the start of the remaining text, and the single driver that
 * applies a matcher the way `replace_all` (Rust) and `replace` with a global
 * pattern (JavaScript) do.
 *
 * Every pattern used by the transcoders has only non-empty matches, and for
 * each of them the greedy choice (take an optional group or a repetition when
 * the next character allows it) is the match that leftmost-first search
 * prefers: whenever a greedy choice would have to be undone, the pattern has
 * no match at that position at all.  So a matcher never needs to backtrack.
 * An unmatched group contributes the empty string, and a repeated group
 * contributes its last repetition.
 */
module Scanners {

  datatype Option<T> = None | Some(value: T)

  /** A match at the start of the remaining text: how many characters it
      consumes and the text that replaces them. */
  datatype Match = Match(len: nat, out: string)

  /** What must follow the digit in the digit-as-consonant patterns of
      correction1: a vowel sign, a medial, or a final consonant with its sign. */
  datatype Follow = VowelSign | MedialSign | FinalPair

  datatype Pattern =
      /** `(?P<E>a)?(?P<R>j)?(?P<con>CON)marker`, replaced by
          `lead` + E + R + con + `tail`. */
    | Kinzi(marker: string, lead: string, tail: string)
      /** `(R U+103C)(Wa U+103D)?(Ha U+103E)?(U U+102F)?(con)(scon U+1039 con)?`,
          replaced by con scon R Wa Ha U. */
    | RaReorder
      /** The storage-order pattern; the Rust replacement ends with `upper2`,
          the TypeScript one leaves it out. */
    | StorageOrder(keepUpper2: bool)
      /** A run of one of the eight duplicate-prone marks, replaced by
          `childdeldul` of the run. */
    | DuplicateMarks
      /** An alternation of literals, the first that matches wins; every match
          is replaced by `rep`. */
    | AnyOf(alts: seq<string>, rep: string)
      /** `digit(?P<g>follow)`, replaced by `letter` + g. */
    | DigitAsLetter(digit: char, letter: char, follow: Follow)
      /** An upper sign followed by one or more medials, replaced by the
          medials and then the sign. */
    | UpperBeforeMedials
      /** One or more of anusvara, dot below and visarga followed by a lower
          vowel sign, replaced by the lower sign and then the run. */
    | SignsBeforeLower

  /** An alternation of literals is only used with non-empty literals. */
  predicate Valid(p: Pattern)
  {
    p.AnyOf? ==> forall j :: 0 <= j < |p.alts| ==> p.alts[j] != []
  }

  // ---------------------------------------------------------------------
  // Character classes of the patterns
  // ---------------------------------------------------------------------

  /** U+1000..U+1021: the consonants ka to a. */
  predicate IsConsonant(c: char) { '\U{1000}' <= c <= '\U{1021}' }

  /** U+103B..U+103E: the medials ya, ra, wa and ha. */
  predicate IsMedial(c: char) { '\U{103B}' <= c <= '\U{103E}' }

  /** The vowel signs written above the consonant: i, ii, ai and anusvara. */
  predicate IsUpperSign(c: char)
  {
    c == '\U{102D}' || c == '\U{102E}' || c == '\U{1032}' || c == '\U{1036}'
  }

  /** The `upper2` class of the storage pattern: i, ii and ai. */
  predicate IsSecondUpper(c: char)
  {
    c == '\U{102D}' || c == '\U{102E}' || c == '\U{1032}'
  }

  /** The `DVs` class of the storage pattern: dot below and visarga. */
  predicate IsToneMark(c: char) { c == '\U{1037}' || c == '\U{1038}' }

  /** The vowel signs written below: u and uu. */
  predicate IsLowerSign(c: char) { c == '\U{102F}' || c == '\U{1030}' }

  /** The `DVs` class of the final reordering in correction1: anusvara, dot
      below and visarga. */
  predicate IsSignBeforeLower(c: char)
  {
    c == '\U{1036}' || c == '\U{1037}' || c == '\U{1038}'
  }

  /** The vowel range U+102B..U+1036 of correction1. */
  predicate IsVowelSign(c: char) { '\U{102B}' <= c <= '\U{1036}' }

  /** The final-consonant pair of correction1: U+1000..U+1031 then
      U+1039..U+103A. */
  predicate IsFinalBase(c: char) { '\U{1000}' <= c <= '\U{1031}' }
  predicate IsFinalMark(c: char) { c == '\U{1039}' || c == '\U{103A}' }

  /** The marks whose repetitions correction1 collapses. */
  predicate IsDuplicateProne(c: char)
  {
    c == '\U{102D}' || c == '\U{102E}' || c == '\U{103D}' || c == '\U{103E}'
    || c == '\U{1032}' || c == '\U{1037}' || c == '\U{1036}' || c == '\U{103A}'
  }

  /** The consonant class of the kinzi patterns: the legacy-font letters that
      can carry a kinzi, as they are still spelled after the font mapping. */
  predicate IsKinziBase(c: char)
  {
    c in {'u', 'c', '*', 'C', 'i', 'p', 'q', 'Z', 'n', '\U{00F1}', '\U{00CD}', '\U{00DA}',
          '#', 'X', '!', '\U{00A1}', 'P', 'w', 'x', '\'', '"', 'e', 'E', '\U{00BD}', 'y',
          'z', 'A', 'b', 'r', ',', '&', 'v', '0', 'o', '[', 'V', 't', '|', '\U{00F3}'}
  }

  // ---------------------------------------------------------------------
  // Building blocks
  // ---------------------------------------------------------------------

  predicate IsPrefix(p: string, s: string)
  {
    |p| <= |s| && s[..|p|] == p
  }

  /** Length of the longest prefix of `s` made of characters satisfying `P`:
      the greedy `[class]*`. */
  function Span(s: string, P: char -> bool): (n: nat)
    ensures n <= |s|
    ensures forall i :: 0 <= i < n ==> P(s[i])
    ensures n < |s| ==> !P(s[n])
    decreases |s|
  {
    if s != [] && P(s[0]) then 1 + Span(s[1..], P) else 0
  }

  /** The greedy `(c)?` at position `i`: the position after it. */
  function Opt(s: string, i: nat, c: char): (j: nat)
    ensures j == i || (i < |s| && s[i] == c && j == i + 1)
    ensures i < |s| && s[i] == c ==> j == i + 1
  {
    if i < |s| && s[i] == c then i + 1 else i
  }

  /** The greedy `([class])?` at position `i`: the position after it. */
  function OptClass(s: string, i: nat, P: char -> bool): (j: nat)
    ensures j == i || (i < |s| && P(s[i]) && j == i + 1)
    ensures i < |s| && P(s[i]) ==> j == i + 1
  {
    if i < |s| && P(s[i]) then i + 1 else i
  }

  /** Number of bytes of `c` in UTF-8. */
  function Utf8Width(c: char): nat
  {
    if c < '\U{0080}' then 1 else if c < '\U{0800}' then 2 else if c < '\U{10000}' then 3 else 4
  }

  /** Byte length of `s` in UTF-8: Rust's `str::len`. */
  function Utf8Length(s: string): nat
    decreases |s|
  {
    if s == [] then 0 else Utf8Width(s[0]) + Utf8Length(s[1..])
  }

  /** `childdeldul` (win_to_myanmar3.rs:188-194): a match longer than one
      byte is cut to its first character. */
  function Childdeldul(m: string): (r: string)
    ensures r <= m
    ensures m != [] ==> r != []
  {
    if Utf8Length(m) > 1 then [m[0]] else m
  }

  /** Index of the first literal of `alts` that `s` starts with. */
  function FirstPrefix(alts: seq<string>, s: string): (r: Option<nat>)
    ensures r.Some? ==> r.value < |alts| && IsPrefix(alts[r.value], s)
    ensures r.Some? ==> forall j :: 0 <= j < r.value ==> !IsPrefix(alts[j], s)
    ensures r.None? ==> forall j :: 0 <= j < |alts| ==> !IsPrefix(alts[j], s)
    decreases |alts|
  {
    if alts == [] then None
    else if IsPrefix(alts[0], s) then Some(0)
    else match FirstPrefix(alts[1..], s)
      case None => None
      case Some(j) => Some(j + 1)
  }

  /** How many characters the `follow` group of a digit pattern takes at the
      start of `t`, or 0 when it does not match. */
  function FollowLength(f: Follow, t: string): (n: nat)
    ensures n <= |t|
  {
    match f
    case VowelSign => if t != [] && IsVowelSign(t[0]) then 1 else 0
    case MedialSign => if t != [] && IsMedial(t[0]) then 1 else 0
    case FinalPair => if |t| >= 2 && IsFinalBase(t[0]) && IsFinalMark(t[1]) then 2 else 0
  }

  // ---------------------------------------------------------------------
  // The matchers
  // ---------------------------------------------------------------------

  /** Where the groups of the storage-order pattern end in a match:
      E ends at `eEnd`, con at `eEnd + 1`, scon at `sconEnd`, upper at
      `upperEnd`, the DVs repetition at `tonesEnd`, M at `medialsEnd`, lower
      at `lowerEnd` and upper2 at `upper2End`. */
  datatype StorageSplit = StorageSplit(eEnd: nat, sconEnd: nat, upperEnd: nat, tonesEnd: nat,
                                       medialsEnd: nat, lowerEnd: nat, upper2End: nat)

  predicate Ordered(g: StorageSplit, s: string)
  {
    g.eEnd < g.sconEnd <= g.upperEnd <= g.tonesEnd <= g.medialsEnd <= g.lowerEnd <= g.upper2End <= |s|
  }

  /** The greedy match of
      `(E U+1031)?(con)(scon U+1039 con)?(upper)?(DVs){0,2}(M medial*)(lower)?(upper2)?`. */
  function StorageGroups(s: string): (r: Option<StorageSplit>)
    ensures r.Some? ==> Ordered(r.value, s) && IsConsonant(s[r.value.eEnd])
    ensures r.Some? ==> forall i :: r.value.upperEnd <= i < r.value.tonesEnd ==> IsToneMark(s[i])
  {
    var e := Opt(s, 0, '\U{1031}');
    if e < |s| && IsConsonant(s[e]) then
      var c := e + 1;
      var sc := if c + 1 < |s| && s[c] == '\U{1039}' && IsConsonant(s[c + 1]) then c + 2 else c;
      var up := OptClass(s, sc, IsUpperSign);
      var dv := TonesEnd(s, up);
      var m := dv + Span(s[dv..], IsMedial);
      var lo := OptClass(s, m, IsLowerSign);
      Some(StorageSplit(e, sc, up, dv, m, lo, OptClass(s, lo, IsSecondUpper)))
    else None
  }

  /** The greedy `(DVs){0,2}` at position `i`: the position after it. */
  function TonesEnd(s: string, i: nat): (j: nat)
    requires i <= |s|
    ensures i <= j <= |s|
    ensures forall k :: i <= k < j ==> IsToneMark(s[k])
  {
    var d1 := OptClass(s, i, IsToneMark);
    if d1 > i then OptClass(s, d1, IsToneMark) else d1
  }

  /** The storage-order replacement con scon M E upper lower DVs [upper2];
      the repeated DVs group contributes its last repetition only. */
  function StorageOut(s: string, g: StorageSplit, keepUpper2: bool): string
    requires Ordered(g, s)
  {
    s[g.eEnd..g.sconEnd] + s[g.tonesEnd..g.medialsEnd] + s[..g.eEnd] + s[g.sconEnd..g.upperEnd]
    + s[g.medialsEnd..g.lowerEnd] + (if g.tonesEnd > g.upperEnd then [s[g.tonesEnd - 1]] else [])
    + (if keepUpper2 then s[g.lowerEnd..g.upper2End] else [])
  }

  /** `(?P<E>a)?(?P<R>j)?(?P<con>CON)marker` at the start of `s`, replaced by
      `lead` E R con `tail`. */
  function KinziMatch(s: string, marker: string, lead: string, tail: string): (r: Option<Match>)
    ensures r.Some? ==> |marker| < r.value.len <= |s|
    ensures r.Some? ==> s[..r.value.len] == s[..r.value.len - |marker|] + marker
    ensures r.Some? ==> r.value.out == lead + s[..r.value.len - |marker|] + tail
  {
    var k := Opt(s, Opt(s, 0, 'a'), 'j');
    if k < |s| && IsKinziBase(s[k]) && IsPrefix(marker, s[k + 1..]) then
      assert s[..k + 1 + |marker|] == s[..k + 1] + s[k + 1..][..|marker|];
      Some(Match(k + 1 + |marker|, lead + s[..k + 1] + tail))
    else None
  }

  /** The ra-reordering pattern at the start of `s`: the match is rotated so
      that the consonant and its stacked consonant come first. */
  function RaMatch(s: string): (r: Option<Match>)
    ensures r.Some? ==> 0 < r.value.len <= |s|
    ensures r.Some? ==> multiset(r.value.out) == multiset(s[..r.value.len])
    ensures r.Some? ==> IsConsonant(r.value.out[0]) && '\U{103C}' in r.value.out
  {
    if s != [] && s[0] == '\U{103C}' then
      var u := Opt(s, Opt(s, Opt(s, 1, '\U{103D}'), '\U{103E}'), '\U{102F}');
      if u < |s| && IsConsonant(s[u]) then
        var n := if u + 2 < |s| && s[u + 1] == '\U{1039}' && IsConsonant(s[u + 2]) then u + 3 else u + 1;
        assert s[..n] == s[..u] + s[u..n];
        assert (s[u..n] + s[..u])[n - u] == '\U{103C}';
        Some(Match(n, s[u..n] + s[..u]))
      else None
    else None
  }

  /** The storage-order pattern at the start of `s`; the replacement starts
      with the consonant and holds no character that was not in the match. */
  function StorageMatch(s: string, keepUpper2: bool): (r: Option<Match>)
    ensures r.Some? ==> 0 < r.value.len <= |s|
    ensures r.Some? ==> r.value.out != [] && IsConsonant(r.value.out[0])
    ensures r.Some? ==> multiset(r.value.out) <= multiset(s[..r.value.len])
    ensures r.Some? && keepUpper2 ==>
      forall x :: !IsToneMark(x) ==> multiset(r.value.out)[x] == multiset(s[..r.value.len])[x]
  {
    var g := StorageGroups(s);
    if g.Some? then
      StorageOutDropsOnly(s, g.value, keepUpper2);
      StorageOutKeepsNonTones(s, g.value);
      StorageOutHead(s, g.value, keepUpper2);
      Some(Match(g.value.upper2End, StorageOut(s, g.value, keepUpper2)))
    else None
  }

  /** A run of one duplicate-prone mark at the start of `s`. */
  function DuplicateMatch(s: string): (r: Option<Match>)
    ensures r.Some? ==> 0 < r.value.len <= |s|
  {
    if s != [] && IsDuplicateProne(s[0]) then
      var n := Span(s, c => c == s[0]);
      Some(Match(n, Childdeldul(s[..n])))
    else None
  }

  /** The first literal of `alts` that starts `s`, replaced by `rep`. */
  function AnyOfMatch(s: string, alts: seq<string>, rep: string): (r: Option<Match>)
    requires forall j :: 0 <= j < |alts| ==> alts[j] != []
    ensures r.Some? ==> 0 < r.value.len <= |s| && r.value.out == rep
    ensures r.Some? <==> exists j :: 0 <= j < |alts| && IsPrefix(alts[j], s)
    ensures r.Some? ==> s[..r.value.len] in alts
  {
    var first := FirstPrefix(alts, s);
    if first.Some? then Some(Match(|alts[first.value]|, rep)) else None
  }

  /** `digit(?P<g>follow)` at the start of `s`, replaced by `letter` g. */
  function DigitMatch(s: string, digit: char, letter: char, follow: Follow): (r: Option<Match>)
    ensures r.Some? ==> 0 < r.value.len <= |s|
    ensures r.Some? <==> s != [] && s[0] == digit && FollowLength(follow, s[1..]) > 0
    ensures r.Some? ==> r.value.len == 1 + FollowLength(follow, s[1..]) && r.value.out == [letter] + s[1..r.value.len]
  {
    if s != [] && s[0] == digit && FollowLength(follow, s[1..]) > 0 then
      var n := 1 + FollowLength(follow, s[1..]);
      Some(Match(n, [letter] + s[1..n]))
    else None
  }

  /** An upper sign and the medials after it, replaced by the medials and then
      the sign. */
  function UpperMedialsMatch(s: string): (r: Option<Match>)
    ensures r.Some? ==> 0 < r.value.len <= |s|
    ensures r.Some? ==> multiset(r.value.out) == multiset(s[..r.value.len])
    ensures r.Some? ==> |r.value.out| == r.value.len && r.value.out[r.value.len - 1] == s[0] && IsUpperSign(s[0])
  {
    if s != [] && IsUpperSign(s[0]) && Span(s[1..], IsMedial) > 0 then
      var n := 1 + Span(s[1..], IsMedial);
      assert s[..n] == [s[0]] + s[1..n];
      Some(Match(n, s[1..n] + [s[0]]))
    else None
  }

  /** A run of anusvara, dot below and visarga before a lower sign, replaced by
      the lower sign and then the run. */
  function SignsLowerMatch(s: string): (r: Option<Match>)
    ensures r.Some? ==> 0 < r.value.len <= |s|
    ensures r.Some? ==> multiset(r.value.out) == multiset(s[..r.value.len])
    ensures r.Some? ==> IsLowerSign(r.value.out[0])
  {
    var n := Span(s, IsSignBeforeLower);
    if 0 < n < |s| && IsLowerSign(s[n]) then
      assert s[..n + 1] == s[..n] + [s[n]];
      Some(Match(n + 1, [s[n]] + s[..n]))
    else None
  }

  /** The match of `p` at the start of `s`, if there is one. */
  function MatchAt(p: Pattern, s: string): (r: Option<Match>)
    requires Valid(p)
    ensures r.Some? ==> 0 < r.value.len <= |s|
  {
    match p
    case Kinzi(marker, lead, tail) => KinziMatch(s, marker, lead, tail)
    case RaReorder => RaMatch(s)
    case StorageOrder(keepUpper2) => StorageMatch(s, keepUpper2)
    case DuplicateMarks => DuplicateMatch(s)
    case AnyOf(alts, rep) => AnyOfMatch(s, alts, rep)
    case DigitAsLetter(digit, letter, follow) => DigitMatch(s, digit, letter, follow)
    case UpperBeforeMedials => UpperMedialsMatch(s)
    case SignsBeforeLower => SignsLowerMatch(s)
  }

  /** Every match of `p`, searched left to right, replaced; text after a match
      is searched again, replaced text is not. */
  function Rewrite(p: Pattern, s: string): string
    requires Valid(p)
    decreases |s|
  {
    if s == [] then []
    else
      var m := Step(p, s);
      m.out + Rewrite(p, s[m.len..])
  }

  /** One turn of the driver: the match at the start of `s`, or else the
      first character copied. */
  function Step(p: Pattern, s: string): (m: Match)
    requires Valid(p) && s != []
    ensures 0 < m.len <= |s|
  {
    match MatchAt(p, s)
    case Some(m) => m
    case None => Match(1, [s[0]])
  }

  // ---------------------------------------------------------------------
  // Generic facts about the driver
  // ---------------------------------------------------------------------

  /** One step of the driver: the match at the start, or the first
      character, then the rewritten rest. */
  lemma RewriteUnfold(p: Pattern, s: string)
    requires Valid(p) && s != []
    ensures MatchAt(p, s).Some? ==>
      Rewrite(p, s) == MatchAt(p, s).value.out + Rewrite(p, s[MatchAt(p, s).value.len..])
    ensures MatchAt(p, s).None? ==> Rewrite(p, s) == [s[0]] + Rewrite(p, s[1..])
  {
  }

  /** Where `p` matches nowhere, rewriting changes nothing. */
  lemma {:induction false} RewriteWithoutMatches(p: Pattern, s: string)
    requires Valid(p)
    requires forall i :: 0 <= i < |s| ==> MatchAt(p, s[i..]).None?
    ensures Rewrite(p, s) == s
    decreases |s|
  {
    if s != [] {
      assert s[0..] == s;
      forall i | 0 <= i < |s| - 1 ensures MatchAt(p, s[1..][i..]).None? {
        assert s[1..][i..] == s[i + 1..];
      }
      RewriteWithoutMatches(p, s[1..]);
    }
  }

  /** The patterns whose every match is replaced by a rearrangement of the
      matched text. */
  predicate Permuting(p: Pattern)
  {
    match p
    case Kinzi(marker, lead, tail) => multiset(lead + tail) == multiset(marker)
    case RaReorder => true
    case UpperBeforeMedials => true
    case SignsBeforeLower => true
    case AnyOf(alts, rep) => forall j :: 0 <= j < |alts| ==> multiset(alts[j]) == multiset(rep)
    case _ => false
  }

  /** A permuting pattern's replacement is a rearrangement of its match. */
  lemma MatchPermutes(p: Pattern, s: string)
    requires Valid(p) && Permuting(p) && MatchAt(p, s).Some?
    ensures multiset(MatchAt(p, s).value.out) == multiset(s[..MatchAt(p, s).value.len])
  {
    match p
    case Kinzi(marker, lead, tail) =>
      KinziPermutes(s, marker, lead, tail);
    case RaReorder =>
      assert MatchAt(p, s) == RaMatch(s);
    case UpperBeforeMedials =>
      assert MatchAt(p, s) == UpperMedialsMatch(s);
    case SignsBeforeLower =>
      assert MatchAt(p, s) == SignsLowerMatch(s);
    case AnyOf(alts, rep) =>
      AnyOfPermutes(s, alts, rep);
  }

  lemma KinziPermutes(s: string, marker: string, lead: string, tail: string)
    requires multiset(lead + tail) == multiset(marker) && KinziMatch(s, marker, lead, tail).Some?
    ensures var m := KinziMatch(s, marker, lead, tail).value; multiset(m.out) == multiset(s[..m.len])
  {
    var m := KinziMatch(s, marker, lead, tail).value;
    assert multiset(m.out) == multiset(lead) + multiset(s[..m.len - |marker|]) + multiset(tail);
    assert multiset(s[..m.len]) == multiset(s[..m.len - |marker|]) + multiset(marker);
  }

  lemma AnyOfPermutes(s: string, alts: seq<string>, rep: string)
    requires forall j :: 0 <= j < |alts| ==> alts[j] != [] && multiset(alts[j]) == multiset(rep)
    requires AnyOfMatch(s, alts, rep).Some?
    ensures var m := AnyOfMatch(s, alts, rep).value; multiset(m.out) == multiset(s[..m.len])
  {
    var m := AnyOfMatch(s, alts, rep).value;
    assert s[..m.len] in alts;
  }

  /** One turn of the driver, named: it consumes `n` characters and writes
      `head`, the replacement of the match or else the first character. */
  lemma RewriteStep(p: Pattern, s: string) returns (n: nat, head: string)
    requires Valid(p) && s != []
    ensures 0 < n <= |s| && s == s[..n] + s[n..]
    ensures Rewrite(p, s) == head + Rewrite(p, s[n..])
    ensures MatchAt(p, s).Some? ==> MatchAt(p, s) == Some(Match(n, head))
    ensures MatchAt(p, s).None? ==> n == 1 && head == s[..1]
  {
    n, head := Step(p, s).len, Step(p, s).out;
    assert s == s[..n] + s[n..];
  }

  /** A turn of the driver with a permuting pattern writes a rearrangement
      of what it consumes. */
  lemma PermutingStep(p: Pattern, s: string) returns (n: nat, head: string)
    requires Valid(p) && Permuting(p) && s != []
    ensures 0 < n <= |s| && s == s[..n] + s[n..]
    ensures Rewrite(p, s) == head + Rewrite(p, s[n..])
    ensures multiset(head) == multiset(s[..n])
  {
    n, head := RewriteStep(p, s);
    if MatchAt(p, s).Some? {
      MatchPermutes(p, s);
    }
  }

  /** Rewriting with a permuting pattern is a permutation of the whole text,
      so it keeps the length and the count of every character. */
  lemma {:induction false} RewritePermutes(p: Pattern, s: string)
    requires Valid(p) && Permuting(p)
    ensures multiset(Rewrite(p, s)) == multiset(s)
    ensures |Rewrite(p, s)| == |s|
    decreases |s|
  {
    if s != [] {
      var n, head := PermutingStep(p, s);
      RewritePermutes(p, s[n..]);
      PermutedConcat(head, Rewrite(p, s[n..]), s[..n], s[n..]);
    }
  }

  /** Rearrangements of two parts make a rearrangement of the whole. */
  lemma PermutedConcat(a: string, b: string, c: string, d: string)
    requires multiset(a) == multiset(c) && multiset(b) == multiset(d)
    ensures multiset(a + b) == multiset(c + d)
    ensures |a + b| == |c + d|
  {
    assert |a| == |multiset(a)| && |c| == |multiset(c)|;
    assert |b| == |multiset(b)| && |d| == |multiset(d)|;
  }

  // ---------------------------------------------------------------------
  // Kinzi
  // ---------------------------------------------------------------------

  /** A kinzi pass whose one-character marker does not occur leaves the text
      as it is. */
  lemma KinziPassInert(g: char, lead: string, tail: string, s: string)
    requires g !in s
    ensures Rewrite(Kinzi([g], lead, tail), s) == s
  {
    var p := Kinzi([g], lead, tail);
    forall i | 0 <= i < |s| ensures MatchAt(p, s[i..]).None? {
      KinziMatchHoldsMarker(g, lead, tail, s[i..]);
      assert forall c :: c in s[i..] ==> c in s;
    }
    RewriteWithoutMatches(p, s);
  }

  /** Every character a kinzi pass writes comes from the text or from its
      lead and tail. */
  lemma {:induction false} KinziRewriteChars(marker: string, lead: string, tail: string, s: string)
    ensures forall c :: c in Rewrite(Kinzi(marker, lead, tail), s) ==> c in s || c in lead || c in tail
    decreases |s|
  {
    var p := Kinzi(marker, lead, tail);
    if s != [] {
      RewriteUnfold(p, s);
      assert MatchAt(p, s) == KinziMatch(s, marker, lead, tail);
      match MatchAt(p, s)
      case Some(m) =>
        KinziRewriteChars(marker, lead, tail, s[m.len..]);
        assert forall c :: c in s[..m.len - |marker|] ==> c in s;
        assert forall c :: c in s[m.len..] ==> c in s;
      case None =>
        KinziRewriteChars(marker, lead, tail, s[1..]);
        assert forall c :: c in s[1..] ==> c in s;
    }
  }

  lemma KinziMatchHoldsMarker(g: char, lead: string, tail: string, t: string)
    ensures MatchAt(Kinzi([g], lead, tail), t).Some? ==> g in t
  {
    var k := Opt(t, Opt(t, 0, 'a'), 'j');
    if k < |t| && IsKinziBase(t[k]) && IsPrefix([g], t[k + 1..]) {
      assert t[k + 1] == g;
    }
  }

  // ---------------------------------------------------------------------
  // Duplicate marks
  // ---------------------------------------------------------------------

  /** No duplicate-prone character is followed by the same character. */
  predicate NoRepeatedMarks(s: string)
  {
    forall i :: 0 <= i < |s| - 1 ==> !(IsDuplicateProne(s[i]) && s[i + 1] == s[i])
  }

  /** Reference definition: every duplicate-prone character equal to the one
      after it is dropped. */
  function Collapse(s: string): string
    decreases |s|
  {
    if |s| <= 1 then s
    else if IsDuplicateProne(s[0]) && s[1] == s[0] then Collapse(s[1..])
    else [s[0]] + Collapse(s[1..])
  }

  lemma {:induction false} CollapseHead(s: string)
    requires s != []
    ensures Collapse(s) != [] && Collapse(s)[0] == s[0]
    decreases |s|
  {
    if |s| > 1 && IsDuplicateProne(s[0]) && s[1] == s[0] {
      CollapseHead(s[1..]);
    }
  }

  /** A maximal run of one duplicate-prone character collapses to that
      character. */
  lemma {:induction false} CollapseRun(s: string, n: nat)
    requires 0 < n <= |s| && IsDuplicateProne(s[0])
    requires forall i :: 0 <= i < n ==> s[i] == s[0]
    requires n < |s| ==> s[n] != s[0]
    ensures Collapse(s) == [s[0]] + Collapse(s[n..])
    decreases n
  {
    if n > 1 {
      CollapseRun(s[1..], n - 1);
      assert s[1..][n - 1..] == s[n..];
    } else if |s| == 1 {
      assert s[1..] == [];
    }
  }

  /** `childdeldul` turns a run of a three-byte mark into one mark. */
  lemma ChilddeldulRun(m: string)
    requires m != [] && '\U{0800}' <= m[0] < '\U{10000}'
    ensures Childdeldul(m) == [m[0]]
  {
    assert Utf8Length(m) >= Utf8Width(m[0]) == 3;
  }

  /** The first step of correction1 is the reference collapse. */
  lemma {:induction false} DuplicateMarksCollapse(s: string)
    ensures Rewrite(DuplicateMarks, s) == Collapse(s)
    decreases |s|
  {
    if s != [] {
      match MatchAt(DuplicateMarks, s)
      case Some(m) =>
        var P := (c: char) => c == s[0];
        assert m.len == Span(s, P);
        ChilddeldulRun(s[..m.len]);
        CollapseRun(s, m.len);
        DuplicateMarksCollapse(s[m.len..]);
      case None =>
        DuplicateMarksCollapse(s[1..]);
        if |s| == 1 {
          assert s[1..] == [];
        }
    }
  }

  lemma {:induction false} CollapseNoRepeatedMarks(s: string)
    ensures NoRepeatedMarks(Collapse(s))
    decreases |s|
  {
    if |s| > 1 {
      CollapseNoRepeatedMarks(s[1..]);
      CollapseHead(s[1..]);
    }
  }

  lemma {:induction false} CollapseKeepsCharacters(s: string)
    ensures forall c :: c in Collapse(s) <==> c in s
    decreases |s|
  {
    if |s| > 1 {
      CollapseKeepsCharacters(s[1..]);
      assert s == [s[0]] + s[1..];
      assert s[1] in s[1..];
    }
  }

  lemma {:induction false} CollapseFixes(s: string)
    requires NoRepeatedMarks(s)
    ensures Collapse(s) == s
    decreases |s|
  {
    if |s| > 1 {
      assert NoRepeatedMarks(s[1..]) by {
        forall i | 0 <= i < |s[1..]| - 1 ensures !(IsDuplicateProne(s[1..][i]) && s[1..][i + 1] == s[1..][i]) {
          assert s[1..][i] == s[i + 1] && s[1..][i + 1] == s[i + 2];
        }
      }
      CollapseFixes(s[1..]);
      assert s == [s[0]] + s[1..];
    }
  }

  /**
   * After the duplicate-mark step no duplicate-prone mark is followed by the
   * same mark, every character that was there still occurs, and running the
   * step again changes nothing.
   */
  lemma DuplicateMarksCollapsed(s: string)
    ensures NoRepeatedMarks(Rewrite(DuplicateMarks, s))
    ensures forall c :: c in Rewrite(DuplicateMarks, s) <==> c in s
    ensures Rewrite(DuplicateMarks, Rewrite(DuplicateMarks, s)) == Rewrite(DuplicateMarks, s)
  {
    DuplicateMarksCollapse(s);
    CollapseNoRepeatedMarks(s);
    CollapseKeepsCharacters(s);
    DuplicateMarksCollapse(Collapse(s));
    CollapseFixes(Collapse(s));
  }

  // ---------------------------------------------------------------------
  // Digits read as consonants
  // ---------------------------------------------------------------------

  /** The digit itself never belongs to the class that must follow it. */
  predicate DigitOutsideFollow(d: char)
  {
    !IsVowelSign(d) && !IsMedial(d) && !IsFinalBase(d) && !IsFinalMark(d)
  }

  lemma {:induction false} DigitAsLetterLength(d: char, l: char, f: Follow, s: string)
    ensures |Rewrite(DigitAsLetter(d, l, f), s)| == |s|
    decreases |s|
  {
    if s != [] {
      match MatchAt(DigitAsLetter(d, l, f), s)
      case Some(m) => DigitAsLetterLength(d, l, f, s[m.len..]);
      case None => DigitAsLetterLength(d, l, f, s[1..]);
    }
  }

  /** What a digit-as-consonant pass writes at position `i`: the letter for
      a digit followed by the required class, the character itself
      otherwise. */
  function DigitRead(d: char, l: char, f: Follow, s: string, i: nat): char
    requires i < |s|
  {
    if s[i] == d && FollowLength(f, s[i + 1..]) > 0 then l else s[i]
  }

  /** Position `i` past the first `n` characters reads as position `i - n`
      of the rest. */
  lemma DigitReadShift(d: char, l: char, f: Follow, s: string, n: nat, i: nat)
    requires n <= i < |s|
    ensures DigitRead(d, l, f, s[n..], i - n) == DigitRead(d, l, f, s, i)
  {
    assert s[n..][i - n + 1..] == s[i + 1..];
  }

  lemma {:induction false} DigitAsLetterAt(d: char, l: char, f: Follow, s: string, i: nat)
    requires DigitOutsideFollow(d) && i < |s|
    ensures |Rewrite(DigitAsLetter(d, l, f), s)| == |s|
    ensures Rewrite(DigitAsLetter(d, l, f), s)[i] == DigitRead(d, l, f, s, i)
    decreases |s|, 1
  {
    var n, head := DigitStep(d, l, f, s, i);
    if i >= n {
      DigitTailAt(d, l, f, s, i, n, head);
    }
  }

  /** Past the first turn, the pass writes what it writes for the rest. */
  lemma {:induction false} DigitTailAt(d: char, l: char, f: Follow, s: string, i: nat, n: nat, head: string)
    requires DigitOutsideFollow(d) && 0 < n <= i < |s| && |head| == n
    requires |Rewrite(DigitAsLetter(d, l, f), s)| == |s|
    requires Rewrite(DigitAsLetter(d, l, f), s) == head + Rewrite(DigitAsLetter(d, l, f), s[n..])
    ensures Rewrite(DigitAsLetter(d, l, f), s)[i] == DigitRead(d, l, f, s, i)
    decreases |s|, 0
  {
    var rest := Rewrite(DigitAsLetter(d, l, f), s[n..]);
    DigitAsLetterAt(d, l, f, s[n..], i - n);
    DigitReadShift(d, l, f, s, n, i);
    assert (head + rest)[i] == rest[i - n];
  }

  /** One turn of a digit-as-consonant pass writes as many characters as it
      consumes, each as the pass promises. */
  lemma DigitStep(d: char, l: char, f: Follow, s: string, i: nat) returns (n: nat, head: string)
    requires DigitOutsideFollow(d) && i < |s|
    ensures 0 < n <= |s| && |head| == n
    ensures |Rewrite(DigitAsLetter(d, l, f), s)| == |s|
    ensures Rewrite(DigitAsLetter(d, l, f), s) == head + Rewrite(DigitAsLetter(d, l, f), s[n..])
    ensures i < n ==> head[i] == DigitRead(d, l, f, s, i)
  {
    var p := DigitAsLetter(d, l, f);
    DigitAsLetterLength(d, l, f, s);
    n, head := RewriteStep(p, s);
    assert MatchAt(p, s) == DigitMatch(s, d, l, f);
    if i < n && MatchAt(p, s).Some? {
      DigitMatchAt(d, l, f, s, i);
    }
  }

  /** Inside a match the digit becomes the letter and the follower stays. */
  lemma DigitMatchAt(d: char, l: char, f: Follow, s: string, i: nat)
    requires DigitOutsideFollow(d)
    requires DigitMatch(s, d, l, f).Some? && i < DigitMatch(s, d, l, f).value.len
    ensures DigitMatch(s, d, l, f).value.out[i]
         == if s[i] == d && FollowLength(f, s[i + 1..]) > 0 then l else s[i]
  {
    if i > 0 {
      DigitFollowerNotDigit(d, f, s[1..], i - 1);
    }
  }

  /** A character taken by the follow group is never the digit. */
  lemma DigitFollowerNotDigit(d: char, f: Follow, t: string, j: nat)
    requires DigitOutsideFollow(d) && j < FollowLength(f, t)
    ensures t[j] != d
  {
  }

  /**
   * A digit-as-consonant pass rewrites exactly the digits followed by the
   * required class, to the letter, and leaves every other position alone.
   */
  lemma DigitAsLetterPointwise(d: char, l: char, f: Follow, s: string)
    requires DigitOutsideFollow(d)
    ensures |Rewrite(DigitAsLetter(d, l, f), s)| == |s|
    ensures forall i :: 0 <= i < |s| ==>
      Rewrite(DigitAsLetter(d, l, f), s)[i] == (if s[i] == d && FollowLength(f, s[i + 1..]) > 0 then l else s[i])
  {
    DigitAsLetterLength(d, l, f, s);
    forall i | 0 <= i < |s| ensures Rewrite(DigitAsLetter(d, l, f), s)[i]
      == if s[i] == d && FollowLength(f, s[i + 1..]) > 0 then l else s[i]
    {
      DigitAsLetterAt(d, l, f, s, i);
    }
  }

  // ---------------------------------------------------------------------
  // Storage order and ra reordering
  // ---------------------------------------------------------------------

  /** Splitting a slice in two splits its multiset. */
  lemma SliceSplit(s: string, i: nat, j: nat, k: nat)
    requires i <= j <= k <= |s|
    ensures multiset(s[i..k]) == multiset(s[i..j]) + multiset(s[j..k])
  {
    assert s[i..k] == s[i..j] + s[j..k];
  }

  /** The storage-order replacement holds no character that was not in the
      match: it only reorders, and drops all but the last tone mark and, in
      the TypeScript form, the second upper sign. */
  lemma StorageOutDropsOnly(s: string, g: StorageSplit, keepUpper2: bool)
    requires Ordered(g, s)
    ensures multiset(StorageOut(s, g, keepUpper2)) <= multiset(s[..g.upper2End])
  {
    var tones := s[g.upperEnd..g.tonesEnd];
    var lastTone: string := if g.tonesEnd > g.upperEnd then [s[g.tonesEnd - 1]] else [];
    assert multiset(lastTone) <= multiset(tones) by {
      if g.tonesEnd > g.upperEnd {
        assert tones == s[g.upperEnd..g.tonesEnd - 1] + lastTone;
      }
    }
    var e, con, up := s[..g.eEnd], s[g.eEnd..g.sconEnd], s[g.sconEnd..g.upperEnd];
    var med, low, up2 := s[g.tonesEnd..g.medialsEnd], s[g.medialsEnd..g.lowerEnd], s[g.lowerEnd..g.upper2End];
    var kept: string := if keepUpper2 then up2 else [];
    SplitInSeven(s, g.eEnd, g.sconEnd, g.upperEnd, g.tonesEnd, g.medialsEnd, g.lowerEnd, g.upper2End);
    PartsDropOnly(e, con, up, tones, med, low, up2, lastTone, kept);
    assert StorageOut(s, g, keepUpper2) == con + med + e + up + low + lastTone + kept;
  }

  lemma SplitInSeven(s: string, a: nat, b: nat, c: nat, d: nat, e: nat, f: nat, g: nat)
    requires a <= b <= c <= d <= e <= f <= g <= |s|
    ensures s[..g] == s[..a] + s[a..b] + s[b..c] + s[c..d] + s[d..e] + s[e..f] + s[f..g]
  {
    assert s[..b] == s[..a] + s[a..b];
    assert s[..c] == s[..b] + s[b..c];
    assert s[..d] == s[..c] + s[c..d];
    assert s[..e] == s[..d] + s[d..e];
    assert s[..f] == s[..e] + s[e..f];
    assert s[..g] == s[..f] + s[f..g];
  }

  /** Reordering the seven groups, keeping part of the tones and part of the
      second upper sign, keeps a sub-multiset. */
  lemma PartsDropOnly(e: string, con: string, up: string, tones: string, med: string, low: string,
                      up2: string, lastTone: string, kept: string)
    requires multiset(lastTone) <= multiset(tones) && multiset(kept) <= multiset(up2)
    ensures multiset(con + med + e + up + low + lastTone + kept) <= multiset(e + con + up + tones + med + low + up2)
  {
    assert multiset(con + med + e + up + low + lastTone + kept) == multiset(con) + multiset(med) + multiset(e)
      + multiset(up) + multiset(low) + multiset(lastTone) + multiset(kept);
    assert multiset(e + con + up + tones + med + low + up2) == multiset(e) + multiset(con) + multiset(up)
      + multiset(tones) + multiset(med) + multiset(low) + multiset(up2);
  }

  /** With the second upper sign kept, the replacement keeps every character
      that is not a tone mark. */
  lemma StorageOutKeepsNonTones(s: string, g: StorageSplit)
    requires Ordered(g, s)
    requires forall i :: g.upperEnd <= i < g.tonesEnd ==> IsToneMark(s[i])
    ensures forall x :: !IsToneMark(x) ==> multiset(StorageOut(s, g, true))[x] == multiset(s[..g.upper2End])[x]
  {
    var tones := s[g.upperEnd..g.tonesEnd];
    var lastTone: string := if g.tonesEnd > g.upperEnd then [s[g.tonesEnd - 1]] else [];
    var e, con, up := s[..g.eEnd], s[g.eEnd..g.sconEnd], s[g.sconEnd..g.upperEnd];
    var med, low, up2 := s[g.tonesEnd..g.medialsEnd], s[g.medialsEnd..g.lowerEnd], s[g.lowerEnd..g.upper2End];
    SplitInSeven(s, g.eEnd, g.sconEnd, g.upperEnd, g.tonesEnd, g.medialsEnd, g.lowerEnd, g.upper2End);
    assert StorageOut(s, g, true) == con + med + e + up + low + lastTone + up2;
    forall x | !IsToneMark(x)
      ensures multiset(StorageOut(s, g, true))[x] == multiset(s[..g.upper2End])[x]
    {
      assert x !in tones;
      assert x !in lastTone;
      PartsKeep(e, con, up, tones, med, low, up2, lastTone, x);
    }
  }

  /** Reordering the seven groups and replacing the tones by some of them
      keeps the count of every character absent from the tones. */
  lemma PartsKeep(e: string, con: string, up: string, tones: string, med: string, low: string,
                  up2: string, lastTone: string, x: char)
    requires x !in tones && x !in lastTone
    ensures multiset(con + med + e + up + low + lastTone + up2)[x] == multiset(e + con + up + tones + med + low + up2)[x]
  {
    assert multiset(con + med + e + up + low + lastTone + up2) == multiset(con) + multiset(med) + multiset(e)
      + multiset(up) + multiset(low) + multiset(lastTone) + multiset(up2);
    assert multiset(e + con + up + tones + med + low + up2) == multiset(e) + multiset(con) + multiset(up)
      + multiset(tones) + multiset(med) + multiset(low) + multiset(up2);
  }

  lemma StorageOutHead(s: string, g: StorageSplit, keepUpper2: bool)
    requires Ordered(g, s)
    ensures StorageOut(s, g, keepUpper2) != [] && StorageOut(s, g, keepUpper2)[0] == s[g.eEnd]
  {
    var rest := StorageOut(s, g, keepUpper2)[g.sconEnd - g.eEnd..];
    assert StorageOut(s, g, keepUpper2) == s[g.eEnd..g.sconEnd] + rest;
  }

  /** A turn of the storage-order driver never writes a character it did
      not consume. */
  lemma StorageStep(keepUpper2: bool, s: string) returns (n: nat, head: string)
    requires s != []
    ensures 0 < n <= |s| && s == s[..n] + s[n..]
    ensures Rewrite(StorageOrder(keepUpper2), s) == head + Rewrite(StorageOrder(keepUpper2), s[n..])
    ensures multiset(head) <= multiset(s[..n])
  {
    n, head := RewriteStep(StorageOrder(keepUpper2), s);
    assert MatchAt(StorageOrder(keepUpper2), s) == StorageMatch(s, keepUpper2);
  }

  /** Rewriting into storage order never adds a character. */
  lemma {:induction false} StorageOrderDropsOnly(keepUpper2: bool, s: string)
    ensures multiset(Rewrite(StorageOrder(keepUpper2), s)) <= multiset(s)
    decreases |s|
  {
    if s != [] {
      var n, head := StorageStep(keepUpper2, s);
      StorageOrderDropsOnly(keepUpper2, s[n..]);
      SumLe2(multiset(head), multiset(Rewrite(StorageOrder(keepUpper2), s[n..])), multiset(s[..n]), multiset(s[n..]));
    }
  }

  /** With the second upper sign kept (the Rust form), the storage-order
      pass only ever drops tone marks: every other character keeps its count. */
  lemma StorageOrderKeepsNonTones(s: string, x: char)
    requires !IsToneMark(x)
    ensures multiset(Rewrite(StorageOrder(true), s))[x] == multiset(s)[x]
  {
    var p := StorageOrder(true);
    forall t | MatchAt(p, t).Some?
      ensures multiset(MatchAt(p, t).value.out)[x] == multiset(t[..MatchAt(p, t).value.len])[x]
    {
      assert MatchAt(p, t) == StorageMatch(t, true);
    }
    RewriteKeepsCount(p, s, x);
  }

  /** A pattern whose every match keeps the count of `x` keeps it in the
      whole text. */
  lemma {:induction false} RewriteKeepsCount(p: Pattern, s: string, x: char)
    requires Valid(p)
    requires forall t :: MatchAt(p, t).Some? ==>
      multiset(MatchAt(p, t).value.out)[x] == multiset(t[..MatchAt(p, t).value.len])[x]
    ensures multiset(Rewrite(p, s))[x] == multiset(s)[x]
    decreases |s|
  {
    if s != [] {
      var n, head := KeepsCountStep(p, s, x);
      RewriteKeepsCount(p, s[n..], x);
      CountConcat(head, Rewrite(p, s[n..]), s[..n], s[n..], x);
    }
  }

  /** A turn of the driver with such a pattern keeps the count of `x`. */
  lemma KeepsCountStep(p: Pattern, s: string, x: char) returns (n: nat, head: string)
    requires Valid(p) && s != []
    requires forall t :: MatchAt(p, t).Some? ==>
      multiset(MatchAt(p, t).value.out)[x] == multiset(t[..MatchAt(p, t).value.len])[x]
    ensures 0 < n <= |s| && s == s[..n] + s[n..]
    ensures Rewrite(p, s) == head + Rewrite(p, s[n..])
    ensures multiset(head)[x] == multiset(s[..n])[x]
  {
    n, head := RewriteStep(p, s);
  }

  lemma CountConcat(a: string, b: string, a': string, b': string, x: char)
    requires multiset(a)[x] == multiset(a')[x] && multiset(b)[x] == multiset(b')[x]
    ensures multiset(a + b)[x] == multiset(a' + b')[x]
  {
    assert multiset(a + b) == multiset(a) + multiset(b);
    assert multiset(a' + b') == multiset(a') + multiset(b');
  }

  lemma SumLe2(a: multiset<char>, b: multiset<char>, a': multiset<char>, b': multiset<char>)
    requires a <= a' && b <= b'
    ensures a + b <= a' + b'
  {
  }
}
