/**
 * Whole-string literal replacement, the primitive under every table-driven
 * stage of the transcoder.
 *
 * `ReplaceAll` is Rust's `str::replace` (and, for non-empty patterns,
 * JavaScript's `split(k).join(v)`): occurrences are found left to right, they
 * do not overlap, and replaced text is not scanned again.  `ReplaceFirst` is
 * JavaScript's `String.prototype.replace` with a string pattern, which only
 * rewrites the first occurrence.  `ReplaceEach` is the left fold of
 * `ReplaceAll` over an ordered table of (pattern, replacement) pairs.
 */
module Replace {

  type Table = seq<(string, string)>

  /** True iff `p` occurs in `s` starting at index `i`. */
  predicate OccursAt(p: string, s: string, i: nat)
  {
    i + |p| <= |s| && s[i..i + |p|] == p
  }

  /** True iff `p` occurs somewhere in `s`. */
  predicate Occurs(p: string, s: string)
  {
    exists i: nat :: i <= |s| && OccursAt(p, s, i)
  }

  /**
   * Every occurrence of `pat`, scanning left to right without overlap, is
   * replaced by `rep`.  An empty pattern matches before every character and at
   * the end, as in Rust (`"ab".replace("", "x") == "xaxbx"`).
   */
  function ReplaceAll(s: string, pat: string, rep: string): (r: string)
    ensures pat != [] && |rep| == |pat| ==> |r| == |s|
    decreases |s|
  {
    if pat == [] then
      rep + (if s == [] then [] else [s[0]] + ReplaceAll(s[1..], pat, rep))
    else if |pat| <= |s| && s[..|pat|] == pat then
      rep + ReplaceAll(s[|pat|..], pat, rep)
    else if s == [] then
      []
    else
      [s[0]] + ReplaceAll(s[1..], pat, rep)
  }

  /** Only the first occurrence of `pat` is replaced (JavaScript's `replace`). */
  function ReplaceFirst(s: string, pat: string, rep: string): (r: string)
    ensures |rep| == |pat| ==> |r| == |s|
    decreases |s|
  {
    if pat == [] then rep + s
    else if |pat| <= |s| && s[..|pat|] == pat then
      rep + s[|pat|..]
    else if s == [] then []
    else [s[0]] + ReplaceFirst(s[1..], pat, rep)
  }

  /** The left fold of `ReplaceAll` over `table`, first entry first. */
  function ReplaceEach(table: Table, s: string): string
    decreases |table|
  {
    if table == [] then s else ReplaceEach(table[1..], ReplaceAll(s, table[0].0, table[0].1))
  }

  /** The loop every table-driven stage runs: each entry in turn, each one
      replacing all of its occurrences in the working text. */
  method ReplaceEachInOrder(table: Table, input: string) returns (result: string)
    ensures result == ReplaceEach(table, input)
  {
    result := input;
    for k := 0 to |table|
      invariant result == ReplaceEach(table[..k], input)
    {
      ReplaceEachSnoc(table[..k], table[k], input);
      assert table[..k + 1] == table[..k] + [table[k]];
      result := ReplaceAll(result, table[k].0, table[k].1);
    }
    assert table[..|table|] == table;
  }

  /** Replaces every `c` in `s` by `rep`, one character at a time: the reference
      definition that single-character replacement is checked against. */
  function SubstituteChar(s: string, c: char, rep: string): string
    decreases |s|
  {
    if s == [] then [] else (if s[0] == c then rep else [s[0]]) + SubstituteChar(s[1..], c, rep)
  }

  /** Every character of the result comes from the text or the replacement. */
  lemma {:induction false} ReplaceAllChars(s: string, pat: string, rep: string)
    ensures forall ch :: ch in ReplaceAll(s, pat, rep) ==> ch in s || ch in rep
    decreases |s|
  {
    if pat == [] {
      if s != [] {
        ReplaceAllChars(s[1..], pat, rep);
      }
    } else if |pat| <= |s| && s[..|pat|] == pat {
      ReplaceAllChars(s[|pat|..], pat, rep);
      assert forall ch :: ch in s[|pat|..] ==> ch in s;
    } else if s != [] {
      ReplaceAllChars(s[1..], pat, rep);
    }
  }

  /** Without an occurrence of a non-empty pattern, the text is unchanged. */
  lemma {:induction false} ReplaceAllWithoutOccurrence(s: string, pat: string, rep: string)
    requires pat != [] && !Occurs(pat, s)
    ensures ReplaceAll(s, pat, rep) == s
    decreases |s|
  {
    assert !OccursAt(pat, s, 0);
    if s != [] {
      assert !Occurs(pat, s[1..]) by {
        forall i: nat | i <= |s| - 1 && OccursAt(pat, s[1..], i) ensures OccursAt(pat, s, i + 1) {
          assert s[i + 1..i + 1 + |pat|] == s[1..][i..i + |pat|];
        }
      }
      ReplaceAllWithoutOccurrence(s[1..], pat, rep);
      assert s == [s[0]] + s[1..];
    }
  }

  /** Every character of the fold comes from the text or one of the
      replacements. */
  lemma {:induction false} ReplaceEachChars(table: Table, s: string)
    ensures forall ch :: ch in ReplaceEach(table, s) ==> ch in s || exists k :: 0 <= k < |table| && ch in table[k].1
    decreases |table|
  {
    if table != [] {
      var u := ReplaceAll(s, table[0].0, table[0].1);
      ReplaceAllChars(s, table[0].0, table[0].1);
      ReplaceEachChars(table[1..], u);
      assert ReplaceEach(table, s) == ReplaceEach(table[1..], u);
      forall ch | ch in ReplaceEach(table, s)
        ensures ch in s || exists k :: 0 <= k < |table| && ch in table[k].1
      {
        if ch in u {
          if ch !in s {
            assert ch in table[0].1;
          }
        } else {
          var k :| 0 <= k < |table| - 1 && ch in table[1..][k].1;
          assert ch in table[k + 1].1;
        }
      }
    }
  }

  /** `ReplaceEach` over a table is the `ReplaceAll` of its last entry after the rest. */
  lemma {:induction false} ReplaceEachSnoc(table: Table, e: (string, string), s: string)
    ensures ReplaceEach(table + [e], s) == ReplaceAll(ReplaceEach(table, s), e.0, e.1)
    decreases |table|
  {
    if table == [] {
      assert [e][1..] == [];
    } else {
      assert (table + [e])[1..] == table[1..] + [e];
      ReplaceEachSnoc(table[1..], e, ReplaceAll(s, table[0].0, table[0].1));
    }
  }

  /** Folding over two tables in turn is folding over their concatenation. */
  lemma {:induction false} ReplaceEachAppend(a: Table, b: Table, s: string)
    ensures ReplaceEach(a + b, s) == ReplaceEach(b, ReplaceEach(a, s))
    decreases |a|
  {
    if a == [] {
      assert a + b == b;
    } else {
      assert (a + b)[1..] == a[1..] + b;
      ReplaceEachAppend(a[1..], b, ReplaceAll(s, a[0].0, a[0].1));
    }
  }

  /** A single-character pattern is replaced character by character. */
  lemma {:induction false} ReplaceAllOneChar(s: string, c: char, rep: string)
    ensures ReplaceAll(s, [c], rep) == SubstituteChar(s, c, rep)
    decreases |s|
  {
    if s != [] {
      ReplaceAllOneChar(s[1..], c, rep);
      if s[..1] == [c] {
        assert s[0] == c;
      } else {
        assert s[0] != c by { assert s[..1] == [s[0]]; }
      }
    }
  }

  /** After replacing a character by text that does not contain it, the
      character is gone. */
  lemma {:induction false} ReplaceAllRemovesChar(s: string, c: char, rep: string)
    requires c !in rep
    ensures c !in ReplaceAll(s, [c], rep)
  {
    ReplaceAllOneChar(s, c, rep);
    SubstituteCharAvoids(s, c, rep);
  }

  /** Substituting one character by one character rewrites exactly the
      positions holding it and keeps every other position. */
  lemma {:induction false} SubstituteCharPointwise(s: string, c: char, d: char)
    ensures SubstituteChar(s, c, [d]) == seq(|s|, i requires 0 <= i < |s| => if s[i] == c then d else s[i])
    decreases |s|
  {
    if s != [] {
      SubstituteCharPointwise(s[1..], c, d);
    }
  }

  lemma {:induction false} SubstituteCharAvoids(s: string, c: char, rep: string)
    requires c !in rep
    ensures c !in SubstituteChar(s, c, rep)
    decreases |s|
  {
    if s != [] {
      SubstituteCharAvoids(s[1..], c, rep);
    }
  }

  /** One turn of `ReplaceAll` with a non-empty pattern: it consumes `n`
      characters, either an occurrence of the pattern, written as the
      replacement, or the first character, written as is. */
  lemma ReplaceAllStep(s: string, pat: string, rep: string) returns (n: nat, head: string)
    requires pat != [] && s != []
    ensures 0 < n <= |s| && s == s[..n] + s[n..]
    ensures ReplaceAll(s, pat, rep) == head + ReplaceAll(s[n..], pat, rep)
    ensures (s[..n] == pat && head == rep) || (n == 1 && head == s[..1])
  {
    if |pat| <= |s| && s[..|pat|] == pat {
      n, head := |pat|, rep;
    } else {
      n, head := 1, s[..1];
    }
    assert s == s[..n] + s[n..];
  }

  /** A pattern replaced by one of its permutations leaves a permutation. */
  lemma {:induction false} ReplaceAllPermutes(s: string, pat: string, rep: string)
    requires pat != []
    requires multiset(pat) == multiset(rep)
    ensures multiset(ReplaceAll(s, pat, rep)) == multiset(s)
    decreases |s|
  {
    if s != [] {
      var n, head := ReplaceAllStep(s, pat, rep);
      var rest := s[n..];
      ReplaceAllPermutes(rest, pat, rep);
      assert multiset(head) == multiset(s[..n]);
      assert multiset(s) == multiset(s[..n]) + multiset(rest);
      assert multiset(head + ReplaceAll(rest, pat, rep)) == multiset(head) + multiset(ReplaceAll(rest, pat, rep));
    }
  }

  /**
   * Counting one character `x`: a replacement that never holds more `x` than
   * its pattern never increases the count of `x`, and one that holds exactly
   * as many keeps the count.
   */
  lemma {:induction false} ReplaceAllCount(s: string, pat: string, rep: string, x: char)
    requires pat != []
    ensures multiset(rep)[x] <= multiset(pat)[x] ==> multiset(ReplaceAll(s, pat, rep))[x] <= multiset(s)[x]
    ensures multiset(rep)[x] == multiset(pat)[x] ==> multiset(ReplaceAll(s, pat, rep))[x] == multiset(s)[x]
    decreases |s|
  {
    if |pat| <= |s| && s[..|pat|] == pat {
      ReplaceAllCount(s[|pat|..], pat, rep, x);
      assert s == s[..|pat|] + s[|pat|..];
    } else if s != [] {
      ReplaceAllCount(s[1..], pat, rep, x);
      assert s == [s[0]] + s[1..];
    }
  }

  /** `ReplaceAllCount` over a whole table: entries that never add an `x`
      never raise the count of `x`, entries that keep it keep the count. */
  lemma {:induction false} ReplaceEachCount(t: Table, s: string, x: char)
    requires forall k :: 0 <= k < |t| ==> t[k].0 != []
    ensures (forall k :: 0 <= k < |t| ==> multiset(t[k].1)[x] <= multiset(t[k].0)[x]) ==>
      multiset(ReplaceEach(t, s))[x] <= multiset(s)[x]
    ensures (forall k :: 0 <= k < |t| ==> multiset(t[k].1)[x] == multiset(t[k].0)[x]) ==>
      multiset(ReplaceEach(t, s))[x] == multiset(s)[x]
    decreases |t|
  {
    if t != [] {
      var u := ReplaceAll(s, t[0].0, t[0].1);
      ReplaceAllCount(s, t[0].0, t[0].1, x);
      ReplaceEachCount(t[1..], u, x);
      assert forall k :: 0 <= k < |t| - 1 ==> t[1..][k] == t[k + 1];
    }
  }

  /**
   * Replacing the two-character pattern `[a, b]` by `[c, b]` (with `a != b`,
   * so occurrences cannot overlap) rewrites exactly the positions holding `a`
   * right before `b`, and nothing else.
   */
  lemma ReplaceAllPairPointwise(s: string, a: char, b: char, c: char)
    requires a != b
    ensures |ReplaceAll(s, [a, b], [c, b])| == |s|
    ensures forall i :: 0 <= i < |s| ==>
      ReplaceAll(s, [a, b], [c, b])[i] == (if s[i] == a && i + 1 < |s| && s[i + 1] == b then c else s[i])
  {
    ReplaceAllPairLength(s, a, b, c);
    forall i | 0 <= i < |s|
      ensures ReplaceAll(s, [a, b], [c, b])[i] == (if s[i] == a && i + 1 < |s| && s[i + 1] == b then c else s[i])
    {
      ReplaceAllPairAt(s, a, b, c, i);
    }
  }

  lemma {:induction false} ReplaceAllPairLength(s: string, a: char, b: char, c: char)
    ensures |ReplaceAll(s, [a, b], [c, b])| == |s|
    decreases |s|
  {
    if 2 <= |s| && s[..2] == [a, b] {
      ReplaceAllPairLength(s[2..], a, b, c);
    } else if s != [] {
      ReplaceAllPairLength(s[1..], a, b, c);
    }
  }

  lemma {:induction false} ReplaceAllPairAt(s: string, a: char, b: char, c: char, i: nat)
    requires a != b
    requires i < |s|
    ensures |ReplaceAll(s, [a, b], [c, b])| == |s|
    ensures ReplaceAll(s, [a, b], [c, b])[i] == (if s[i] == a && i + 1 < |s| && s[i + 1] == b then c else s[i])
    decreases |s|
  {
    ReplaceAllPairLength(s, a, b, c);
    if 2 <= |s| && s[..2] == [a, b] {
      assert s[0] == a && s[1] == b;
      if i >= 2 {
        ReplaceAllPairAt(s[2..], a, b, c, i - 2);
      }
    } else {
      if i >= 1 {
        ReplaceAllPairAt(s[1..], a, b, c, i - 1);
      }
    }
  }

  /** A one-character string is left alone by a table none of whose (non-empty)
      patterns is that character. */
  lemma {:induction false} ReplaceEachFixesChar(table: Table, x: char)
    requires forall k :: 0 <= k < |table| ==> table[k].0 != [] && table[k].0 != [x]
    ensures ReplaceEach(table, [x]) == [x]
    decreases |table|
  {
    if table != [] {
      var p := table[0].0;
      assert !Occurs(p, [x]) by {
        forall i: nat | i <= 1 ensures !OccursAt(p, [x], i) {
          if i + |p| <= 1 {
            assert i == 0 && |p| == 1;
            assert [x][0..1] == [x];
          }
        }
      }
      ReplaceAllWithoutOccurrence([x], p, table[0].1);
      ReplaceEachFixesChar(table[1..], x);
    }
  }

  /** A one-character string goes through a table unchanged up to the entry
      that replaces it by another single character, and unchanged after it. */
  lemma ReplaceEachOneStep(t: Table, i: nat, x: char, y: char)
    requires i < |t| && t[i] == ([x], [y])
    requires forall k :: 0 <= k < |t| ==> t[k].0 != []
    requires forall k :: 0 <= k < i ==> t[k].0 != [x]
    requires forall k :: i < k < |t| ==> t[k].0 != [y]
    ensures ReplaceEach(t, [x]) == [y]
  {
    var before, rest := t[..i], t[i + 1..];
    assert t == before + ([t[i]] + rest);
    ReplaceEachAppend(before, [t[i]] + rest, [x]);
    ReplaceEachFixesChar(before, x);
    assert ReplaceAll([x], [x], [y]) == [y] by {
      assert [x][..1] == [x];
      assert ReplaceAll([x], [x], [y]) == [y] + ReplaceAll([], [x], [y]);
    }
    assert ReplaceEach([t[i]] + rest, [x]) == ReplaceEach(rest, [y]) by {
      assert ([t[i]] + rest)[1..] == rest;
    }
    ReplaceEachFixesChar(rest, y) by {
      forall k | 0 <= k < |rest| ensures rest[k].0 != [] && rest[k].0 != [y] {
        assert rest[k] == t[i + 1 + k];
      }
    }
  }

  /** Once entry `i` of a table replaces the single character `c`, and no
      value from entry `i` on holds `c`, the fold leaves no `c` behind. */
  lemma ReplaceEachRemovesChar(t: Table, i: nat, c: char, s: string)
    requires i < |t| && t[i].0 == [c]
    requires forall k :: i <= k < |t| ==> c !in t[k].1
    ensures c !in ReplaceEach(t, s)
  {
    var before, rest := t[..i], t[i + 1..];
    assert t == before + [t[i]] + rest;
    ReplaceEachAppend(before + [t[i]], rest, s);
    ReplaceEachSnoc(before, t[i], s);
    ReplaceAllRemovesChar(ReplaceEach(before, s), c, t[i].1);
    ReplaceEachChars(rest, ReplaceEach(before + [t[i]], s));
    assert forall k :: 0 <= k < |rest| ==> c !in rest[k].1 by {
      forall k | 0 <= k < |rest| ensures c !in rest[k].1 {
        assert rest[k] == t[i + 1 + k];
      }
    }
  }

  /** True iff every pattern of `t` is non-empty and none is the single
      character `x`. */
  predicate KeysAvoid(t: Table, x: char)
  {
    forall k :: 0 <= k < |t| ==> t[k].0 != [] && t[k].0 != [x]
  }

  /** A table written as a list of sections, the entries of each section in
      order and the sections in order. */
  function Flatten(ts: seq<Table>): Table
  {
    if ts == [] then [] else ts[0] + Flatten(ts[1..])
  }

  /** A one-character string goes through a sectioned table unchanged when
      no section has a pattern that is that character. */
  lemma {:induction false} FlattenFixes(ts: seq<Table>, x: char)
    requires forall i :: 0 <= i < |ts| ==> KeysAvoid(ts[i], x)
    ensures ReplaceEach(Flatten(ts), [x]) == [x]
  {
    if ts != [] {
      ReplaceEachFixesChar(ts[0], x);
      FlattenFixes(ts[1..], x);
      ReplaceEachAppend(ts[0], Flatten(ts[1..]), [x]);
    }
  }

  /** A one-character string `x` passes unchanged through the sections before
      section `j`, which turns it into `y`; whatever the later sections make
      of `y` is what the whole table makes of `x`. */
  lemma {:induction false} FlattenThrough(ts: seq<Table>, j: nat, x: char, y: char, out: string)
    requires j < |ts|
    requires forall i :: 0 <= i < j ==> KeysAvoid(ts[i], x)
    requires ReplaceEach(ts[j], [x]) == [y]
    requires ReplaceEach(Flatten(ts[j + 1..]), [y]) == out
    ensures ReplaceEach(Flatten(ts), [x]) == out
  {
    ReplaceEachAppend(ts[0], Flatten(ts[1..]), [x]);
    if j == 0 {
      assert ts[1..] == ts[j + 1..];
    } else {
      ReplaceEachFixesChar(ts[0], x);
      assert ts[1..][j..] == ts[j + 1..];
      FlattenThrough(ts[1..], j - 1, x, y, out);
    }
  }

  /** A one-character string `x` passes unchanged through the sections before
      section `j1`, which turns it into `y`; `y` passes unchanged up to
      section `j2`, which turns it into `z`, and `z` passes unchanged through
      the rest. */
  lemma TwoStepChain(ts: seq<Table>, j1: nat, x: char, y: char, j2: nat, z: char)
    requires j1 < j2 < |ts|
    requires forall i :: 0 <= i < j1 ==> KeysAvoid(ts[i], x)
    requires ReplaceEach(ts[j1], [x]) == [y]
    requires forall i :: j1 < i < j2 ==> KeysAvoid(ts[i], y)
    requires ReplaceEach(ts[j2], [y]) == [z]
    requires forall i :: j2 < i < |ts| ==> KeysAvoid(ts[i], z)
    ensures ReplaceEach(Flatten(ts), [x]) == [z]
  {
    ChainFrom(ts, j1, y, j2, z);
    FlattenThrough(ts, j1, x, y, [z]);
  }

  /** The sections after `j1` take `y` through section `j2` to `z`. */
  lemma ChainFrom(ts: seq<Table>, j1: nat, y: char, j2: nat, z: char)
    requires j1 < j2 < |ts|
    requires forall i :: j1 < i < j2 ==> KeysAvoid(ts[i], y)
    requires ReplaceEach(ts[j2], [y]) == [z]
    requires forall i :: j2 < i < |ts| ==> KeysAvoid(ts[i], z)
    ensures ReplaceEach(Flatten(ts[j1 + 1..]), [y]) == [z]
  {
    SuffixFixes(ts, j2 + 1, z);
    MiddleThrough(ts, j1, y, j2, z);
  }

  /** A character no section from `j` on replaces passes through them. */
  lemma SuffixFixes(ts: seq<Table>, j: nat, z: char)
    requires j <= |ts|
    requires forall i :: j <= i < |ts| ==> KeysAvoid(ts[i], z)
    ensures ReplaceEach(Flatten(ts[j..]), [z]) == [z]
  {
    var tail := ts[j..];
    forall i | 0 <= i < |tail| ensures KeysAvoid(tail[i], z) {
      assert tail[i] == ts[j + i];
    }
    FlattenFixes(tail, z);
  }

  /** The sections after `j1` take `y` to whatever the sections after `j2`
      make of `z`. */
  lemma MiddleThrough(ts: seq<Table>, j1: nat, y: char, j2: nat, z: char)
    requires j1 < j2 < |ts|
    requires forall i :: j1 < i < j2 ==> KeysAvoid(ts[i], y)
    requires ReplaceEach(ts[j2], [y]) == [z]
    requires ReplaceEach(Flatten(ts[j2 + 1..]), [z]) == [z]
    ensures ReplaceEach(Flatten(ts[j1 + 1..]), [y]) == [z]
  {
    var rest := ts[j1 + 1..];
    assert rest[j2 - j1..] == ts[j2 + 1..];
    forall i | 0 <= i < j2 - j1 - 1 ensures KeysAvoid(rest[i], y) {
      assert rest[i] == ts[j1 + 1 + i];
    }
    assert rest[j2 - j1 - 1] == ts[j2];
    FlattenThrough(rest, j2 - j1 - 1, y, z, [z]);
  }
}
